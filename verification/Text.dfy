/**
 * Decimal numbers and splitting, as Go's strconv.Itoa, strconv.Atoi and strings.Split do them.  Printed numbers come
 * back, also negative ones; text is split at a separator into all pieces, or into at most a given number of them; and
 * what a separator that is missing, or one piece too many, does to the pieces is stated as well.
 */
module Text {
  import opened Wrappers

  const MAX_INT := 0x7FFF_FFFF_FFFF_FFFF
  const MIN_INT := -0x8000_0000_0000_0000

  /** Values of Go's int on a 64-bit machine. */
  predicate IsInt(n: int) { MIN_INT <= n <= MAX_INT }

  function Digit(n: nat): (c: char)
    requires n < 10
    ensures '0' <= c <= '9' && c as int - '0' as int == n
  {
    '0' + n as char
  }

  predicate AllDigits(s: string) {
    forall i :: 0 <= i < |s| ==> '0' <= s[i] <= '9'
  }

  function Digits(n: nat): (s: string)
    ensures s != [] && AllDigits(s)
  {
    if n < 10 then [Digit(n)] else Digits(n / 10) + [Digit(n % 10)]
  }

  function Itoa(n: int): string {
    if n < 0 then "-" + Digits(-n) else Digits(n)
  }

  function Number(s: string): nat
    requires AllDigits(s)
  {
    if s == [] then 0 else 10 * Number(s[..|s| - 1]) + (s[|s| - 1] as int - '0' as int)
  }

  /** An optional sign and at least one digit, within the range of int; anything else is an error. */
  function Atoi(s: string): Option<int> {
    var signed := s != [] && (s[0] == '-' || s[0] == '+');
    var digits := if signed then s[1..] else s;
    if digits == [] || !AllDigits(digits) then None
    else
      var n: int := if signed && s[0] == '-' then -(Number(digits) as int) else Number(digits);
      if IsInt(n) then Some(n) else None
  }

  lemma {:induction false} NumberDigits(n: nat)
    ensures Number(Digits(n)) == n
  {
    if n >= 10 {
      NumberDigits(n / 10);
      assert Digits(n)[..|Digits(n)| - 1] == Digits(n / 10);
    }
  }

  lemma {:induction false} AtoiItoa(n: int)
    requires IsInt(n)
    ensures Atoi(Itoa(n)) == Some(n)
  {
    var m := if n < 0 then -n else n;
    NumberDigits(m);
    assert ("-" + Digits(m))[1..] == Digits(m);
    assert Digits(m)[0] != '-' && Digits(m)[0] != '+';
  }

  /** A printed number contains no colon, and a dash only as its sign. */
  lemma {:induction false} ItoaChars(n: int)
    ensures ':' !in Itoa(n) && (n >= 0 ==> '-' !in Itoa(n))
  {
  }

  /** Digits are their number, with a plus sign in front as well, and with a minus sign its negative, if an int can hold it. */
  lemma {:induction false} AtoiSigned(digits: string)
    requires digits != "" && AllDigits(digits)
    ensures Atoi(digits) == Atoi("+" + digits) == if Number(digits) <= MAX_INT then Some(Number(digits)) else None
    ensures Atoi("-" + digits) == if Number(digits) <= MAX_INT + 1 then Some(-(Number(digits) as int)) else None
  {
    assert ("+" + digits)[1..] == digits && ("-" + digits)[1..] == digits;
  }

  /** Nothing else is a number. */
  lemma {:induction false} AtoiOnly(s: string)
    requires Atoi(s).Some?
    ensures exists digits: string :: digits != "" && AllDigits(digits) && (s == digits || s == "+" + digits || s == "-" + digits)
  {
    if s[0] == '-' || s[0] == '+' {
      assert s == [s[0]] + s[1..];
      assert s[1..] != "" && AllDigits(s[1..]);
    } else {
      assert s != "" && AllDigits(s);
    }
  }

  /** The pieces between separators; at least one. */
  function Split(s: string, sep: char): (r: seq<string>)
    ensures r != []
  {
    if s == [] then [[]]
    else
      var rest := Split(s[1..], sep);
      if s[0] == sep then [[]] + rest else [[s[0]] + rest[0]] + rest[1..]
  }

  /** Splitting after a first piece without separator. */
  lemma {:induction false} SplitFirst(a: string, sep: char, b: string)
    requires sep !in a
    ensures Split(a + [sep] + b, sep) == [a] + Split(b, sep)
  {
    var s := a + [sep] + b;
    if a == [] {
      assert s[1..] == b;
    } else {
      assert s[1..] == a[1..] + [sep] + b;
      SplitFirst(a[1..], sep, b);
      assert a == [a[0]] + a[1..];
    }
  }

  lemma {:induction false} SplitNone(a: string, sep: char)
    requires sep !in a
    ensures Split(a, sep) == [a]
  {
    if a != [] {
      SplitNone(a[1..], sep);
      assert a == [a[0]] + a[1..];
    }
  }

  lemma {:induction false} SplitThree(a: string, b: string, c: string, sep: char)
    requires sep !in a && sep !in b && sep !in c
    ensures Split(a + [sep] + b + [sep] + c, sep) == [a, b, c]
  {
    SplitNone(c, sep);
    SplitFirst(b, sep, c);
    SplitFirst(a, sep, b + [sep] + c);
    assert a + [sep] + b + [sep] + c == a + [sep] + (b + [sep] + c);
  }

  lemma {:induction false} SplitFour(a: string, b: string, c: string, d: string, sep: char)
    requires sep !in a && sep !in b && sep !in c && sep !in d
    ensures Split(a + [sep] + b + [sep] + c + [sep] + d, sep) == [a, b, c, d]
  {
    SplitThree(b, c, d, sep);
    var rest := b + [sep] + c + [sep] + d;
    SplitFirst(a, sep, rest);
    assert a + [sep] + b + [sep] + c + [sep] + d == a + [sep] + rest;
  }

  /** At most `n` pieces, the last one unsplit. */
  function SplitN(s: string, sep: char, n: nat): (r: seq<string>)
    requires n > 0
    ensures 1 <= |r| <= n
  {
    if n == 1 || sep !in s then [s]
    else if s[0] == sep then [[]] + SplitN(s[1..], sep, n - 1)
    else
      var rest := SplitN(s[1..], sep, n);
      [[s[0]] + rest[0]] + rest[1..]
  }

  lemma {:induction false} SplitNFirst(a: string, sep: char, b: string, n: nat)
    requires sep !in a && n > 1
    ensures SplitN(a + [sep] + b, sep, n) == [a] + SplitN(b, sep, n - 1)
  {
    var s := a + [sep] + b;
    assert s[|a|] == sep;
    if a == [] {
      assert s[1..] == b;
    } else {
      assert s[1..] == a[1..] + [sep] + b;
      SplitNFirst(a[1..], sep, b, n);
      assert a == [a[0]] + a[1..];
    }
  }

  function Count(s: string, c: char): nat {
    if s == [] then 0 else (if s[0] == c then 1 else 0) + Count(s[1..], c)
  }

  lemma {:induction false} CountAppend(a: string, b: string, c: char)
    ensures Count(a + b, c) == Count(a, c) + Count(b, c)
  {
    if a == [] {
      assert a + b == b;
    } else {
      assert (a + b)[1..] == a[1..] + b;
      CountAppend(a[1..], b, c);
    }
  }

  lemma {:induction false} CountIn(s: string, c: char)
    ensures Count(s, c) > 0 <==> c in s
  {
    if s != [] {
      CountIn(s[1..], c);
      assert c in s <==> s[0] == c || c in s[1..];
    }
  }

  lemma {:induction false} SplitNSize(s: string, sep: char, n: nat)
    requires n > 0
    ensures |SplitN(s, sep, n)| == if Count(s, sep) < n then Count(s, sep) + 1 else n
    decreases n, |s|
  {
    CountIn(s, sep);
    if n > 1 && sep in s {
      if s[0] == sep {
        SplitNSize(s[1..], sep, n - 1);
      } else {
        SplitNSize(s[1..], sep, n);
      }
    }
  }

  /** When all `n` pieces are there already, more text only lengthens the last one. */
  lemma {:induction false} SplitNLonger(s: string, sep: char, n: nat, more: string)
    requires n > 0 && |SplitN(s, sep, n)| == n
    ensures |SplitN(s + more, sep, n)| == n && SplitN(s + more, sep, n)[n - 1] == SplitN(s, sep, n)[n - 1] + more
    decreases n, |s|
  {
    if n > 1 {
      assert sep in s + more;
      assert (s + more)[1..] == s[1..] + more;
      if s[0] == sep {
        SplitNLonger(s[1..], sep, n - 1, more);
      } else {
        SplitNLonger(s[1..], sep, n, more);
      }
    }
  }

  /** The pieces on both sides of a separator. */
  lemma {:induction false} SplitAppend(a: string, sep: char, b: string)
    ensures Split(a + [sep] + b, sep) == Split(a, sep) + Split(b, sep)
  {
    var s := a + [sep] + b;
    if a == [] {
      assert s[1..] == b;
    } else {
      assert s[1..] == a[1..] + [sep] + b;
      SplitAppend(a[1..], sep, b);
    }
  }

  /** A dash behind the first digit is in no number. */
  lemma {:induction false} DashInside(s: string, i: nat)
    requires 0 < i < |s| && '0' <= s[0] <= '9' && s[i] == '-'
    ensures Atoi(s) == None
  {
  }

  /** Two pieces are split off and the third keeps its separators. */
  lemma {:induction false} SplitNThree(a: string, b: string, c: string, sep: char)
    requires sep !in a && sep !in b
    ensures SplitN(a + [sep] + b + [sep] + c, sep, 3) == [a, b, c]
  {
    SplitNFirst(a, sep, b + [sep] + c, 3);
    SplitNFirst(b, sep, c, 2);
    assert a + [sep] + b + [sep] + c == a + [sep] + (b + [sep] + c);
  }
}
