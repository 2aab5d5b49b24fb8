/**
 * How Go's range loop steps through a string: by UTF-8 encoded runes, and by single bytes where the bytes are not a
 * valid encoding (RFC 3629).  Characters stand for bytes.  The selector's walk steps that way along literal characters,
 * while patterns are read byte by byte.
 */
module Runes {
  predicate Between(c: char, low: int, high: int) { low <= c as int <= high }

  predicate Continues(c: char) { Between(c, 0x80, 0xBF) }

  /** The second byte that a first byte allows. */
  predicate Second(first: char, c: char) {
    if first as int == 0xE0 then Between(c, 0xA0, 0xBF)
    else if first as int == 0xED then Between(c, 0x80, 0x9F)
    else if first as int == 0xF0 then Between(c, 0x90, 0xBF)
    else if first as int == 0xF4 then Between(c, 0x80, 0x8F)
    else Continues(c)
  }

  /** The number of bytes of the first rune. */
  function RuneWidth(s: string): (w: nat)
    requires s != ""
    ensures 1 <= w <= |s|
  {
    if Between(s[0], 0xC2, 0xDF) && |s| >= 2 && Second(s[0], s[1]) then 2
    else if Between(s[0], 0xE0, 0xEF) && |s| >= 3 && Second(s[0], s[1]) && Continues(s[2]) then 3
    else if Between(s[0], 0xF0, 0xF4) && |s| >= 4 && Second(s[0], s[1]) && Continues(s[2]) && Continues(s[3]) then 4
    else 1
  }

  // ---------- Encodings ----------

  /** A code point that has an encoding: not one of the surrogates. */
  predicate Scalar(cp: int) { 0 <= cp <= 0x10FFFF && !(0xD800 <= cp <= 0xDFFF) }

  /** A byte that carries the lowest six bits, or six bits further up. */
  function Trail(n: int): char
    requires n >= 0
  {
    (0x80 + n % 64) as char
  }

  function Utf8(cp: int): (bytes: string)
    requires Scalar(cp)
    ensures bytes != ""
  {
    if cp < 0x80 then [cp as char]
    else if cp < 0x800 then [(0xC0 + cp / 64) as char, Trail(cp)]
    else if cp < 0x10000 then [(0xE0 + cp / 4096) as char, Trail(cp / 64), Trail(cp)]
    else [(0xF0 + cp / 262144) as char, Trail(cp / 4096), Trail(cp / 64), Trail(cp)]
  }

  /** A text that starts with the encoding of a code point starts with a rune of its width. */
  lemma {:induction false} EncodedWidth(cp: int, rest: string)
    requires Scalar(cp)
    ensures RuneWidth(Utf8(cp) + rest) == |Utf8(cp)|
  {
  }

  /** The code point of a rune that is wider than a byte. */
  function Decoded(s: string): int
    requires s != ""
  {
    var w := RuneWidth(s);
    if w == 2 then (s[0] as int - 0xC0) * 64 + (s[1] as int - 0x80)
    else if w == 3 then (s[0] as int - 0xE0) * 4096 + (s[1] as int - 0x80) * 64 + (s[2] as int - 0x80)
    else if w == 4 then (s[0] as int - 0xF0) * 262144 + (s[1] as int - 0x80) * 4096 + (s[2] as int - 0x80) * 64 + (s[3] as int - 0x80)
    else s[0] as int
  }

  lemma {:induction false} TwoBytes(s: string)
    requires s != "" && RuneWidth(s) == 2
    ensures Scalar(Decoded(s)) && Utf8(Decoded(s)) == s[..2]
  {
    Parts(s[1] as int - 0x80, s[0] as int - 0xC0);
  }

  lemma {:induction false} ThreeBytes(s: string)
    requires s != "" && RuneWidth(s) == 3
    ensures Scalar(Decoded(s)) && Utf8(Decoded(s)) == s[..3]
  {
    var a, b, c := s[0] as int - 0xE0, s[1] as int - 0x80, s[2] as int - 0x80;
    var cp := Decoded(s);
    Parts(c, a * 64 + b);
    Parts(b, a);
    assert cp == (a * 64 + b) * 64 + c && cp / 4096 == a && 0x800 <= cp < 0x10000;
  }

  lemma {:induction false} FourBytes(s: string)
    requires s != "" && RuneWidth(s) == 4
    ensures Scalar(Decoded(s)) && Utf8(Decoded(s)) == s[..4]
  {
    var a, b, c, d := s[0] as int - 0xF0, s[1] as int - 0x80, s[2] as int - 0x80, s[3] as int - 0x80;
    var cp := Decoded(s);
    Parts(d, (a * 64 + b) * 64 + c);
    Parts(c, a * 64 + b);
    Parts(b, a);
    assert cp == ((a * 64 + b) * 64 + c) * 64 + d && cp / 4096 == a * 64 + b && cp / 262144 == a && 0x10000 <= cp <= 0x10FFFF;
  }

  /** A rune is wider than a byte only where the text starts with the encoding of a code point. */
  lemma {:induction false} WideIsEncoded(s: string)
    requires s != "" && RuneWidth(s) > 1
    ensures Scalar(Decoded(s)) && Utf8(Decoded(s)) == s[..RuneWidth(s)]
  {
    if RuneWidth(s) == 2 {
      TwoBytes(s);
    } else if RuneWidth(s) == 3 {
      ThreeBytes(s);
    } else {
      FourBytes(s);
    }
  }

  lemma {:induction false} Parts(low: int, high: int)
    requires 0 <= low < 64 && 0 <= high
    ensures (high * 64 + low) / 64 == high && (high * 64 + low) % 64 == low
  {
  }

  /** Every rune is one byte wide. */
  predicate Narrow(s: string) {
    s == "" || (RuneWidth(s) == 1 && Narrow(s[1..]))
  }

  /** How far a step over a literal character goes: over a rune, or over one byte. */
  function Stride(s: string, wide: bool): (w: nat)
    requires s != ""
    ensures 1 <= w <= |s|
  {
    if wide then RuneWidth(s) else 1
  }

  /** Names in ASCII are stepped through byte by byte. */
  lemma {:induction false} AsciiIsNarrow(s: string)
    requires forall i :: 0 <= i < |s| ==> s[i] as int < 0x80
    ensures Narrow(s)
  {
    if s != "" {
      AsciiIsNarrow(s[1..]);
    }
  }
}
