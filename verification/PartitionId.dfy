/**
 * Partition IDs (pkg/column-mapping/column.go): instance, schema and table numbers packed above the original ID.
 */
module PartitionId {
  import opened Text

  datatype Result<+T> = Ok(value: T) | Err

  /** Bit widths of the three fields; the sign bit stays clear. */
  datatype Widths = Widths(instance: nat, schema: nat, table: nat)

  function Sum(w: Widths): nat { w.instance + w.schema + w.table }

  predicate WidthsOk(w: Widths) { Sum(w) <= 63 }

  /** A rule's arguments: instance number, schema prefix, table prefix, separator. */
  datatype Rule = Rule(instance: string, schemaPrefix: string, tablePrefix: string, sep: string)

  /** `n << k`. */
  function Shl(n: nat, k: nat): nat {
    if k == 0 then n else 2 * Shl(n, k - 1)
  }

  function Pow2(k: nat): nat { Shl(1, k) }

  /**
   * What `1 << (63 - sum)` gives in 64 bits with a sign: original IDs are below it.  With no field it is the sign bit
   * alone, a negative number; with widths of more than 63 bits the shift count wraps around and nothing is left.
   */
  function MaxOriginId(w: Widths): int {
    if Sum(w) == 0 then MIN_INT else if Sum(w) <= 63 then Pow2(63 - Sum(w)) else 0
  }

  // ---------- The fields ----------

  /** Digits only, and within the width. */
  function ParseUint(s: string, bits: nat): Result<nat> {
    if s == "" || !AllDigits(s) || Number(s) >= Pow2(bits) then Err else Ok(Number(s))
  }

  predicate StartsWith(s: string, prefix: string) {
    |prefix| <= |s| && s[..|prefix|] == prefix
  }

  /** The number behind prefix and separator; the bare prefix counts as 0. */
  function ComputeId(name: string, prefix: string, sep: string, bits: nat): Result<nat> {
    if name == prefix then Ok(0)
    else
      var full := prefix + sep;
      if |full| >= |name| || !StartsWith(name, full) then Err else ParseUint(name[|full|..], bits)
  }

  /** A field is used when it has bits and the rule has an argument for it; an unused field takes no bits. */
  function Used(width: nat, argument: string): nat {
    if width > 0 && argument != "" then width else 0
  }

  datatype Fields = Fields(instance: nat, schema: nat, table: nat)

  datatype Shifts = Shifts(instance: nat, schema: nat, table: nat)

  function ShiftsOf(w: Widths, rule: Rule): Shifts
    requires WidthsOk(w)
  {
    var s1 := 63 - Used(w.instance, rule.instance);
    var s2 := s1 - Used(w.schema, rule.schemaPrefix);
    Shifts(s1, s2, s2 - Used(w.table, rule.tablePrefix))
  }

  /** The numbers of the three fields, not shifted; 0 where a field is not used. */
  function FieldNumbers(schema: string, table: string, rule: Rule, w: Widths): Result<Fields> {
    var i := if Used(w.instance, rule.instance) > 0 then ParseUint(rule.instance, w.instance) else Ok(0);
    if i.Err? then Err
    else
      var s := if Used(w.schema, rule.schemaPrefix) > 0 then ComputeId(schema, rule.schemaPrefix, rule.sep, w.schema) else Ok(0);
      if s.Err? then Err
      else
        var t := if Used(w.table, rule.tablePrefix) > 0 then ComputeId(table, rule.tablePrefix, rule.sep, w.table) else Ok(0);
        if t.Err? then Err else Ok(Fields(i.value, s.value, t.value))
  }

  /** The three fields in place, computed with a running shift. */
  method ComputePartitionId(schema: string, table: string, rule: Rule, w: Widths)
    returns (instanceID: nat, schemaID: nat, tableID: nat, failed: bool)
    requires WidthsOk(w)
    ensures failed <==> FieldNumbers(schema, table, rule, w).Err?
    ensures !failed ==>
              var f, s := FieldNumbers(schema, table, rule, w).value, ShiftsOf(w, rule);
              && instanceID == Shl(f.instance, s.instance) && schemaID == Shl(f.schema, s.schema)
              && tableID == Shl(f.table, s.table)
  {
    instanceID, schemaID, tableID, failed := 0, 0, 0, false;
    ShlZero(ShiftsOf(w, rule).instance);
    ShlZero(ShiftsOf(w, rule).schema);
    ShlZero(ShiftsOf(w, rule).table);
    var shiftCnt: nat := 63;
    if w.instance > 0 && |rule.instance| > 0 {
      shiftCnt := shiftCnt - w.instance;
      var instance := ParseUint(rule.instance, w.instance);
      if instance.Err? {
        failed := true;
        return;
      }
      instanceID := Shl(instance.value, shiftCnt);
    }
    if w.schema > 0 && |rule.schemaPrefix| > 0 {
      shiftCnt := shiftCnt - w.schema;
      var id := ComputeId(schema, rule.schemaPrefix, rule.sep, w.schema);
      if id.Err? {
        failed := true;
        return;
      }
      schemaID := Shl(id.value, shiftCnt);
    }
    if w.table > 0 && |rule.tablePrefix| > 0 {
      shiftCnt := shiftCnt - w.table;
      var id := ComputeId(table, rule.tablePrefix, rule.sep, w.table);
      if id.Err? {
        failed := true;
        return;
      }
      tableID := Shl(id.value, shiftCnt);
    }
  }

  // ---------- Packing ----------

  /** Bitwise or, bit by bit. */
  function Or(a: nat, b: nat): nat {
    if a == 0 then b
    else if b == 0 then a
    else (if a % 2 == 1 || b % 2 == 1 then 1 else 0) + 2 * Or(a / 2, b / 2)
  }

  /** The bit at a place. */
  predicate Bit(n: nat, k: nat) {
    if k == 0 then n % 2 == 1 else Bit(n / 2, k - 1)
  }

  lemma {:induction false} NoBits(k: nat)
    ensures !Bit(0, k)
  {
    if k > 0 {
      NoBits(k - 1);
    }
  }

  /** A bit of the or is one if and only if it is one on either side. */
  lemma {:induction false} OrBits(a: nat, b: nat, k: nat)
    ensures Bit(Or(a, b), k) <==> Bit(a, k) || Bit(b, k)
    decreases k
  {
    NoBits(k);
    if a != 0 && b != 0 && k > 0 {
      OrBits(a / 2, b / 2, k - 1);
    }
  }

  /** The partition ID of a row whose original ID was read; out of range is an error. */
  function Packed(instanceID: nat, schemaID: nat, tableID: nat, origin: int, w: Widths): Result<nat> {
    if origin >= MaxOriginId(w) || origin < 0 then Err
    else Ok(Or(Or(Or(instanceID, schemaID), tableID), origin))
  }

  // ---------- Shifts ----------

  lemma {:induction false} ShlZero(k: nat)
    ensures Shl(0, k) == 0
  {
    if k > 0 {
      ShlZero(k - 1);
    }
  }

  lemma {:induction false} ShlAdd(m: nat, n: nat, k: nat)
    ensures Shl(m + n, k) == Shl(m, k) + Shl(n, k)
  {
    if k > 0 {
      ShlAdd(m, n, k - 1);
    }
  }

  lemma {:induction false} ShlTwice(n: nat, a: nat, b: nat)
    ensures Shl(n, a + b) == Shl(Shl(n, a), b)
  {
    if b > 0 {
      ShlTwice(n, a, b - 1);
    }
  }

  lemma {:induction false} Pow2Grows(a: nat, b: nat)
    requires a <= b
    ensures 0 < Pow2(a) <= Pow2(b)
  {
    if a < b {
      Pow2Grows(a, b - 1);
    } else if a > 0 {
      Pow2Grows(a - 1, a - 1);
    }
  }

  /** Bits above `k` and bits below `k` do not meet: or is addition. */
  lemma {:induction false} OrDisjoint(q: nat, b: nat, k: nat)
    requires b < Pow2(k)
    ensures Or(Shl(q, k), b) == Shl(q, k) + b
    decreases k
  {
    if k > 0 {
      OrDisjoint(q, b / 2, k - 1);
      OrHalves(Shl(q, k - 1), b);
    }
  }

  lemma {:induction false} OrHalves(a: nat, b: nat)
    ensures Or(2 * a, b) == 2 * Or(a, b / 2) + b % 2
  {
    if b == 1 && a > 0 {
      assert Or(a, 0) == a;
    }
  }

  /** A field of `width` bits shifted by `low`, with less than `2^low` below it, stays below `2^(width + low)`. */
  lemma {:induction false} FieldRange(n: nat, width: nat, low: nat, below: nat)
    requires n < Pow2(width) && below < Pow2(low)
    ensures Shl(n, low) + below < Pow2(width + low)
    decreases low
  {
    if low > 0 {
      FieldRange(n, width, low - 1, below / 2);
    }
  }

  /** Field and rest can be told apart again. */
  lemma {:induction false} FieldApart(n: nat, m: nat, low: nat, below: nat, below': nat)
    requires below < Pow2(low) && below' < Pow2(low) && Shl(n, low) + below == Shl(m, low) + below'
    ensures n == m && below == below'
    decreases low
  {
    if low > 0 {
      FieldApart(n, m, low - 1, below / 2, below' / 2);
    }
  }

  lemma {:induction false} FourMore(k: nat)
    ensures Pow2(k + 4) == 16 * Pow2(k)
  {
    assert Pow2(k + 4) == 2 * Pow2(k + 3) && Pow2(k + 3) == 2 * Pow2(k + 2);
    assert Pow2(k + 2) == 2 * Pow2(k + 1);
  }

  /** The limit the program starts with is the one of its default widths. */
  lemma {:induction false} DefaultLimit()
    ensures MaxOriginId(Widths(4, 7, 8)) == 17592186044416
  {
    FourMore(0);
    FourMore(4);
    FourMore(8);
    FourMore(12);
    FourMore(16);
    FourMore(20);
    FourMore(24);
    FourMore(28);
    FourMore(32);
    FourMore(36);
    FourMore(40);
  }

  /** Original IDs have all the bits that the widths leave. */
  lemma {:induction false} OriginLimit(w: Widths)
    requires 1 <= Sum(w) <= 63
    ensures Shl(MaxOriginId(w), Sum(w)) == Pow2(63)
  {
    ShlTwice(1, 63 - Sum(w), Sum(w));
  }

  /** Widths under which some original ID is accepted: those of 1 to 63 bits together. */
  lemma {:induction false} AcceptsIff(instanceID: nat, schemaID: nat, tableID: nat, w: Widths)
    ensures (exists origin: int :: Packed(instanceID, schemaID, tableID, origin, w).Ok?) <==> 1 <= Sum(w) <= 63
  {
    if 1 <= Sum(w) <= 63 {
      Pow2Grows(0, 63 - Sum(w));
      assert Packed(instanceID, schemaID, tableID, 0, w).Ok?;
    }
  }

  // ---------- Packed numbers ----------

  /** Numbers within the widths of their fields, and an original ID in range. */
  predicate InRange(f: Fields, origin: int, w: Widths, rule: Rule) {
    && f.instance < Pow2(Used(w.instance, rule.instance)) && f.schema < Pow2(Used(w.schema, rule.schemaPrefix))
    && f.table < Pow2(Used(w.table, rule.tablePrefix)) && 0 <= origin < MaxOriginId(w)
  }

  lemma {:induction false} FieldsInRange(schema: string, table: string, rule: Rule, w: Widths)
    requires WidthsOk(w) && Sum(w) > 0 && FieldNumbers(schema, table, rule, w).Ok?
    ensures InRange(FieldNumbers(schema, table, rule, w).value, 0, w, rule)
  {
    Pow2Grows(0, w.instance);
    Pow2Grows(0, w.schema);
    Pow2Grows(0, w.table);
    Pow2Grows(0, 63 - Sum(w));
  }

  /** The packed number as a sum over the fields. */
  function SumOf(f: Fields, origin: nat, s: Shifts): nat {
    Shl(f.instance, s.instance) + (Shl(f.schema, s.schema) + (Shl(f.table, s.table) + origin))
  }

  /** What lies below each field is smaller than the field's unit, and all of it is below the sign bit. */
  lemma {:induction false} BelowFields(f: Fields, origin: nat, w: Widths, rule: Rule)
    requires WidthsOk(w) && InRange(f, origin, w, rule)
    ensures var s := ShiftsOf(w, rule);
            && origin < Pow2(s.table)
            && Shl(f.table, s.table) + origin < Pow2(s.schema)
            && Shl(f.schema, s.schema) + (Shl(f.table, s.table) + origin) < Pow2(s.instance)
            && SumOf(f, origin, s) < Pow2(63)
  {
    var s := ShiftsOf(w, rule);
    Pow2Grows(63 - Sum(w), s.table);
    FieldRange(f.table, Used(w.table, rule.tablePrefix), s.table, origin);
    FieldRange(f.schema, Used(w.schema, rule.schemaPrefix), s.schema, Shl(f.table, s.table) + origin);
    FieldRange(f.instance, Used(w.instance, rule.instance), s.instance, Shl(f.schema, s.schema) + (Shl(f.table, s.table) + origin));
  }

  /** Instance and schema together are a multiple of the schema's unit; with the table, of the table's. */
  lemma {:induction false} UpperFields(f: Fields, w: Widths, rule: Rule) returns (upper: nat, top: nat)
    requires WidthsOk(w)
    ensures var s := ShiftsOf(w, rule);
            && Shl(f.instance, s.instance) + Shl(f.schema, s.schema) == Shl(upper, s.schema)
            && Shl(upper, s.schema) + Shl(f.table, s.table) == Shl(top, s.table)
  {
    var s := ShiftsOf(w, rule);
    var w2, w3 := Used(w.schema, rule.schemaPrefix), Used(w.table, rule.tablePrefix);
    ShlTwice(f.instance, w2, s.schema);
    ShlAdd(Shl(f.instance, w2), f.schema, s.schema);
    upper := Shl(f.instance, w2) + f.schema;
    ShlTwice(upper, w3, s.table);
    ShlAdd(Shl(upper, w3), f.table, s.table);
    top := Shl(upper, w3) + f.table;
  }

  /**
   * For all widths within 63 bits and any fields left out: the or of the four parts is their sum, and it is below the
   * sign bit.
   */
  lemma {:induction false} PackedIsSum(f: Fields, origin: nat, w: Widths, rule: Rule)
    requires WidthsOk(w) && InRange(f, origin, w, rule)
    ensures var s := ShiftsOf(w, rule);
            && Packed(Shl(f.instance, s.instance), Shl(f.schema, s.schema), Shl(f.table, s.table), origin, w) == Ok(SumOf(f, origin, s))
            && SumOf(f, origin, s) < Pow2(63)
  {
    var s := ShiftsOf(w, rule);
    BelowFields(f, origin, w, rule);
    var upper, top := UpperFields(f, w, rule);
    ThreeOrs(f.instance, s.instance, Shl(f.schema, s.schema), upper, s.schema, Shl(f.table, s.table), top, s.table, origin);
  }

  /** Three ors in a row, each over bits that do not meet. */
  lemma {:induction false} ThreeOrs(n: nat, i: nat, b: nat, upper: nat, j: nat, c: nat, top: nat, k: nat, d: nat)
    requires b < Pow2(i) && c < Pow2(j) && d < Pow2(k)
    requires Shl(n, i) + b == Shl(upper, j) && Shl(upper, j) + c == Shl(top, k)
    ensures Or(Or(Or(Shl(n, i), b), c), d) == Shl(n, i) + b + c + d
  {
    OrDisjoint(n, b, i);
    OrDisjoint(upper, c, j);
    OrDisjoint(top, d, k);
  }

  /** Different numbers or original IDs give different partition IDs. */
  lemma {:induction false} PackedInjective(f: Fields, origin: nat, f': Fields, origin': nat, w: Widths, rule: Rule)
    requires WidthsOk(w) && InRange(f, origin, w, rule) && InRange(f', origin', w, rule)
    requires SumOf(f, origin, ShiftsOf(w, rule)) == SumOf(f', origin', ShiftsOf(w, rule))
    ensures f == f' && origin == origin'
  {
    var s := ShiftsOf(w, rule);
    BelowFields(f, origin, w, rule);
    BelowFields(f', origin', w, rule);
    FieldApart(f.instance, f'.instance, s.instance, Shl(f.schema, s.schema) + (Shl(f.table, s.table) + origin),
               Shl(f'.schema, s.schema) + (Shl(f'.table, s.table) + origin'));
    FieldApart(f.schema, f'.schema, s.schema, Shl(f.table, s.table) + origin, Shl(f'.table, s.table) + origin');
    FieldApart(f.table, f'.table, s.table, origin, origin');
  }

  // ---------- From names to numbers ----------

  /** What the rule makes of a value in a table; an integer or the text of one. */
  function MappedId(schema: string, table: string, rule: Rule, w: Widths, origin: int): Result<nat>
    requires WidthsOk(w)
  {
    match FieldNumbers(schema, table, rule, w)
    case Err => Err
    case Ok(f) =>
      var s := ShiftsOf(w, rule);
      Packed(Shl(f.instance, s.instance), Shl(f.schema, s.schema), Shl(f.table, s.table), origin, w)
  }

  /**
   * Two rows mapped by rules with the same fields get the same ID exactly when instance, schema number, table number and
   * original ID are all equal.
   */
  lemma {:induction false} MappedInjective(schema: string, table: string, schema': string, table': string,
                                           rule: Rule, rule': Rule, w: Widths, origin: int, origin': int)
    requires WidthsOk(w) && MappedId(schema, table, rule, w, origin).Ok? && MappedId(schema', table', rule', w, origin').Ok?
    requires rule' == rule.(instance := rule'.instance) && (rule.instance == "" <==> rule'.instance == "")
    ensures MappedId(schema, table, rule, w, origin) == MappedId(schema', table', rule', w, origin') <==>
            FieldNumbers(schema, table, rule, w) == FieldNumbers(schema', table', rule', w) && origin == origin'
    ensures MappedId(schema, table, rule, w, origin).value < Pow2(63)
  {
    var f, f' := FieldNumbers(schema, table, rule, w).value, FieldNumbers(schema', table', rule', w).value;
    FieldsInRange(schema, table, rule, w);
    FieldsInRange(schema', table', rule', w);
    assert ShiftsOf(w, rule) == ShiftsOf(w, rule');
    PackedIsSum(f, origin, w, rule);
    PackedIsSum(f', origin', w, rule);
    if MappedId(schema, table, rule, w, origin) == MappedId(schema', table', rule', w, origin') {
      PackedInjective(f, origin, f', origin', w, rule);
    }
  }

  /** A field of a rule that is configured: it has bits, and an argument. */
  predicate Configured(width: nat, argument: string) { width > 0 && argument != "" }

  /** A text is read as a number of so many bits if and only if it is one or more digits, and the number is below the limit. */
  predicate Numeral(s: string, bits: nat) { s != "" && AllDigits(s) && Number(s) < Pow2(bits) }

  /** A name is accepted if and only if it is the prefix, or prefix and separator with a numeral behind them. */
  lemma {:induction false} NameAccepted(name: string, prefix: string, sep: string, bits: nat)
    ensures ComputeId(name, prefix, sep, bits).Ok? <==>
            name == prefix || exists digits: string :: Numeral(digits, bits) && name == prefix + sep + digits
    ensures ComputeId(prefix, prefix, sep, bits) == Ok(0)
    ensures forall digits: string :: Numeral(digits, bits) && prefix + sep + digits != prefix ==>
              ComputeId(prefix + sep + digits, prefix, sep, bits) == Ok(Number(digits))
  {
    var full := prefix + sep;
    if ComputeId(name, prefix, sep, bits).Ok? && name != prefix {
      var digits := name[|full|..];
      assert Numeral(digits, bits) && name == full + digits;
    }
    forall digits: string | Numeral(digits, bits) && full + digits != prefix
      ensures ComputeId(full + digits, prefix, sep, bits) == Ok(Number(digits))
    {
      assert (full + digits)[..|full|] == full && (full + digits)[|full|..] == digits;
    }
  }

  /** A row is mapped if and only if all configured fields can be read and the original ID is in range; other fields are 0. */
  lemma {:induction false} MappedFields(schema: string, table: string, rule: Rule, w: Widths, origin: int)
    requires WidthsOk(w)
    ensures var i, s, t := Configured(w.instance, rule.instance), Configured(w.schema, rule.schemaPrefix), Configured(w.table, rule.tablePrefix);
            && (MappedId(schema, table, rule, w, origin).Ok? <==>
                  && (i ==> Numeral(rule.instance, w.instance))
                  && (s ==> ComputeId(schema, rule.schemaPrefix, rule.sep, w.schema).Ok?)
                  && (t ==> ComputeId(table, rule.tablePrefix, rule.sep, w.table).Ok?)
                  && 0 <= origin < MaxOriginId(w))
            && (FieldNumbers(schema, table, rule, w).Ok? ==>
                  var f := FieldNumbers(schema, table, rule, w).value;
                  && f.instance == (if i then Number(rule.instance) else 0)
                  && f.schema == (if s then ComputeId(schema, rule.schemaPrefix, rule.sep, w.schema).value else 0)
                  && f.table == (if t then ComputeId(table, rule.tablePrefix, rule.sep, w.table).value else 0))
  {
  }

  /**
   * How the bits are laid out: the configured fields from the sign bit down, each in its own width and none in between for
   * a field that is not, and the original ID at the bottom.
   */
  lemma {:induction false} MappedLayout(schema: string, table: string, rule: Rule, w: Widths, origin: int, f: Fields, a: nat, b: nat, c: nat, k: nat)
    requires WidthsOk(w) && MappedId(schema, table, rule, w, origin).Ok? && FieldNumbers(schema, table, rule, w) == Ok(f)
    requires a == (if Configured(w.instance, rule.instance) then w.instance else 0)
    requires b == (if Configured(w.schema, rule.schemaPrefix) then w.schema else 0)
    requires c == (if Configured(w.table, rule.tablePrefix) then w.table else 0)
    requires a + b + c + k == 63
    ensures MappedId(schema, table, rule, w, origin) == Ok(Shl(Shl(Shl(f.instance, b) + f.schema, c) + f.table, k) + origin)
  {
    var s := Shifts(b + c + k, c + k, k);
    ShiftsAre(w, rule, s, a, b, c, k);
    MappedSum(schema, table, rule, w, origin, f, s);
    SumLayout(f, origin, s, b, c, k);
  }

  lemma {:induction false} ShiftsAre(w: Widths, rule: Rule, s: Shifts, a: nat, b: nat, c: nat, k: nat)
    requires WidthsOk(w) && a + b + c + k == 63 && s == Shifts(b + c + k, c + k, k)
    requires a == (if Configured(w.instance, rule.instance) then w.instance else 0)
    requires b == (if Configured(w.schema, rule.schemaPrefix) then w.schema else 0)
    requires c == (if Configured(w.table, rule.tablePrefix) then w.table else 0)
    ensures s == ShiftsOf(w, rule)
  {
  }

  lemma {:induction false} MappedSum(schema: string, table: string, rule: Rule, w: Widths, origin: int, f: Fields, s: Shifts)
    requires WidthsOk(w) && MappedId(schema, table, rule, w, origin).Ok? && FieldNumbers(schema, table, rule, w) == Ok(f) && s == ShiftsOf(w, rule)
    ensures MappedId(schema, table, rule, w, origin) == Ok(SumOf(f, origin, s))
  {
    FieldsInRange(schema, table, rule, w);
    PackedIsSum(f, origin, w, rule);
  }

  lemma {:induction false} SumLayout(f: Fields, origin: nat, s: Shifts, b: nat, c: nat, k: nat)
    requires s == Shifts(b + c + k, c + k, k)
    ensures SumOf(f, origin, s) == Shl(Shl(Shl(f.instance, b) + f.schema, c) + f.table, k) + origin
  {
    LaidOut(f.instance, f.schema, f.table, b, c, k);
  }

  lemma {:induction false} LaidOut(i: nat, s: nat, t: nat, b: nat, c: nat, k: nat)
    ensures Shl(i, b + c + k) + Shl(s, c + k) + Shl(t, k) == Shl(Shl(Shl(i, b) + s, c) + t, k)
  {
    ShlTwice(i, b, c + k);
    ShlAdd(Shl(i, b), s, c + k);
    ShlTwice(Shl(i, b) + s, c, k);
    ShlAdd(Shl(Shl(i, b) + s, c), t, k);
  }

  /** A shift by `k` bits multiplies by the `k`-th power of two, and original IDs have the bits that all widths leave. */
  lemma {:induction false} ShlMultiplies(n: nat, k: nat)
    ensures Shl(n, k) == n * Pow2(k) && Pow2(0) == 1 && Pow2(k + 1) == 2 * Pow2(k)
  {
    if k > 0 {
      ShlMultiplies(n, k - 1);
    }
  }

  /** A name made from a number gives the number back, if it fits. */
  lemma {:induction false} NumberedName(prefix: string, sep: string, n: nat, bits: nat)
    ensures ComputeId(prefix + sep + Itoa(n), prefix, sep, bits) == if n < Pow2(bits) then Ok(n) else Err
  {
    var full := prefix + sep;
    var name := full + Itoa(n);
    assert |name| > |prefix|;
    assert name[..|full|] == full && name[|full|..] == Itoa(n);
    NumberDigits(n);
  }

  // ---------- Names with the same number ----------

  function Trimmed(s: string): string {
    if s != "" && s[0] == '0' then Trimmed(s[1..]) else s
  }

  /** What the number of a name depends on: the text behind prefix and separator without leading zeros. */
  function Core(name: string, prefix: string, sep: string): string
    requires name != prefix ==> |prefix + sep| <= |name|
  {
    if name == prefix then "" else Trimmed(name[|prefix + sep|..])
  }

  lemma {:induction false} NumberOfZero(s: string)
    requires AllDigits(s) && s != "" && s[0] == '0'
    ensures Number(s) == Number(s[1..])
    decreases |s|
  {
    var last := s[|s| - 1];
    if |s| == 1 {
      assert s[..0] == "" && Number("") == 0;
    } else {
      assert s[..|s| - 1][1..] == s[1..][..|s[1..]| - 1];
      NumberOfZero(s[..|s| - 1]);
    }
  }

  lemma {:induction false} TrimmedNumber(s: string)
    requires AllDigits(s)
    ensures AllDigits(Trimmed(s)) && Number(Trimmed(s)) == Number(s) && (Trimmed(s) == "" || Trimmed(s)[0] != '0')
  {
    if s != "" && s[0] == '0' {
      NumberOfZero(s);
      TrimmedNumber(s[1..]);
    }
  }

  /** Without a leading zero the digits are those that the number is printed with. */
  lemma {:induction false} PrintedDigits(s: string)
    requires AllDigits(s) && s != "" && s[0] != '0'
    ensures Number(s) > 0 && Digits(Number(s)) == s
    decreases |s|
  {
    var rest, last := s[..|s| - 1], s[|s| - 1];
    if rest != "" {
      PrintedDigits(rest);
    }
    LastDigit(s, rest, last as int - '0' as int);
  }

  /** A last digit more. */
  lemma {:induction false} LastDigit(s: string, rest: string, d: nat)
    requires AllDigits(s) && s != "" && rest == s[..|s| - 1] && d == s[|s| - 1] as int - '0' as int
    requires rest != "" ==> Number(rest) > 0 && Digits(Number(rest)) == rest
    requires rest == "" ==> d > 0
    ensures Number(s) > 0 && Digits(Number(s)) == s
  {
    assert s == rest + [Digit(d)];
    if rest != "" {
      DigitBehind(Number(rest), d);
    }
  }

  lemma {:induction false} DigitBehind(n: nat, d: nat)
    requires n > 0 && d < 10
    ensures Digits(10 * n + d) == Digits(n) + [Digit(d)]
  {
    assert (10 * n + d) / 10 == n && (10 * n + d) % 10 == d;
  }

  /** Two texts of digits are one number if and only if they are equal without leading zeros. */
  lemma {:induction false} NumbersIff(a: string, b: string)
    requires AllDigits(a) && AllDigits(b)
    ensures Number(a) == Number(b) <==> Trimmed(a) == Trimmed(b)
  {
    TrimmedNumber(a);
    TrimmedNumber(b);
    if Trimmed(a) != "" {
      PrintedDigits(Trimmed(a));
    }
    if Trimmed(b) != "" {
      PrintedDigits(Trimmed(b));
    }
  }

  /** Two names that are accepted have one number if and only if nothing but leading zeros tells them apart. */
  lemma {:induction false} NamesIff(name: string, name': string, prefix: string, sep: string, bits: nat)
    requires ComputeId(name, prefix, sep, bits).Ok? && ComputeId(name', prefix, sep, bits).Ok?
    ensures ComputeId(name, prefix, sep, bits) == ComputeId(name', prefix, sep, bits) <==>
            Core(name, prefix, sep) == Core(name', prefix, sep)
  {
    NumbersIff(if name == prefix then "" else name[|prefix + sep|..], if name' == prefix then "" else name'[|prefix + sep|..]);
  }

  /** The parts of two rows that decide: of each field that is used, the text without leading zeros. */
  predicate SameCores(schema: string, table: string, schema': string, table': string, rule: Rule, rule': Rule, w: Widths)
    requires FieldNumbers(schema, table, rule, w).Ok? && FieldNumbers(schema', table', rule', w).Ok?
    requires rule' == rule.(instance := rule'.instance) && (rule.instance == "" <==> rule'.instance == "")
  {
    && (Used(w.instance, rule.instance) > 0 ==> Trimmed(rule.instance) == Trimmed(rule'.instance))
    && (Used(w.schema, rule.schemaPrefix) > 0 ==> Core(schema, rule.schemaPrefix, rule.sep) == Core(schema', rule.schemaPrefix, rule.sep))
    && (Used(w.table, rule.tablePrefix) > 0 ==> Core(table, rule.tablePrefix, rule.sep) == Core(table', rule.tablePrefix, rule.sep))
  }

  lemma {:induction false} FieldsIff(schema: string, table: string, schema': string, table': string, rule: Rule, rule': Rule, w: Widths)
    requires FieldNumbers(schema, table, rule, w).Ok? && FieldNumbers(schema', table', rule', w).Ok?
    requires rule' == rule.(instance := rule'.instance) && (rule.instance == "" <==> rule'.instance == "")
    ensures FieldNumbers(schema, table, rule, w) == FieldNumbers(schema', table', rule', w) <==>
            SameCores(schema, table, schema', table', rule, rule', w)
  {
    if Used(w.instance, rule.instance) > 0 {
      NumbersIff(rule.instance, rule'.instance);
    }
    if Used(w.schema, rule.schemaPrefix) > 0 {
      NamesIff(schema, schema', rule.schemaPrefix, rule.sep, w.schema);
    }
    if Used(w.table, rule.tablePrefix) > 0 {
      NamesIff(table, table', rule.tablePrefix, rule.sep, w.table);
    }
  }

  /** Two rows that are mapped get the same ID exactly when these texts and the original IDs are equal. */
  lemma {:induction false} MappedNamesIff(schema: string, table: string, schema': string, table': string,
                                          rule: Rule, rule': Rule, w: Widths, origin: int, origin': int)
    requires WidthsOk(w) && MappedId(schema, table, rule, w, origin).Ok? && MappedId(schema', table', rule', w, origin').Ok?
    requires rule' == rule.(instance := rule'.instance) && (rule.instance == "" <==> rule'.instance == "")
    ensures MappedId(schema, table, rule, w, origin) == MappedId(schema', table', rule', w, origin') <==>
            SameCores(schema, table, schema', table', rule, rule', w) && origin == origin'
  {
    MappedInjective(schema, table, schema', table', rule, rule', w, origin, origin');
    FieldsIff(schema, table, schema', table', rule, rule', w);
  }

  /** Such names: the bare prefix and 0, and 1 with and without a leading zero. */
  lemma {:induction false} NamesCollide(prefix: string, sep: string, bits: nat)
    requires bits > 0
    ensures ComputeId(prefix, prefix, sep, bits) == ComputeId(prefix + sep + "0", prefix, sep, bits) == Ok(0)
    ensures ComputeId(prefix + sep + "1", prefix, sep, bits) == ComputeId(prefix + sep + "01", prefix, sep, bits) == Ok(1)
  {
    Pow2Grows(1, bits);
    NumberedName(prefix, sep, 0, bits);
    NumberedName(prefix, sep, 1, bits);
    assert Itoa(0) == "0" && Itoa(1) == "1";
    var full := prefix + sep;
    var name := full + "01";
    assert name[..|full|] == full && name[|full|..] == "01";
    assert "01"[..1] == "0" && "0"[..0] == "";
    assert Number("0") == 0 && Number("01") == 1;
  }
}
