/**
 * Columns of a table as lattice values, and the map of columns (pkg/schemacmp/table.go, pkg/schemacmp/type.go).
 */
module Schema {
  import opened Wrappers
  import opened Lattices

  // ---------- Field types ----------

  /** The flags of a column that are looked at one by one; `others` holds the remaining bits. */
  datatype Flags = Flags(notNull: bool, primary: bool, unique: bool, multiple: bool, autoIncrement: bool, noDefault: bool, others: int)

  datatype FieldType = FieldType(tp: int, flen: int, decimal: int, flags: Flags, charset: string, collate: string, elems: seq<string>)

  const FLOAT := 4
  const DOUBLE := 5
  const TIMESTAMP := 7
  const DATE := 10
  const DURATION := 11
  const DATETIME := 12
  const YEAR := 13
  const JSON := 245
  const NEW_DECIMAL := 246
  const ENUM := 247
  const STRING := 254

  const AUTO_INCREMENT_FLAG := 512
  const NO_DEFAULT_VALUE_FLAG := 4096

  /** The key flags reversed and complemented: no key is the greatest, then multiple, unique and primary. */
  function EncodeAntiKeys(f: Flags): int {
    255 - (if f.primary then 64 else 0) - (if f.unique then 32 else 0) - (if f.multiple then 16 else 0)
  }

  const NOT_PART_OF_KEYS := 255

  function DefaultMask(f: Flags): int {
    (if f.autoIncrement then AUTO_INCREMENT_FLAG else 0) + (if f.noDefault then NO_DEFAULT_VALUE_FLAG else 0)
  }

  predicate HasAutoIncrement(mask: int) { (mask / AUTO_INCREMENT_FLAG) % 2 == 1 }

  predicate HasNoDefaultValue(mask: int) { (mask / NO_DEFAULT_VALUE_FLAG) % 2 == 1 }

  function EncodeDefault(f: Flags): Lattice {
    if f.autoIncrement || !f.noDefault then Maybe(Singleton(Number(DefaultMask(f)))) else MaybeNil
  }

  function Size(tp: int, n: int): Lattice {
    if tp == NEW_DECIMAL then Singleton(Number(n)) else Ordinal(IntScalar, n)
  }

  // The places of a type's properties in its tuple.
  const TP := 0
  const FLEN := 1
  const DEC := 2
  const FLAG_SINGLETON := 3
  const FLAG_NULL := 4
  const ANTI_KEYS := 5
  const DEF_VAL := 6
  const CHARSET := 7
  const COLLATE := 8
  const ELEMS := 9

  function EncodeFieldType(t: FieldType): Lattice {
    Tuple([FieldTp(t.tp), Size(t.tp, t.flen), Size(t.tp, t.decimal), Singleton(Number(t.flags.others)), Bool(!t.flags.notNull),
           Ordinal(ByteScalar, EncodeAntiKeys(t.flags)), EncodeDefault(t.flags),
           Singleton(Text(t.charset)), Singleton(Text(t.collate)), StringList(t.elems)])
  }

  predicate IsSize(v: Lattice) {
    (v.Singleton? && v.value.Number?) || (v.Ordinal? && v.scalar == IntScalar)
  }

  predicate IsMask(v: Lattice) {
    v.MaybeNil? || (v.Maybe? && v.inner.Singleton? && v.inner.value.Number?)
  }

  /** The shape of an encoded type. */
  predicate IsType(t: Lattice) {
    && t.Tuple? && |t.elems| == 10
    && t.elems[TP].FieldTp? && IsSize(t.elems[FLEN]) && IsSize(t.elems[DEC])
    && t.elems[FLAG_SINGLETON].Singleton? && t.elems[FLAG_SINGLETON].value.Number?
    && t.elems[FLAG_NULL].Bool? && t.elems[ANTI_KEYS].Ordinal? && t.elems[ANTI_KEYS].scalar == ByteScalar
    && IsMask(t.elems[DEF_VAL])
    && t.elems[CHARSET].Singleton? && t.elems[CHARSET].value.Text? && t.elems[COLLATE].Singleton? && t.elems[COLLATE].value.Text?
    && t.elems[ELEMS].StringList?
  }

  function SizeOf(v: Lattice): int
    requires IsSize(v)
  {
    if v.Singleton? then v.value.number else v.n
  }

  /** The value of the default flags, if it is not nil. */
  function MaskOf(t: Lattice): Option<int>
    requires IsType(t)
  {
    var v := t.elems[DEF_VAL];
    if v.MaybeNil? then None else Some(v.inner.value.number)
  }

  function DecodeFlags(t: Lattice): Flags
    requires IsType(t)
  {
    var keys := 255 - t.elems[ANTI_KEYS].n;
    var mask := MaskOf(t);
    Flags(!t.elems[FLAG_NULL].flag, (keys / 64) % 2 == 1, (keys / 32) % 2 == 1, (keys / 16) % 2 == 1,
          mask.Some? && HasAutoIncrement(mask.value), mask.None? || HasNoDefaultValue(mask.value),
          t.elems[FLAG_SINGLETON].value.number)
  }

  function DecodeFieldType(t: Lattice): FieldType
    requires IsType(t)
  {
    FieldType(t.elems[TP].tp, SizeOf(t.elems[FLEN]), SizeOf(t.elems[DEC]), DecodeFlags(t),
              t.elems[CHARSET].value.text, t.elems[COLLATE].value.text, t.elems[ELEMS].list)
  }

  /** Decoding an encoded type gives the type back. */
  lemma {:induction false} TypeRoundTrip(t: FieldType)
    ensures IsType(EncodeFieldType(t)) && DecodeFieldType(EncodeFieldType(t)) == t
  {
    KeysRoundTrip(t.flags);
    MaskRoundTrip(t.flags);
  }

  lemma {:induction false} KeysRoundTrip(f: Flags)
    ensures var keys := 255 - EncodeAntiKeys(f);
            (keys / 64) % 2 == (if f.primary then 1 else 0) && (keys / 32) % 2 == (if f.unique then 1 else 0)
            && (keys / 16) % 2 == (if f.multiple then 1 else 0)
  {
  }

  lemma {:induction false} MaskRoundTrip(f: Flags)
    ensures HasAutoIncrement(DefaultMask(f)) == f.autoIncrement && HasNoDefaultValue(DefaultMask(f)) == f.noDefault
  {
  }

  // ---------- Columns ----------

  const DEFAULT_VALUE := 0
  const GENERATED_EXPR := 1
  const GENERATED_STORED := 2
  const FIELD_TYPE := 3

  /** The shape of an encoded column. */
  predicate IsColumn(c: Lattice) {
    && c.Tuple? && |c.elems| == 4
    && (c.elems[DEFAULT_VALUE].MaybeNil? || (c.elems[DEFAULT_VALUE].Maybe? && c.elems[DEFAULT_VALUE].inner.Singleton?))
    && c.elems[GENERATED_EXPR].Singleton? && c.elems[GENERATED_STORED].Singleton?
    && IsType(c.elems[FIELD_TYPE])
  }

  function EncodeColumn(defaultValue: Option<Atom>, expr: string, stored: bool, t: FieldType): Lattice {
    Tuple([if defaultValue.None? then MaybeNil else Maybe(Singleton(defaultValue.value)), Singleton(Text(expr)), Singleton(Flag(stored)),
           EncodeFieldType(t)])
  }

  predicate HasDefault(c: Lattice)
    requires IsColumn(c)
  {
    !c.elems[FIELD_TYPE].elems[DEF_VAL].MaybeNil?
  }

  predicate IsNotNull(t: Lattice)
    requires IsType(t)
  {
    !t.elems[FLAG_NULL].flag
  }

  predicate AutoWithoutKey(t: Lattice)
    requires IsType(t)
  {
    MaskOf(t).Some? && HasAutoIncrement(MaskOf(t).value) && t.elems[ANTI_KEYS].n == NOT_PART_OF_KEYS
  }

  /** Whether a column that the other table lacks had no default so far. */
  predicate HadNoDefault(t: Lattice)
    requires IsType(t)
  {
    MaskOf(t).None? || HasNoDefaultValue(MaskOf(t).value)
  }

  /** The flags a missing column gets: no key, and a default. */
  function FlagsForMissing(t: Lattice): Lattice
    requires IsType(t)
  {
    var noKeys := t.elems[ANTI_KEYS := Ordinal(ByteScalar, NOT_PART_OF_KEYS)];
    if !HadNoDefault(t) then Tuple(noKeys)
    else
      var mask := if MaskOf(t).None? then 0 else MaskOf(t).value - NO_DEFAULT_VALUE_FLAG;
      Tuple(noKeys[DEF_VAL := Maybe(Singleton(Number(mask)))])
  }

  function Zeros(n: int): string { if n <= 0 then "" else "0" + Zeros(n - 1) }

  /** The value that a NOT NULL column takes where it was missing; an enumeration without values would fail. */
  function StandardDefault(t: Lattice): Option<string>
    requires IsType(t)
  {
    var dec := SizeOf(t.elems[DEC]);
    var tail := if dec > 0 then "." + Zeros(dec) else "";
    var tp := t.elems[TP].tp;
    if IsIntegerType(tp) || tp == FLOAT || tp == DOUBLE || tp == NEW_DECIMAL then Some("0")
    else if tp == TIMESTAMP || tp == DATETIME then Some("0000-00-00 00:00:00" + tail)
    else if tp == DATE then Some("0000-00-00")
    else if tp == DURATION then Some("00:00:00" + tail)
    else if tp == YEAR then Some("0000")
    else if tp == JSON then Some("null")
    else if tp == ENUM then (if t.elems[ELEMS].list == [] then None else Some(t.elems[ELEMS].list[0]))
    else if tp == STRING && t.elems[COLLATE].value.text == "binary" then
      var flen := SizeOf(t.elems[FLEN]);
      if flen < 0 then None else Some(seq(flen, i => '\0'))
    else Some("")
  }

  /** A column that one table lacks, as it is in the joined table; nothing where the program would panic. */
  function JoinWithNil(c: Lattice): Option<Lattice>
    requires IsColumn(c)
  {
    var t := c.elems[FIELD_TYPE];
    var typed := c.elems[FIELD_TYPE := FlagsForMissing(t)];
    if HadNoDefault(t) && IsNotNull(t) then
      match StandardDefault(t)
      case None => None
      case Some(value) => Some(Tuple(typed[DEFAULT_VALUE := Maybe(Singleton(Text(value)))]))
    else Some(Tuple(typed))
  }

  lemma {:induction false} JoinSize(a: Lattice, b: Lattice)
    requires IsSize(a) && IsSize(b) && Join(a, b).Some?
    ensures IsSize(Join(a, b).value)
  {
  }

  lemma {:induction false} JoinMask(a: Lattice, b: Lattice)
    requires IsMask(a) && IsMask(b) && Join(a, b).Some?
    ensures IsMask(Join(a, b).value)
  {
  }

  /** The join of two encoded types is one again. */
  lemma {:induction false} JoinKeepsType(a: Lattice, b: Lattice)
    requires IsType(a) && IsType(b) && Join(a, b).Some?
    ensures IsType(Join(a, b).value)
  {
    var j := Join(a, b).value;
    assert forall i :: 0 <= i < 10 ==> Join(a.elems[i], b.elems[i]) == Some(j.elems[i]);
    JoinSize(a.elems[FLEN], b.elems[FLEN]);
    JoinSize(a.elems[DEC], b.elems[DEC]);
    JoinMask(a.elems[DEF_VAL], b.elems[DEF_VAL]);
  }

  /** And so is the join of two encoded columns. */
  lemma {:induction false} JoinKeepsColumn(a: Lattice, b: Lattice)
    requires IsColumn(a) && IsColumn(b) && Join(a, b).Some?
    ensures IsColumn(Join(a, b).value)
  {
    var j := Join(a, b).value;
    assert forall i :: 0 <= i < 4 ==> Join(a.elems[i], b.elems[i]) == Some(j.elems[i]);
    JoinKeepsType(a.elems[FIELD_TYPE], b.elems[FIELD_TYPE]);
  }

  /** Two columns joined; an AUTO_INCREMENT column that is part of no key is an error. */
  function JoinColumn(a: Lattice, b: Lattice): (r: Option<Lattice>)
    requires IsColumn(a) && IsColumn(b)
    ensures r.Some? ==> IsColumn(r.value)
  {
    match Join(a, b)
    case None => None
    case Some(j) =>
      JoinKeepsColumn(a, b);
      if AutoWithoutKey(j.elems[FIELD_TYPE]) then None else Some(j)
  }

  // ---------- The map of columns ----------

  type Columns = map<string, Lattice>

  predicate ColumnsOk(m: Columns) {
    forall k :: k in m ==> IsColumn(m[k])
  }

  /** At one key: a table may lack a column of the other only if that column has a default. */
  predicate KeyBelow(a: Columns, b: Columns, k: string)
    requires ColumnsOk(a) && ColumnsOk(b)
  {
    if k in a then k in b && Below(a[k], b[k]) else k in b ==> HasDefault(b[k])
  }

  /** The reference order of column maps. */
  predicate ColumnsBelow(a: Columns, b: Columns)
    requires ColumnsOk(a) && ColumnsOk(b)
  {
    forall k :: k in a.Keys + b.Keys ==> KeyBelow(a, b, k)
  }

  /** The join at one key. */
  function JoinAtKey(a: Columns, b: Columns, k: string): Option<Lattice>
    requires ColumnsOk(a) && ColumnsOk(b) && k in a.Keys + b.Keys
  {
    if k in a && k in b then JoinColumn(a[k], b[k]) else if k in a then JoinWithNil(a[k]) else JoinWithNil(b[k])
  }

  /** The joined map; an error at any key is an error. */
  function JoinColumns(a: Columns, b: Columns): Option<Columns>
    requires ColumnsOk(a) && ColumnsOk(b)
  {
    if exists k :: k in a.Keys + b.Keys && JoinAtKey(a, b, k).None? then None
    else Some(map k | k in a.Keys + b.Keys :: JoinAtKey(a, b, k).value)
  }

  lemma {:induction false} MissingIsColumn(c: Lattice)
    requires IsColumn(c) && JoinWithNil(c).Some?
    ensures IsColumn(JoinWithNil(c).value) && HasDefault(JoinWithNil(c).value)
  {
  }

  lemma {:induction false} JoinedOk(a: Columns, b: Columns)
    requires ColumnsOk(a) && ColumnsOk(b) && JoinColumns(a, b).Some?
    ensures ColumnsOk(JoinColumns(a, b).value)
  {
    var j := JoinColumns(a, b).value;
    forall k | k in j
      ensures IsColumn(j[k])
    {
      if k !in b {
        MissingIsColumn(a[k]);
      } else if k !in a {
        MissingIsColumn(b[k]);
      }
    }
  }

  // ---------- The order is one ----------

  lemma {:induction false} DefaultGoesUp(a: Lattice, b: Lattice)
    requires IsColumn(a) && IsColumn(b) && Below(a, b) && HasDefault(a)
    ensures HasDefault(b)
  {
    assert Below(a.elems[FIELD_TYPE], b.elems[FIELD_TYPE]);
    assert Below(a.elems[FIELD_TYPE].elems[DEF_VAL], b.elems[FIELD_TYPE].elems[DEF_VAL]);
  }

  lemma {:induction false} ColumnsPartialOrder(a: Columns, b: Columns, c: Columns)
    requires ColumnsOk(a) && ColumnsOk(b) && ColumnsOk(c)
    ensures ColumnsBelow(a, a)
    ensures ColumnsBelow(a, b) && ColumnsBelow(b, a) ==> a == b
    ensures ColumnsBelow(a, b) && ColumnsBelow(b, c) ==> ColumnsBelow(a, c)
  {
    forall k | k in a.Keys + a.Keys
      ensures KeyBelow(a, a, k)
    {
      BelowReflexive(a[k]);
    }
    if ColumnsBelow(a, b) && ColumnsBelow(b, a) {
      ColumnsAntisymmetric(a, b);
    }
    if ColumnsBelow(a, b) && ColumnsBelow(b, c) {
      forall k | k in a.Keys + c.Keys
        ensures KeyBelow(a, c, k)
      {
        KeyTransitive(a, b, c, k);
      }
    }
  }

  lemma {:induction false} ColumnsAntisymmetric(a: Columns, b: Columns)
    requires ColumnsOk(a) && ColumnsOk(b) && ColumnsBelow(a, b) && ColumnsBelow(b, a)
    ensures a == b
  {
    forall k | k in a.Keys + b.Keys
      ensures k in a && k in b && a[k] == b[k]
    {
      KeyAntisymmetric(a, b, k);
    }
    assert a.Keys == b.Keys;
  }

  lemma {:induction false} KeyAntisymmetric(a: Columns, b: Columns, k: string)
    requires ColumnsOk(a) && ColumnsOk(b) && KeyBelow(a, b, k) && KeyBelow(b, a, k) && k in a.Keys + b.Keys
    ensures k in a && k in b && a[k] == b[k]
  {
    BelowAntisymmetric(a[k], b[k]);
  }

  lemma {:induction false} KeyTransitive(a: Columns, b: Columns, c: Columns, k: string)
    requires ColumnsOk(a) && ColumnsOk(b) && ColumnsOk(c) && ColumnsBelow(a, b) && ColumnsBelow(b, c)
    requires k in a.Keys + c.Keys
    ensures KeyBelow(a, c, k)
  {
    if k in a {
      assert KeyBelow(a, b, k);
      assert KeyBelow(b, c, k);
      BelowTransitive(a[k], b[k], c[k]);
    } else {
      assert KeyBelow(b, c, k);
      if k in b {
        assert KeyBelow(a, b, k);
        DefaultGoesUp(b[k], c[k]);
      }
    }
  }

  // ---------- The join is an upper bound ----------

  /**
   * A column that can be missing on one side: its default flags do not combine AUTO_INCREMENT with "no default", and a
   * NOT NULL column without default has no default value either, unless it is the standard one.
   */
  predicate CanBeMissing(c: Lattice)
    requires IsColumn(c)
  {
    var t := c.elems[FIELD_TYPE];
    && (MaskOf(t).Some? ==> !HasNoDefaultValue(MaskOf(t).value))
    && (MaskOf(t).None? && IsNotNull(t) ==>
          StandardDefault(t).Some? && Below(c.elems[DEFAULT_VALUE], Maybe(Singleton(Text(StandardDefault(t).value)))))
    && t.elems[ANTI_KEYS].n <= NOT_PART_OF_KEYS
  }

  lemma {:induction false} MissingParts(c: Lattice)
    requires IsColumn(c) && JoinWithNil(c).Some?
    ensures var t, j := c.elems[FIELD_TYPE], JoinWithNil(c).value;
            && IsColumn(j) && j.elems[FIELD_TYPE] == FlagsForMissing(t)
            && j.elems[GENERATED_EXPR] == c.elems[GENERATED_EXPR] && j.elems[GENERATED_STORED] == c.elems[GENERATED_STORED]
            && (HadNoDefault(t) && IsNotNull(t) ==>
                  StandardDefault(t).Some? && j.elems[DEFAULT_VALUE] == Maybe(Singleton(Text(StandardDefault(t).value))))
            && (!(HadNoDefault(t) && IsNotNull(t)) ==> j.elems[DEFAULT_VALUE] == c.elems[DEFAULT_VALUE])
  {
    TypeForMissing(c.elems[FIELD_TYPE]);
  }

  /** A column is below what it becomes in the joined table exactly when it can be missing. */
  lemma {:induction false} MissingIsUpper(c: Lattice)
    requires IsColumn(c) && JoinWithNil(c).Some?
    ensures Below(c, JoinWithNil(c).value) <==> CanBeMissing(c)
  {
    var t, j := c.elems[FIELD_TYPE], JoinWithNil(c).value;
    MissingParts(c);
    TypeForMissing(t);
    TupleFour(c, j);
    BelowReflexive(c.elems[DEFAULT_VALUE]);
    BelowReflexive(c.elems[GENERATED_EXPR]);
    BelowReflexive(c.elems[GENERATED_STORED]);
    if MaskOf(t).None? {
      assert HadNoDefault(t);
    }
  }

  lemma {:induction false} TupleFour(c: Lattice, j: Lattice)
    requires IsColumn(c) && IsColumn(j)
    ensures Below(c, j) <==>
            Below(c.elems[DEFAULT_VALUE], j.elems[DEFAULT_VALUE]) && Below(c.elems[GENERATED_EXPR], j.elems[GENERATED_EXPR])
            && Below(c.elems[GENERATED_STORED], j.elems[GENERATED_STORED]) && Below(c.elems[FIELD_TYPE], j.elems[FIELD_TYPE])
  {
  }

  lemma {:induction false} MaskForMissing(t: Lattice)
    requires IsType(t)
    ensures Below(t.elems[DEF_VAL], FlagsForMissing(t).elems[DEF_VAL]) <==> (MaskOf(t).Some? ==> !HasNoDefaultValue(MaskOf(t).value))
  {
    var v, w := t.elems[DEF_VAL], FlagsForMissing(t).elems[DEF_VAL];
    if v.Maybe? {
      assert Below(v, w) <==> Below(v.inner, w.inner);
      assert Below(v.inner, w.inner) <==> v.inner.value == w.inner.value;
    }
  }

  lemma {:induction false} TypeForMissing(t: Lattice)
    requires IsType(t)
    ensures IsType(FlagsForMissing(t))
    ensures Below(t, FlagsForMissing(t)) <==>
            (MaskOf(t).Some? ==> !HasNoDefaultValue(MaskOf(t).value)) && t.elems[ANTI_KEYS].n <= NOT_PART_OF_KEYS
  {
    var f := FlagsForMissing(t);
    forall i | 0 <= i < 10 && i != ANTI_KEYS && i != DEF_VAL
      ensures Below(t.elems[i], f.elems[i])
    {
      BelowReflexive(t.elems[i]);
    }
    MaskForMissing(t);
    assert Below(t, f) <==> Below(t.elems[ANTI_KEYS], f.elems[ANTI_KEYS]) && Below(t.elems[DEF_VAL], f.elems[DEF_VAL]);
  }

  /**
   * The joined map is above both maps exactly when every column that one side lacks can be missing: for columns as the
   * encoding makes them, with "no default" and a default value never together and no AUTO_INCREMENT among them.
   */
  lemma {:induction false} JoinColumnsUpper(a: Columns, b: Columns)
    requires ColumnsOk(a) && ColumnsOk(b) && JoinColumns(a, b).Some?
    ensures ColumnsOk(JoinColumns(a, b).value)
    ensures ColumnsBelow(a, JoinColumns(a, b).value) <==> forall k :: k in a && k !in b ==> CanBeMissing(a[k])
    ensures ColumnsBelow(b, JoinColumns(a, b).value) <==> forall k :: k in b && k !in a ==> CanBeMissing(b[k])
  {
    JoinedOk(a, b);
    var j := JoinColumns(a, b).value;
    forall k | k in a.Keys + b.Keys
      ensures KeyBelow(a, j, k) <==> (k in a && k !in b ==> CanBeMissing(a[k]))
      ensures KeyBelow(b, j, k) <==> (k in b && k !in a ==> CanBeMissing(b[k]))
    {
      JoinKeyUpper(a, b, j, k);
    }
  }

  lemma {:induction false} JoinKeyUpper(a: Columns, b: Columns, j: Columns, k: string)
    requires ColumnsOk(a) && ColumnsOk(b) && ColumnsOk(j) && JoinColumns(a, b) == Some(j) && k in a.Keys + b.Keys
    ensures KeyBelow(a, j, k) <==> (k in a && k !in b ==> CanBeMissing(a[k]))
    ensures KeyBelow(b, j, k) <==> (k in b && k !in a ==> CanBeMissing(b[k]))
  {
    assert Some(j[k]) == JoinAtKey(a, b, k);
    if k in a && k in b {
      JoinUpper(a[k], b[k]);
    } else if k in a {
      MissingIsColumn(a[k]);
      MissingIsUpper(a[k]);
    } else {
      MissingIsColumn(b[k]);
      MissingIsUpper(b[k]);
    }
  }

  /**
   * For a column of a table definition: it can be missing on one side unless it is AUTO_INCREMENT without default, or is
   * NOT NULL without default but carries a default value other than the standard one.
   */
  lemma {:induction false} EncodedCanBeMissing(defaultValue: Option<Atom>, expr: string, stored: bool, t: FieldType)
    ensures var c, f := EncodeColumn(defaultValue, expr, stored, t), t.flags;
            IsColumn(c) &&
            (CanBeMissing(c) <==>
              && !(f.autoIncrement && f.noDefault)
              && (f.noDefault && f.notNull ==>
                    var std := StandardDefault(EncodeFieldType(t));
                    std.Some? && (defaultValue.None? || defaultValue.value == Text(std.value))))
  {
    TypeRoundTrip(t);
    MaskRoundTrip(t.flags);
    KeysAtMost(t.flags);
    var c := EncodeColumn(defaultValue, expr, stored, t);
    if StandardDefault(EncodeFieldType(t)).Some? {
      DefaultBelow(defaultValue, Text(StandardDefault(EncodeFieldType(t)).value));
    }
  }

  lemma {:induction false} KeysAtMost(f: Flags)
    ensures EncodeAntiKeys(f) <= NOT_PART_OF_KEYS
  {
  }

  lemma {:induction false} DefaultBelow(defaultValue: Option<Atom>, std: Atom)
    ensures Below(if defaultValue.None? then MaybeNil else Maybe(Singleton(defaultValue.value)), Maybe(Singleton(std))) <==>
            defaultValue.None? || defaultValue.value == std
  {
  }

  lemma {:induction false} JoinColumnCommutes(a: Lattice, b: Lattice)
    requires IsColumn(a) && IsColumn(b)
    ensures JoinColumn(a, b) == JoinColumn(b, a)
  {
    JoinCommutes(a, b);
  }

  lemma {:induction false} JoinColumnsCommutes(a: Columns, b: Columns)
    requires ColumnsOk(a) && ColumnsOk(b)
    ensures JoinColumns(a, b) == JoinColumns(b, a)
  {
    forall k | k in a.Keys + b.Keys
      ensures JoinAtKey(a, b, k) == JoinAtKey(b, a, k)
    {
      if k in a && k in b {
        JoinColumnCommutes(a[k], b[k]);
      }
    }
    if JoinColumns(a, b).Some? {
      JoinedAll(b, a, JoinColumns(a, b).value);
    } else {
      var k :| k in a.Keys + b.Keys && JoinAtKey(a, b, k).None?;
      assert k in b.Keys + a.Keys && JoinAtKey(b, a, k).None?;
    }
  }

  /** A map that has the join at every key is the joined map. */
  lemma {:induction false} JoinedAll(a: Columns, b: Columns, m: Columns)
    requires ColumnsOk(a) && ColumnsOk(b) && m.Keys == a.Keys + b.Keys
    requires forall k :: k in m ==> JoinAtKey(a, b, k) == Some(m[k])
    ensures JoinColumns(a, b) == Some(m)
  {
    assert JoinColumns(a, b).value == m;
  }

  // ---------- The loops ----------

  /** Compares two column maps, walked in any order. */
  method CompareColumns(a: Columns, b: Columns) returns (r: Option<int>)
    requires ColumnsOk(a) && ColumnsOk(b)
    ensures r == OrderOf(ColumnsBelow(a, b), ColumnsBelow(b, a))
  {
    var result := 0;
    ghost var all := a.Keys + b.Keys;
    ghost var le, ge := true, true;
    var todo := a.Keys + b.Keys;
    while todo != {}
      invariant todo <= all
      invariant le == forall k :: k in all - todo ==> KeyBelow(a, b, k)
      invariant ge == forall k :: k in all - todo ==> KeyBelow(b, a, k)
      invariant OrderOf(le, ge) == Some(result)
      decreases todo
    {
      var k :| k in todo;
      var cmpRes := CompareAtKey(a, b, k);
      if cmpRes.None? {
        return None;
      }
      ghost var le', ge' := KeyBelow(a, b, k), KeyBelow(b, a, k);
      CombineOrders(le, ge, le', ge');
      var combined := CombineCompareResult(result, cmpRes.value);
      if combined.None? {
        return None;
      }
      result := combined.value;
      le, ge := le && le', ge && ge';
      todo := todo - {k};
    }
    return Some(result);
  }

  method CompareAtKey(a: Columns, b: Columns, k: string) returns (r: Option<int>)
    requires ColumnsOk(a) && ColumnsOk(b) && k in a.Keys + b.Keys
    ensures r == OrderOf(KeyBelow(a, b, k), KeyBelow(b, a, k))
  {
    if k in a && k in b {
      r := Compare(a[k], b[k]);
    } else if k in a {
      r := if HasDefault(a[k]) then Some(1) else None;
    } else {
      r := if HasDefault(b[k]) then Some(-1) else None;
    }
  }

  /** Joins two column maps, walked in any order: the result does not depend on it. */
  method JoinColumnMaps(a: Columns, b: Columns) returns (r: Option<Columns>)
    requires ColumnsOk(a) && ColumnsOk(b)
    ensures r == JoinColumns(a, b)
  {
    var result: Columns := map[];
    var todo := a.Keys + b.Keys;
    while todo != {}
      invariant todo <= a.Keys + b.Keys
      invariant result.Keys == a.Keys + b.Keys - todo
      invariant forall k :: k in result ==> JoinAtKey(a, b, k) == Some(result[k])
      decreases todo
    {
      var k :| k in todo;
      todo := todo - {k};
      var joinRes := JoinAtKey(a, b, k);
      if joinRes.None? {
        return None;
      }
      result := result[k := joinRes.value];
    }
    JoinedAll(a, b, result);
    return Some(result);
  }
}
