/**
 * What comparing and joining columns means for their definitions (pkg/schemacmp/type.go, pkg/schemacmp/table.go): which of
 * two field types is the more permissive one, when two have a common one and what it is, and what a missing column takes.
 */
module FieldTypes {
  import opened Wrappers
  import opened Lattices
  import opened Schema

  /** The widths of integers and of blobs, by their codes: 1, 2, 3, 4 and 8 bytes; tiny, plain, medium and long. */
  lemma {:induction false} WidthsGrow()
    ensures Widens(1, 2) && Widens(2, 9) && Widens(9, 3) && Widens(3, 8) && Widens(249, 252) && Widens(252, 250) && Widens(250, 251)
    ensures !Widens(2, 1) && !Widens(9, 2) && !Widens(3, 9) && !Widens(8, 3) && !Widens(252, 249) && !Widens(250, 252) && !Widens(251, 250)
    ensures forall a, b :: Widens(a, b) && a != b ==> (a in {1, 2, 3, 8, 9} && b in {1, 2, 3, 8, 9}) || (249 <= a <= 252 && 249 <= b <= 252)
  {
  }

  /** A key at least as strong: primary before unique, unique before multiple, and that before none. */
  predicate KeyAtLeast(f: Flags, g: Flags) {
    if f.primary != g.primary then f.primary
    else if f.unique != g.unique then f.unique
    else f.multiple || !g.multiple
  }

  /** Neither a default nor AUTO_INCREMENT. */
  predicate Bare(f: Flags) {
    f.noDefault && !f.autoIncrement
  }

  predicate SameDefault(f: Flags, g: Flags) {
    f.autoIncrement == g.autoIncrement && f.noDefault == g.noDefault
  }

  /** Every value of the one type is one of the other: at most as wide, at most as nullable, at least as strong a key. */
  predicate Permits(s: FieldType, t: FieldType) {
    && Widens(s.tp, t.tp)
    && (if t.tp == NEW_DECIMAL then s.flen == t.flen && s.decimal == t.decimal else s.flen <= t.flen && s.decimal <= t.decimal)
    && s.flags.others == t.flags.others && (t.flags.notNull ==> s.flags.notNull) && KeyAtLeast(s.flags, t.flags)
    && (Bare(s.flags) || SameDefault(s.flags, t.flags))
    && s.charset == t.charset && s.collate == t.collate && s.elems <= t.elems
  }

  lemma {:induction false} TupleParts(xs: seq<Lattice>, ys: seq<Lattice>)
    requires |xs| == |ys| == 10
    ensures Below(Tuple(xs), Tuple(ys)) <==>
            && Below(xs[0], ys[0]) && Below(xs[1], ys[1]) && Below(xs[2], ys[2]) && Below(xs[3], ys[3]) && Below(xs[4], ys[4])
            && Below(xs[5], ys[5]) && Below(xs[6], ys[6]) && Below(xs[7], ys[7]) && Below(xs[8], ys[8]) && Below(xs[9], ys[9])
  {
  }

  lemma {:induction false} SizesBelow(s: int, t: int, m: int, n: int)
    ensures Below(Size(s, m), Size(t, n)) <==> (s == NEW_DECIMAL <==> t == NEW_DECIMAL) && if t == NEW_DECIMAL then m == n else m <= n
  {
  }

  lemma {:induction false} KeysBelow(f: Flags, g: Flags)
    ensures EncodeAntiKeys(f) <= EncodeAntiKeys(g) <==> KeyAtLeast(f, g)
  {
  }

  lemma {:induction false} MasksSame(f: Flags, g: Flags)
    ensures DefaultMask(f) == DefaultMask(g) <==> SameDefault(f, g)
  {
    MaskRoundTrip(f);
    MaskRoundTrip(g);
  }

  lemma {:induction false} DefaultsBelow(f: Flags, g: Flags)
    ensures Below(EncodeDefault(f), EncodeDefault(g)) <==> Bare(f) || SameDefault(f, g)
  {
    MasksSame(f, g);
    if !Bare(f) && !Bare(g) {
      assert Below(EncodeDefault(f), EncodeDefault(g)) <==> Below(EncodeDefault(f).inner, EncodeDefault(g).inner);
    }
  }

  /** Comparing two encoded types tells which permits more. */
  lemma {:induction false} TypesBelow(s: FieldType, t: FieldType)
    ensures Below(EncodeFieldType(s), EncodeFieldType(t)) <==> Permits(s, t)
  {
    var a, b := EncodeFieldType(s).elems, EncodeFieldType(t).elems;
    SizesBelow(s.tp, t.tp, s.flen, t.flen);
    SizesBelow(s.tp, t.tp, s.decimal, t.decimal);
    DefaultsBelow(s.flags, t.flags);
    PartsBelow(s, t, a, b);
    PartsPermit(s, t, a, b);
  }

  lemma {:induction false} PartsPermit(s: FieldType, t: FieldType, a: seq<Lattice>, b: seq<Lattice>)
    requires |a| == |b| == 10
    requires Below(a[0], b[0]) <==> Widens(s.tp, t.tp)
    requires Below(a[1], b[1]) <==> (s.tp == NEW_DECIMAL <==> t.tp == NEW_DECIMAL) && if t.tp == NEW_DECIMAL then s.flen == t.flen else s.flen <= t.flen
    requires Below(a[2], b[2]) <==>
             (s.tp == NEW_DECIMAL <==> t.tp == NEW_DECIMAL) && if t.tp == NEW_DECIMAL then s.decimal == t.decimal else s.decimal <= t.decimal
    requires Below(a[3], b[3]) <==> s.flags.others == t.flags.others
    requires Below(a[4], b[4]) <==> (t.flags.notNull ==> s.flags.notNull)
    requires Below(a[5], b[5]) <==> KeyAtLeast(s.flags, t.flags)
    requires Below(a[6], b[6]) <==> Bare(s.flags) || SameDefault(s.flags, t.flags)
    requires Below(a[7], b[7]) <==> s.charset == t.charset
    requires Below(a[8], b[8]) <==> s.collate == t.collate
    requires Below(a[9], b[9]) <==> s.elems <= t.elems
    ensures Below(Tuple(a), Tuple(b)) <==> Permits(s, t)
  {
    TupleParts(a, b);
  }

  lemma {:induction false} PartsBelow(s: FieldType, t: FieldType, a: seq<Lattice>, b: seq<Lattice>)
    requires a == EncodeFieldType(s).elems && b == EncodeFieldType(t).elems
    ensures Below(a[0], b[0]) <==> Widens(s.tp, t.tp)
    ensures Below(a[3], b[3]) <==> s.flags.others == t.flags.others
    ensures Below(a[4], b[4]) <==> (t.flags.notNull ==> s.flags.notNull)
    ensures Below(a[5], b[5]) <==> KeyAtLeast(s.flags, t.flags)
    ensures Below(a[7], b[7]) <==> s.charset == t.charset
    ensures Below(a[8], b[8]) <==> s.collate == t.collate
    ensures Below(a[9], b[9]) <==> s.elems <= t.elems
  {
    KeysBelow(s.flags, t.flags);
  }

  // ---------- Joining ----------

  function Max(m: int, n: int): int { if m < n then n else m }

  predicate SameFamily(s: int, t: int) {
    s == t || (IsIntegerType(s) && IsIntegerType(t)) || (IsTypeBlob(s) && IsTypeBlob(t))
  }

  /** There is a type that permits both. */
  predicate Joinable(s: FieldType, t: FieldType) {
    && SameFamily(s.tp, t.tp)
    && (t.tp == NEW_DECIMAL ==> s.flen == t.flen && s.decimal == t.decimal)
    && s.flags.others == t.flags.others && (Bare(s.flags) || Bare(t.flags) || SameDefault(s.flags, t.flags))
    && s.charset == t.charset && s.collate == t.collate && (s.elems <= t.elems || t.elems <= s.elems)
  }

  /** The wider of both, NULL allowed if one of them allows it, with the weaker key and the default that one of them has. */
  function Joined(s: FieldType, t: FieldType): FieldType {
    var f, g := s.flags, t.flags;
    var key, default := if KeyAtLeast(f, g) then g else f, if Bare(f) then g else f;
    FieldType(if Widens(s.tp, t.tp) then t.tp else s.tp, Max(s.flen, t.flen), Max(s.decimal, t.decimal),
              Flags(f.notNull && g.notNull, key.primary, key.unique, key.multiple, default.autoIncrement, default.noDefault, f.others),
              s.charset, s.collate, if s.elems <= t.elems then t.elems else s.elems)
  }

  lemma {:induction false} PermitsJoined(s: FieldType, t: FieldType)
    requires Joinable(s, t)
    ensures Permits(s, Joined(s, t)) && Permits(t, Joined(s, t))
  {
  }

  /** Nothing else permits both but what permits that one. */
  lemma {:induction false} JoinedLeast(s: FieldType, t: FieldType, u: FieldType)
    requires Permits(s, u) && Permits(t, u)
    ensures Joinable(s, t) && Permits(Joined(s, t), u)
  {
    ElemsJoin(s.elems, t.elems, u.elems);
  }

  lemma {:induction false} ElemsJoin(a: seq<string>, b: seq<string>, c: seq<string>)
    requires a <= c && b <= c
    ensures a <= b || b <= a
  {
    assert a == c[..|a|] && b == c[..|b|];
    if |a| <= |b| {
      assert a == b[..|a|];
    } else {
      assert b == a[..|b|];
    }
  }

  lemma {:induction false} TupleJoin(xs: seq<Lattice>, ys: seq<Lattice>, js: seq<Lattice>)
    requires |xs| == |ys| == |js| == 10
    ensures Join(Tuple(xs), Tuple(ys)).Some? <==> forall i :: 0 <= i < 10 ==> Join(xs[i], ys[i]).Some?
    ensures Join(Tuple(xs), Tuple(ys)) == Some(Tuple(js)) <==> forall i :: 0 <= i < 10 ==> Join(xs[i], ys[i]) == Some(js[i])
  {
    if Join(Tuple(xs), Tuple(ys)) == Some(Tuple(js)) {
      assert forall i :: 0 <= i < 10 ==> Join(xs[i], ys[i]) == Some(js[i]);
    }
    if forall i :: 0 <= i < 10 ==> Join(xs[i], ys[i]) == Some(js[i]) {
      assert Join(Tuple(xs), Tuple(ys)).value.elems == js;
    }
  }

  lemma {:induction false} CodesJoin(s: int, t: int)
    ensures Join(FieldTp(s), FieldTp(t)) == if SameFamily(s, t) then Some(FieldTp(if Widens(s, t) then t else s)) else None
  {
    TypeOrders(s, t);
  }

  lemma {:induction false} SizesJoin(s: int, t: int, m: int, n: int)
    requires SameFamily(s, t)
    ensures Join(Size(s, m), Size(t, n)) == if t == NEW_DECIMAL && m != n then None else Some(Size(t, Max(m, n)))
  {
  }

  lemma {:induction false} FlagsJoin(s: FieldType, t: FieldType)
    requires Bare(s.flags) || Bare(t.flags) || SameDefault(s.flags, t.flags)
    ensures var f, g, h := s.flags, t.flags, Joined(s, t).flags;
            && Join(Bool(!f.notNull), Bool(!g.notNull)) == Some(Bool(!h.notNull))
            && Join(Ordinal(ByteScalar, EncodeAntiKeys(f)), Ordinal(ByteScalar, EncodeAntiKeys(g))) == Some(Ordinal(ByteScalar, EncodeAntiKeys(h)))
            && Join(EncodeDefault(f), EncodeDefault(g)) == Some(EncodeDefault(h))
  {
    KeysBelow(s.flags, t.flags);
    KeysBelow(t.flags, s.flags);
    MasksSame(s.flags, t.flags);
  }

  lemma {:induction false} DefaultsJoin(f: Flags, g: Flags)
    ensures Join(EncodeDefault(f), EncodeDefault(g)).Some? <==> Bare(f) || Bare(g) || SameDefault(f, g)
  {
    MasksSame(f, g);
  }

  /** Two encoded types have a join if and only if there is a type that permits both, and it is the encoding of that one. */
  lemma {:induction false} TypesJoin(s: FieldType, t: FieldType)
    ensures Join(EncodeFieldType(s), EncodeFieldType(t)) == if Joinable(s, t) then Some(EncodeFieldType(Joined(s, t))) else None
  {
    var a, b, j := EncodeFieldType(s).elems, EncodeFieldType(t).elems, EncodeFieldType(Joined(s, t)).elems;
    CodesJoin(s.tp, t.tp);
    DefaultsJoin(s.flags, t.flags);
    TupleJoin(a, b, j);
    if SameFamily(s.tp, t.tp) {
      SizesJoin(s.tp, t.tp, s.flen, t.flen);
      SizesJoin(s.tp, t.tp, s.decimal, t.decimal);
    }
    if Joinable(s, t) {
      FlagsJoin(s, t);
      JoinedParts(s, t, a, b, j);
    } else {
      NotJoined(s, t, a, b);
    }
  }

  lemma {:induction false} JoinedParts(s: FieldType, t: FieldType, a: seq<Lattice>, b: seq<Lattice>, j: seq<Lattice>)
    requires Joinable(s, t)
    requires a == EncodeFieldType(s).elems && b == EncodeFieldType(t).elems && j == EncodeFieldType(Joined(s, t)).elems
    ensures forall i :: 0 <= i < 10 ==> Join(a[i], b[i]) == Some(j[i])
  {
    JoinedSizes(s, t, a, b, j);
    FlagsJoin(s, t);
    JoinedTexts(s, t, a, b, j);
  }

  lemma {:induction false} JoinedSizes(s: FieldType, t: FieldType, a: seq<Lattice>, b: seq<Lattice>, j: seq<Lattice>)
    requires Joinable(s, t)
    requires a == EncodeFieldType(s).elems && b == EncodeFieldType(t).elems && j == EncodeFieldType(Joined(s, t)).elems
    ensures Join(a[0], b[0]) == Some(j[0]) && Join(a[1], b[1]) == Some(j[1]) && Join(a[2], b[2]) == Some(j[2])
  {
    CodesJoin(s.tp, t.tp);
    SizesJoin(s.tp, t.tp, s.flen, t.flen);
    SizesJoin(s.tp, t.tp, s.decimal, t.decimal);
    assert Joined(s, t).tp == NEW_DECIMAL <==> t.tp == NEW_DECIMAL;
  }

  lemma {:induction false} JoinedTexts(s: FieldType, t: FieldType, a: seq<Lattice>, b: seq<Lattice>, j: seq<Lattice>)
    requires Joinable(s, t)
    requires a == EncodeFieldType(s).elems && b == EncodeFieldType(t).elems && j == EncodeFieldType(Joined(s, t)).elems
    ensures Join(a[3], b[3]) == Some(j[3]) && Join(a[7], b[7]) == Some(j[7]) && Join(a[8], b[8]) == Some(j[8]) && Join(a[9], b[9]) == Some(j[9])
  {
    if s.elems <= t.elems && t.elems <= s.elems {
      assert s.elems == t.elems;
    }
  }

  lemma {:induction false} NotJoined(s: FieldType, t: FieldType, a: seq<Lattice>, b: seq<Lattice>)
    requires !Joinable(s, t) && a == EncodeFieldType(s).elems && b == EncodeFieldType(t).elems
    ensures exists i :: 0 <= i < 10 && Join(a[i], b[i]).None?
  {
    CodesJoin(s.tp, t.tp);
    DefaultsJoin(s.flags, t.flags);
    if SameFamily(s.tp, t.tp) {
      SizesJoin(s.tp, t.tp, s.flen, t.flen);
      SizesJoin(s.tp, t.tp, s.decimal, t.decimal);
    }
    assert Join(a[TP], b[TP]).None? || Join(a[FLEN], b[FLEN]).None? || Join(a[DEC], b[DEC]).None? || Join(a[FLAG_SINGLETON], b[FLAG_SINGLETON]).None?
           || Join(a[DEF_VAL], b[DEF_VAL]).None? || Join(a[CHARSET], b[CHARSET]).None? || Join(a[COLLATE], b[COLLATE]).None? || Join(a[ELEMS], b[ELEMS]).None?;
  }

  // ---------- Missing columns ----------

  /** A table that lacks a column is below one that has it, at that column, if and only if the column has a default or AUTO_INCREMENT. */
  lemma {:induction false} LackingBelow(b: Columns, k: string, value: Option<Atom>, expr: string, stored: bool, t: FieldType)
    requires ColumnsOk(b) && k in b && b[k] == EncodeColumn(value, expr, stored, t)
    ensures Schema.KeyBelow(map[], b, k) <==> !t.flags.noDefault || t.flags.autoIncrement
    ensures !Schema.KeyBelow(b, map[], k)
  {
  }

  /** The definition of a column as it is where it was missing: in no key, and with a default. */
  function Supplied(t: FieldType): FieldType {
    t.(flags := t.flags.(primary := false, unique := false, multiple := false, noDefault := false))
  }

  lemma {:induction false} SuppliedFlags(t: FieldType)
    ensures FlagsForMissing(EncodeFieldType(t)) == EncodeFieldType(Supplied(t))
    ensures HadNoDefault(EncodeFieldType(t)) <==> t.flags.noDefault
  {
    MaskRoundTrip(t.flags);
    var e, u := EncodeFieldType(t), EncodeFieldType(Supplied(t));
    assert FlagsForMissing(e).elems == u.elems;
  }

  /** A NOT NULL column without a default takes the standard value there; every other column keeps its default value. */
  lemma {:induction false} MissingColumn(value: Option<Atom>, expr: string, stored: bool, t: FieldType)
    ensures var c, std := EncodeColumn(value, expr, stored, t), StandardDefault(EncodeFieldType(t));
            IsColumn(c) &&
            JoinWithNil(c) ==
              if t.flags.noDefault && t.flags.notNull then
                (if std.None? then None else Some(EncodeColumn(Some(Text(std.value)), expr, stored, Supplied(t))))
              else Some(EncodeColumn(value, expr, stored, Supplied(t)))
  {
    TypeRoundTrip(t);
    SuppliedFlags(t);
    var c, supplied := EncodeColumn(value, expr, stored, t), EncodeFieldType(Supplied(t));
    var typed := c.elems[FIELD_TYPE := supplied];
    assert typed == EncodeColumn(value, expr, stored, Supplied(t)).elems;
    if StandardDefault(EncodeFieldType(t)).Some? {
      var std := StandardDefault(EncodeFieldType(t)).value;
      assert typed[DEFAULT_VALUE := Maybe(Singleton(Text(std)))] == EncodeColumn(Some(Text(std)), expr, stored, Supplied(t)).elems;
    }
  }

  /** A point and as many zeros as the type has decimals, if it has any. */
  predicate IsFraction(s: string, decimals: int) {
    if decimals <= 0 then s == ""
    else |s| == decimals + 1 && s[0] == '.' && forall i :: 0 < i < |s| ==> s[i] == '0'
  }

  lemma {:induction false} ZerosAre(n: int)
    ensures |Zeros(n)| == Max(0, n) && forall i :: 0 <= i < |Zeros(n)| ==> Zeros(n)[i] == '0'
  {
    if n > 0 {
      ZerosAre(n - 1);
    }
  }

  /** The standard values, by the codes of the types. */
  lemma {:induction false} StandardValues(t: FieldType)
    ensures var std := StandardDefault(EncodeFieldType(t));
            && (t.tp in {1, 2, 3, 4, 5, 8, 9, 246} ==> std == Some("0"))
            && (t.tp in {7, 12} ==> std.Some? && |std.value| >= 19 && std.value[..19] == "0000-00-00 00:00:00" && IsFraction(std.value[19..], t.decimal))
            && (t.tp == 10 ==> std == Some("0000-00-00")) && (t.tp == 13 ==> std == Some("0000")) && (t.tp == 245 ==> std == Some("null"))
            && (t.tp == 11 ==> std.Some? && |std.value| >= 8 && std.value[..8] == "00:00:00" && IsFraction(std.value[8..], t.decimal))
            && (t.tp == 247 ==> std == if t.elems == [] then None else Some(t.elems[0]))
            && (t.tp == 254 && t.collate == "binary" ==>
                  (std.None? <==> t.flen < 0) && (std.Some? ==> |std.value| == t.flen && forall i :: 0 <= i < |std.value| ==> std.value[i] == '\0'))
            && (t.tp == 254 && t.collate != "binary" ==> std == Some(""))
            && (t.tp !in {1, 2, 3, 4, 5, 7, 8, 9, 10, 11, 12, 13, 245, 246, 247, 254} ==> std == Some(""))
  {
    TypeRoundTrip(t);
    ZerosAre(t.decimal);
    var tail := if t.decimal > 0 then "." + Zeros(t.decimal) else "";
    assert ("0000-00-00 00:00:00" + tail)[19..] == tail && ("00:00:00" + tail)[8..] == tail;
  }

  // ---------- Indexes ----------

  datatype Index = Index(columns: seq<IndexColumn>, unique: bool, primary: bool, kind: int)

  function EncodeIndex(x: Index): Lattice {
    Tuple([EqualitySingleton(x.columns), Bool(!x.unique), Bool(!x.primary), Singleton(Number(x.kind))])
  }

  function EncodeIndexes(m: map<string, Index>): Lattice {
    IndexMap(map k | k in m :: EncodeIndex(m[k]))
  }

  predicate SameIndex(x: Index, y: Index) { x.columns == y.columns && x.kind == y.kind }

  lemma {:induction false} FourParts(xs: seq<Lattice>, ys: seq<Lattice>)
    requires |xs| == |ys| == 4
    ensures Below(Tuple(xs), Tuple(ys)) <==> Below(xs[0], ys[0]) && Below(xs[1], ys[1]) && Below(xs[2], ys[2]) && Below(xs[3], ys[3])
  {
  }

  lemma {:induction false} IndexBelow(x: Index, y: Index)
    ensures Below(EncodeIndex(x), EncodeIndex(y)) <==> SameIndex(x, y) && (y.unique ==> x.unique) && (y.primary ==> x.primary)
  {
    FourParts(EncodeIndex(x).elems, EncodeIndex(y).elems);
  }

  /** A table with more indexes, or with stricter ones on the same columns, is below. */
  lemma {:induction false} IndexesBelow(m: map<string, Index>, n: map<string, Index>)
    ensures Below(EncodeIndexes(m), EncodeIndexes(n)) <==>
            forall k :: k in n ==> k in m && SameIndex(m[k], n[k]) && (n[k].unique ==> m[k].unique) && (n[k].primary ==> m[k].primary)
  {
    var a, b := EncodeIndexes(m).entries, EncodeIndexes(n).entries;
    forall k | k in a && k in b
      ensures Below(a[k], b[k]) <==> SameIndex(m[k], n[k]) && (n[k].unique ==> m[k].unique) && (n[k].primary ==> m[k].primary)
    {
      IndexBelow(m[k], n[k]);
    }
    MapBelow(a, b);
  }

  lemma {:induction false} MapBelow(a: map<string, Lattice>, b: map<string, Lattice>)
    ensures Below(IndexMap(a), IndexMap(b)) <==> forall k :: k in b ==> k in a && Below(a[k], b[k])
  {
  }

  /** The indexes that both tables have on the same columns, unique where both are. */
  function CommonIndexes(m: map<string, Index>, n: map<string, Index>): map<string, Index> {
    map k | k in m && k in n && SameIndex(m[k], n[k]) ::
      Index(m[k].columns, m[k].unique && n[k].unique, m[k].primary && n[k].primary, m[k].kind)
  }

  lemma {:induction false} IndexJoin(x: Index, y: Index)
    ensures Join(EncodeIndex(x), EncodeIndex(y)) ==
            if SameIndex(x, y) then Some(EncodeIndex(Index(x.columns, x.unique && y.unique, x.primary && y.primary, x.kind))) else None
  {
    var a, b := EncodeIndex(x).elems, EncodeIndex(y).elems;
    if SameIndex(x, y) {
      var c := EncodeIndex(Index(x.columns, x.unique && y.unique, x.primary && y.primary, x.kind)).elems;
      assert forall i :: 0 <= i < 4 ==> Join(a[i], b[i]) == Some(c[i]);
      assert Join(Tuple(a), Tuple(b)).value.elems == c;
    } else {
      assert Join(a[0], b[0]).None? || Join(a[3], b[3]).None?;
    }
  }

  /** A map that has the join at every key where there is one is the joined map. */
  lemma {:induction false} MapJoin(a: map<string, Lattice>, b: map<string, Lattice>, c: map<string, Lattice>)
    requires forall k :: k in c <==> k in a && k in b && Join(a[k], b[k]).Some?
    requires forall k :: k in c ==> Join(a[k], b[k]) == Some(c[k])
    ensures Join(IndexMap(a), IndexMap(b)) == Some(IndexMap(c))
  {
    assert Join(IndexMap(a), IndexMap(b)).value.entries == c;
  }

  /** The joined table has those. */
  lemma {:induction false} IndexesJoin(m: map<string, Index>, n: map<string, Index>)
    ensures Join(EncodeIndexes(m), EncodeIndexes(n)) == Some(EncodeIndexes(CommonIndexes(m, n)))
  {
    var a, b, c := EncodeIndexes(m).entries, EncodeIndexes(n).entries, EncodeIndexes(CommonIndexes(m, n)).entries;
    forall k | k in a && k in b
      ensures Join(a[k], b[k]) == if k in c then Some(c[k]) else None
    {
      IndexJoin(m[k], n[k]);
    }
    MapJoin(a, b, c);
  }

  // ---------- Columns ----------

  lemma {:induction false} ColumnParts(xs: seq<Lattice>, ys: seq<Lattice>, js: seq<Lattice>)
    requires |xs| == |ys| == |js| == 4
    ensures Join(Tuple(xs), Tuple(ys)).Some? <==> forall i :: 0 <= i < 4 ==> Join(xs[i], ys[i]).Some?
    ensures (forall i :: 0 <= i < 4 ==> Join(xs[i], ys[i]) == Some(js[i])) ==> Join(Tuple(xs), Tuple(ys)) == Some(Tuple(js))
  {
    if forall i :: 0 <= i < 4 ==> Join(xs[i], ys[i]) == Some(js[i]) {
      assert Join(Tuple(xs), Tuple(ys)).value.elems == js;
    }
  }

  /** Columns with the same generation and with default values that do not differ, of types that have a common one. */
  predicate ColumnsJoinable(value: Option<Atom>, expr: string, stored: bool, s: FieldType, value': Option<Atom>, expr': string, stored': bool, t: FieldType) {
    expr == expr' && stored == stored' && (value.None? || value'.None? || value == value') && Joinable(s, t)
  }

  /** AUTO_INCREMENT, but in no key. */
  predicate Keyless(t: FieldType) {
    t.flags.autoIncrement && !t.flags.primary && !t.flags.unique && !t.flags.multiple && !Bare(t.flags)
  }

  lemma {:induction false} KeylessIs(t: FieldType)
    ensures IsType(EncodeFieldType(t)) && (AutoWithoutKey(EncodeFieldType(t)) <==> Keyless(t))
  {
    TypeRoundTrip(t);
    MaskRoundTrip(t.flags);
  }

  /** Two columns have a join if and only if they are joinable and the common type is not AUTO_INCREMENT in no key. */
  lemma {:induction false} ColumnsJoin(value: Option<Atom>, expr: string, stored: bool, s: FieldType,
                                       value': Option<Atom>, expr': string, stored': bool, t: FieldType)
    ensures var a, b := EncodeColumn(value, expr, stored, s), EncodeColumn(value', expr', stored', t);
            && IsColumn(a) && IsColumn(b)
            && JoinColumn(a, b) ==
               if ColumnsJoinable(value, expr, stored, s, value', expr', stored', t) && !Keyless(Joined(s, t))
               then Some(EncodeColumn(if value.None? then value' else value, expr, stored, Joined(s, t)))
               else None
  {
    TypeRoundTrip(s);
    TypeRoundTrip(t);
    TypesJoin(s, t);
    KeylessIs(Joined(s, t));
    ColumnTuples(value, expr, stored, s, value', expr', stored', t, EncodeColumn(value, expr, stored, s), EncodeColumn(value', expr', stored', t));
  }

  lemma {:induction false} ColumnTuples(value: Option<Atom>, expr: string, stored: bool, s: FieldType,
                                        value': Option<Atom>, expr': string, stored': bool, t: FieldType, a: Lattice, b: Lattice)
    requires a == EncodeColumn(value, expr, stored, s) && b == EncodeColumn(value', expr', stored', t)
    ensures Join(a, b) ==
            if ColumnsJoinable(value, expr, stored, s, value', expr', stored', t)
            then Some(EncodeColumn(if value.None? then value' else value, expr, stored, Joined(s, t)))
            else None
  {
    var j := EncodeColumn(if value.None? then value' else value, expr, stored, Joined(s, t));
    TypesJoin(s, t);
    ColumnParts(a.elems, b.elems, j.elems);
    DefaultValuesJoin(value, value');
    if ColumnsJoinable(value, expr, stored, s, value', expr', stored', t) {
      assert Join(a.elems[0], b.elems[0]) == Some(j.elems[0]) && Join(a.elems[1], b.elems[1]) == Some(j.elems[1]);
      assert Join(a.elems[2], b.elems[2]) == Some(j.elems[2]) && Join(a.elems[3], b.elems[3]) == Some(j.elems[3]);
    } else {
      assert Join(a.elems[0], b.elems[0]).None? || Join(a.elems[1], b.elems[1]).None?
             || Join(a.elems[2], b.elems[2]).None? || Join(a.elems[3], b.elems[3]).None?;
    }
  }

  lemma {:induction false} DefaultValuesJoin(value: Option<Atom>, value': Option<Atom>)
    ensures var a := if value.None? then MaybeNil else Maybe(Singleton(value.value));
            var b := if value'.None? then MaybeNil else Maybe(Singleton(value'.value));
            Join(a, b) == if value.None? then Some(b) else if value'.None? || value == value' then Some(a) else None
  {
  }
}
