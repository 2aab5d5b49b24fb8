/**
 * Chunk identities as text: the keys of the report (sync_diff_inspector/chunk/chunk.go) and the names of the fix
 * files (sync_diff_inspector/utils/utils.go, sync_diff_inspector/diff.go).
 */
module FileNames {
  import opened Wrappers
  import opened Chunks
  import opened Text

  /** A parse that succeeds, returns an error, or runs past the end of a slice. */
  datatype Parsed<+T> = Ok(value: T) | Err | Panic

  predicate IntFields(id: ChunkID) {
    IsInt(id.table) && IsInt(id.left) && IsInt(id.right) && IsInt(id.index) && IsInt(id.count)
  }

  // ---------- Keys of the report ----------

  function BucketsText(left: int, right: int): string {
    Itoa(left) + "-" + Itoa(right)
  }

  function ToString(id: ChunkID): string {
    Itoa(id.table) + ":" + BucketsText(id.left, id.right) + ":" + Itoa(id.index) + ":" + Itoa(id.count)
  }

  /** The two bucket indexes, separated by a dash. */
  function ParseBuckets(s: string): Parsed<(int, int)> {
    var parts := Split(s, '-');
    if Atoi(parts[0]).None? then Err
    else if |parts| < 2 then Panic
    else if Atoi(parts[1]).None? then Err
    else Ok((Atoi(parts[0]).value, Atoi(parts[1]).value))
  }

  function FromString(s: string): Parsed<ChunkID> {
    var ids := Split(s, ':');
    if Atoi(ids[0]).None? then Err
    else if |ids| < 2 then Panic
    else match ParseBuckets(ids[1])
      case Err => Err
      case Panic => Panic
      case Ok((left, right)) =>
        if |ids| < 3 then Panic
        else if Atoi(ids[2]).None? then Err
        else if |ids| < 4 then Panic
        else if Atoi(ids[3]).None? then Err
        else Ok(ChunkID(Atoi(ids[0]).value, left, right, Atoi(ids[2]).value, Atoi(ids[3]).value))
  }

  lemma {:induction false} DashFirst(rest: string)
    ensures ParseBuckets(['-'] + rest) == Err
  {
    assert ['-'] + rest == "" + ['-'] + rest;
    SplitFirst("", '-', rest);
  }

  lemma {:induction false} NegativeLeft(left: int, right: int)
    requires left < 0
    ensures ParseBuckets(BucketsText(left, right)) == Err
  {
    var digits, other := Digits(-left), Itoa(right);
    assert Itoa(left) == ['-'] + digits;
    assert (['-'] + digits) + "-" + other == ['-'] + (digits + "-" + other);
    DashFirst(digits + "-" + other);
  }

  lemma {:induction false} DashSecond(number: string, rest: string)
    requires '-' !in number && Atoi(number).Some?
    ensures ParseBuckets(number + "-" + ("-" + rest)) == Err
  {
    assert "-" + rest == "" + ['-'] + rest;
    SplitFirst("", '-', rest);
    SplitFirst(number, '-', "-" + rest);
  }

  lemma {:induction false} NegativeRight(left: int, right: int)
    requires IsInt(left) && 0 <= left && right < 0
    ensures ParseBuckets(BucketsText(left, right)) == Err
  {
    ItoaChars(left);
    AtoiItoa(left);
    DashSecond(Itoa(left), Digits(-right));
  }

  /** The dash also is the sign: only non-negative bucket indexes come back. */
  lemma {:induction false} BucketsRoundTrip(left: int, right: int)
    requires IsInt(left) && IsInt(right)
    ensures ParseBuckets(BucketsText(left, right)) == if left >= 0 && right >= 0 then Ok((left, right)) else Err
  {
    if left < 0 {
      NegativeLeft(left, right);
    } else if right < 0 {
      NegativeRight(left, right);
    } else {
      AtoiItoa(left);
      AtoiItoa(right);
      ItoaChars(left);
      ItoaChars(right);
      assert BucketsText(left, right) == Itoa(left) + ['-'] + Itoa(right);
      SplitFirst(Itoa(left), '-', Itoa(right));
      SplitNone(Itoa(right), '-');
    }
  }

  lemma {:induction false} BucketsNoColon(left: int, right: int)
    ensures ':' !in BucketsText(left, right)
  {
    ItoaChars(left);
    ItoaChars(right);
  }

  lemma {:induction false} SplitId(id: ChunkID)
    ensures Split(ToString(id), ':') == [Itoa(id.table), BucketsText(id.left, id.right), Itoa(id.index), Itoa(id.count)]
  {
    ItoaChars(id.table);
    ItoaChars(id.index);
    ItoaChars(id.count);
    BucketsNoColon(id.left, id.right);
    SplitFour(Itoa(id.table), BucketsText(id.left, id.right), Itoa(id.index), Itoa(id.count), ':');
  }

  /** A chunk identity comes back from its text exactly when both bucket indexes are not negative. */
  lemma {:induction false} IdRoundTrip(id: ChunkID)
    requires IntFields(id)
    ensures FromString(ToString(id)) == Ok(id) <==> id.left >= 0 && id.right >= 0
    ensures id.left < 0 || id.right < 0 ==> FromString(ToString(id)) == Err
  {
    SplitId(id);
    BucketsRoundTrip(id.left, id.right);
    AtoiItoa(id.table);
    AtoiItoa(id.index);
    AtoiItoa(id.count);
  }

  // ---------- Names of the fix files ----------

  /** The part of a file name that names the chunk; the announced chunk count is not in it. */
  function GetSQLFileName(id: ChunkID): string {
    Itoa(id.table) + ":" + BucketsText(id.left, id.right) + ":" + Itoa(id.index)
  }

  function GetChunkIDFromSQLFileName(s: string): Parsed<ChunkID> {
    var ids := Split(s, ':');
    if Atoi(ids[0]).None? then Err
    else if |ids| < 2 then Panic
    else match ParseBuckets(ids[1])
      case Err => Err
      case Panic => Panic
      case Ok((left, right)) =>
        if |ids| < 3 then Panic
        else if Atoi(ids[2]).None? then Err
        else Ok(ChunkID(Atoi(ids[0]).value, left, right, Atoi(ids[2]).value, 0))
  }

  function FileName(schema: string, table: string, id: ChunkID): string {
    schema + ":" + table + ":" + GetSQLFileName(id) + ".sql"
  }

  predicate HasSuffix(s: string, suffix: string) {
    |suffix| <= |s| && s[|s| - |suffix|..] == suffix
  }

  /** Cuts off trailing characters for as long as they are in the set, which is how the extension is removed. */
  function TrimRight(s: string, cutset: set<char>): string {
    if s != [] && s[|s| - 1] in cutset then TrimRight(s[..|s| - 1], cutset) else s
  }

  const EXTENSION := {'.', 's', 'q', 'l'}

  /** The chunk a file in the fix directory belongs to; no chunk when the file is passed over. */
  function FileChunk(name: string): Parsed<Option<ChunkID>> {
    if !HasSuffix(name, ".sql") then Ok(None)
    else
      var parts := SplitN(TrimRight(name, EXTENSION), ':', 3);
      if |parts| != 3 then Ok(None)
      else match GetChunkIDFromSQLFileName(parts[2])
        case Err => Err
        case Panic => Panic
        case Ok(id) => Ok(Some(id))
  }

  lemma {:induction false} Trimmed(s: string)
    requires s != [] && s[|s| - 1] !in EXTENSION
    ensures HasSuffix(s + ".sql", ".sql") && TrimRight(s + ".sql", EXTENSION) == s
  {
    assert (s + ".sql")[..|s| + 3] == s + ".sq";
    assert (s + ".sq")[..|s| + 2] == s + ".s";
    assert (s + ".s")[..|s| + 1] == s + ".";
    assert (s + ".")[..|s|] == s;
    assert TrimRight(s + ".s", EXTENSION) == TrimRight(s + ".", EXTENSION) == TrimRight(s, EXTENSION);
    assert TrimRight(s + ".sql", EXTENSION) == TrimRight(s + ".sq", EXTENSION) == TrimRight(s + ".s", EXTENSION);
  }

  lemma {:induction false} NameRoundTrip(id: ChunkID)
    requires IntFields(id)
    ensures GetChunkIDFromSQLFileName(GetSQLFileName(id)) ==
            if id.left >= 0 && id.right >= 0 then Ok(id.(count := 0)) else Err
  {
    ItoaChars(id.table);
    ItoaChars(id.index);
    BucketsNoColon(id.left, id.right);
    SplitThree(Itoa(id.table), BucketsText(id.left, id.right), Itoa(id.index), ':');
    BucketsRoundTrip(id.left, id.right);
    AtoiItoa(id.table);
    AtoiItoa(id.index);
  }

  function Stem(schema: string, table: string, id: ChunkID): string {
    schema + ":" + table + ":" + GetSQLFileName(id)
  }

  lemma {:induction false} StemTrimmed(schema: string, table: string, id: ChunkID)
    ensures FileName(schema, table, id) == Stem(schema, table, id) + ".sql"
    ensures HasSuffix(FileName(schema, table, id), ".sql")
    ensures TrimRight(FileName(schema, table, id), EXTENSION) == Stem(schema, table, id)
  {
    var s := Stem(schema, table, id);
    var digits := Itoa(id.index);
    assert '0' <= digits[|digits| - 1] <= '9';
    assert s[|s| - 1] == digits[|digits| - 1];
    Trimmed(s);
  }

  /** With plain names and non-negative bucket indexes, a fix file's name gives back its chunk. */
  lemma {:induction false} FileRoundTrip(schema: string, table: string, id: ChunkID)
    requires ':' !in schema && ':' !in table
    requires IntFields(id) && id.left >= 0 && id.right >= 0
    ensures FileChunk(FileName(schema, table, id)) == Ok(Some(id.(count := 0)))
  {
    StemTrimmed(schema, table, id);
    SplitNThree(schema, table, GetSQLFileName(id), ':');
    NameRoundTrip(id);
  }

  /** With a colon in a name, the chunk that is read back starts with a piece of the name, whatever the chunk. */
  lemma {:induction false} ColonShifts(schema: string, table: string, id: ChunkID)
    requires ':' in schema || ':' in table
    ensures var names := schema + ":" + table;
            |SplitN(names, ':', 3)| == 3 &&
            var parts := SplitN(Stem(schema, table, id), ':', 3);
            |parts| == 3 && Split(parts[2], ':') == Split(SplitN(names, ':', 3)[2], ':') + Split(GetSQLFileName(id), ':')
  {
    ColonPieces(schema, table);
    TailPieces(schema + ":" + table, GetSQLFileName(id));
  }

  lemma {:induction false} ColonPieces(schema: string, table: string)
    requires ':' in schema || ':' in table
    ensures |SplitN(schema + ":" + table, ':', 3)| == 3
  {
    CountAppend(schema, ":", ':');
    CountAppend(schema + ":", table, ':');
    CountIn(schema, ':');
    CountIn(table, ':');
    SplitNSize(schema + ":" + table, ':', 3);
  }

  lemma {:induction false} TailPieces(names: string, rest: string)
    requires |SplitN(names, ':', 3)| == 3
    ensures var parts := SplitN(names + ":" + rest, ':', 3);
            |parts| == 3 && Split(parts[2], ':') == Split(SplitN(names, ':', 3)[2], ':') + Split(rest, ':')
  {
    var tail := SplitN(names, ':', 3)[2];
    SplitNLonger(names, ':', 3, ":" + rest);
    assert names + ":" + rest == names + (":" + rest) && tail + ":" + rest == tail + (":" + rest);
    SplitAppend(tail, ':', rest);
  }

  /** What reading a fix file's name back should give. */
  predicate ReadsBack(schema: string, table: string, id: ChunkID) {
    FileChunk(FileName(schema, table, id)) == Ok(Some(id.(count := 0)))
  }

  /** A chunk as the producers number it. */
  predicate Numbered(id: ChunkID) {
    IntFields(id) && id.left >= 0 && id.right >= 0
  }

  /** The number the chunk read back starts with comes from the names. */
  lemma {:induction false} TableFromName(schema: string, table: string, id: ChunkID)
    requires ':' in schema || ':' in table
    requires ReadsBack(schema, table, id)
    ensures |SplitN(schema + ":" + table, ':', 3)| == 3
    ensures Atoi(Split(SplitN(schema + ":" + table, ':', 3)[2], ':')[0]) == Some(id.table)
  {
    ColonShifts(schema, table, id);
    StemTrimmed(schema, table, id);
  }

  /** Fix files of a table can be read back, for every chunk, if and only if neither of its names contains a colon. */
  lemma {:induction false} FilesReadBack(schema: string, table: string)
    ensures (forall id: ChunkID :: Numbered(id) ==> ReadsBack(schema, table, id)) <==> ':' !in schema && ':' !in table
  {
    if ':' !in schema && ':' !in table {
      forall id: ChunkID | Numbered(id)
        ensures ReadsBack(schema, table, id)
      {
        FileRoundTrip(schema, table, id);
      }
    } else {
      var a, b := ChunkID(0, 0, 0, 0, 1), ChunkID(1, 0, 0, 0, 1);
      assert Numbered(a) && Numbered(b);
      if ReadsBack(schema, table, a) && ReadsBack(schema, table, b) {
        TableFromName(schema, table, a);
        TableFromName(schema, table, b);
      }
    }
  }

  /** What is read behind the first two pieces of a file name. */
  predicate Readable(ids: seq<string>) {
    |ids| >= 3 && Atoi(ids[0]).Some? && ParseBuckets(ids[1]).Ok? && Atoi(ids[2]).Some?
  }

  /** With a colon in the names: there are at least two more pieces of them, and they read as the numbers of a chunk do. */
  predicate Legible(schema: string, table: string) {
    (':' !in schema && ':' !in table)
    || (var parts := SplitN(schema + ":" + table, ':', 3);
        |parts| == 3 &&
        var ids := Split(parts[2], ':');
        |ids| >= 2 && Atoi(ids[0]).Some? && ParseBuckets(ids[1]).Ok? && (|ids| == 2 || Atoi(ids[2]).Some?))
  }

  lemma {:induction false} SplitSQLFileName(id: ChunkID)
    ensures Split(GetSQLFileName(id), ':') == [Itoa(id.table), BucketsText(id.left, id.right), Itoa(id.index)]
  {
    ItoaChars(id.table);
    ItoaChars(id.index);
    BucketsNoColon(id.left, id.right);
    SplitThree(Itoa(id.table), BucketsText(id.left, id.right), Itoa(id.index), ':');
  }

  lemma {:induction false} BucketsNoNumber(left: nat, right: int)
    ensures Atoi(BucketsText(left, right)) == None
  {
    DashInside(BucketsText(left, right), |Itoa(left)|);
  }

  lemma {:induction false} ReadableIff(first: seq<string>, table: string, buckets: string, index: string)
    requires first != [] && Atoi(table).Some? && Atoi(buckets).None?
    ensures Readable(first + [table, buckets, index]) <==>
            |first| >= 2 && Atoi(first[0]).Some? && ParseBuckets(first[1]).Ok? && (|first| == 2 || Atoi(first[2]).Some?)
  {
    var ids := first + [table, buckets, index];
    assert ids[0] == first[0] && (|first| == 1 ==> ids[2] == buckets) && (|first| == 2 ==> ids[2] == table);
  }

  /** The file of a chunk has a name that can be parsed if and only if the names of its table are legible. */
  lemma {:induction false} LegibleIff(schema: string, table: string, id: ChunkID)
    requires Numbered(id)
    ensures FileChunk(FileName(schema, table, id)).Ok? <==> Legible(schema, table)
  {
    if ':' !in schema && ':' !in table {
      FileRoundTrip(schema, table, id);
    } else {
      ColonShifts(schema, table, id);
      StemTrimmed(schema, table, id);
      SplitSQLFileName(id);
      AtoiItoa(id.table);
      BucketsNoNumber(id.left, id.right);
      var first := Split(SplitN(schema + ":" + table, ':', 3)[2], ':');
      ReadableIff(first, Itoa(id.table), BucketsText(id.left, id.right), Itoa(id.index));
    }
  }

  // ---------- What is not a fix file, and what cannot be parsed ----------

  /** Files without the extension, or with fewer than two colons, are passed over. */
  lemma {:induction false} PassedOver(name: string)
    ensures (forall stem: string :: name != stem + ".sql") ==> FileChunk(name) == Ok(None)
    ensures Count(TrimRight(name, EXTENSION), ':') < 2 ==> FileChunk(name) == Ok(None)
  {
    SplitNSize(TrimRight(name, EXTENSION), ':', 3);
    if HasSuffix(name, ".sql") {
      assert name == name[..|name| - 4] + ".sql";
    }
  }

  /** A key is parsed from left to right: a piece that is no number is an error, unless a piece before it is missing. */
  lemma {:induction false} ParsedInOrder(s: string)
    ensures var ids := Split(s, ':');
            && (FromString(s).Ok? <==>
                  |ids| >= 4 && Atoi(ids[0]).Some? && ParseBuckets(ids[1]).Ok? && Atoi(ids[2]).Some? && Atoi(ids[3]).Some?)
            && (FromString(s).Panic? <==>
                  && Atoi(ids[0]).Some? && (|ids| > 1 ==> !ParseBuckets(ids[1]).Err?)
                  && (|ids| > 2 && ParseBuckets(ids[1]).Ok? ==> Atoi(ids[2]).Some?) && (|ids| < 4 || ParseBuckets(ids[1]).Panic?))
            && (GetChunkIDFromSQLFileName(s).Panic? <==>
                  && Atoi(ids[0]).Some? && (|ids| > 1 ==> !ParseBuckets(ids[1]).Err?) && (|ids| < 3 || ParseBuckets(ids[1]).Panic?))
  {
  }

  /** What goes wrong in the bucket indexes, and in the part of a file name that names the chunk, goes wrong with the whole. */
  lemma {:induction false} ParsedParts(s: string, name: string)
    ensures var parts := Split(s, '-');
            && (ParseBuckets(s).Ok? <==> |parts| >= 2 && Atoi(parts[0]).Some? && Atoi(parts[1]).Some?)
            && (ParseBuckets(s).Panic? <==> |parts| == 1 && Atoi(parts[0]).Some?)
    ensures var parts := SplitN(TrimRight(name, EXTENSION), ':', 3);
            HasSuffix(name, ".sql") && |parts| == 3 ==>
              && (FileChunk(name).Err? <==> GetChunkIDFromSQLFileName(parts[2]).Err?)
              && (FileChunk(name).Panic? <==> GetChunkIDFromSQLFileName(parts[2]).Panic?)
  {
  }
}
