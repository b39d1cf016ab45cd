// The transform stages' shared utilities: listing the raw files under a prefix,
// archiving a raw file, and the record normaliser that turns API records into
// a table (flatten, rename, deduplicate, stamp, project).

module TransformUtils {
  import opened Values
  import opened Text
  import opened ObjectStore

  // ---------------------------------------------------------------------------
  // Listing

  /** The prefix sent to the store: every trailing `/` removed, then exactly one added. */
  function ListPrefix(prefix: string): string
  {
    RStrip(prefix, '/') + "/"
  }

  lemma ListPrefixShape(prefix: string)
    ensures EndsWith(ListPrefix(prefix), "/")
    ensures var p := ListPrefix(prefix); |p| <= |prefix| + 1 && p[..|p| - 1] == prefix[..|p| - 1]
    ensures var p := ListPrefix(prefix); |p| == 1 || p[|p| - 2] != '/'
  {
  }

  /** Normalising an already normalised prefix changes nothing. */
  lemma ListPrefixIdempotent(prefix: string)
    ensures ListPrefix(ListPrefix(prefix)) == ListPrefix(prefix)
  {
    var r := RStrip(prefix, '/');
    var s := r + "/";
    assert s[..|s| - 1] == r;
    assert RStrip(s, '/') == RStrip(r, '/');
  }

  function KeysOf(objs: seq<ObjectInfo>): (keys: seq<string>)
    ensures |keys| == |objs| && forall i :: 0 <= i < |objs| ==> keys[i] == objs[i].key
  {
    seq(|objs|, i requires 0 <= i < |objs| => objs[i].key)
  }

  /** The keys of a listing are the stored keys under the prefix, in key order. */
  lemma ListedKeys(b: Bucket, prefix: string, listing: Listing)
    requires ListingOf(b, prefix, listing) && listing.Listed?
    ensures var keys := KeysOf(Concat(listing.pages));
      (forall k :: k in keys <==> k in b.objects && StartsWith(k, prefix)) &&
      (forall i, j :: 0 <= i < j < |keys| ==> LexLess(keys[i], keys[j]))
  {
    var objs := Concat(listing.pages);
    var keys := KeysOf(objs);
    forall k | k in b.objects && StartsWith(k, prefix) ensures k in keys {
      var i :| 0 <= i < |objs| && objs[i].key == k;
      assert keys[i] == k;
    }
  }

  /** One more page adds its keys at the end. */
  lemma KeysOfNextPage(pages: seq<seq<ObjectInfo>>, p: nat)
    requires p < |pages|
    ensures KeysOf(Concat(pages[..p + 1])) == KeysOf(Concat(pages[..p])) + KeysOf(pages[p])
  {
    assert pages[..p + 1][..p] == pages[..p];
  }

  /** `list_s3_keys_by_prefix`: the keys of every listed page, in listing order; a
      listing failure propagates. */
  method ListS3KeysByPrefix(s3: Store, prefix: string, listing: Listing) returns (r: Result<seq<string>, Error>)
    requires ListingOf(s3.State(), ListPrefix(prefix), listing)
    ensures listing.ListFailed? ==> r == Err(listing.error)
    ensures listing.Listed? ==> r == Ok(KeysOf(Concat(listing.pages)))
    ensures r.Ok? ==> forall k :: k in r.value <==> k in s3.objects && StartsWith(k, ListPrefix(prefix))
    ensures r.Ok? ==> forall i, j :: 0 <= i < j < |r.value| ==> LexLess(r.value[i], r.value[j])
  {
    if listing.ListFailed? {
      return Err(listing.error);
    }
    var pages := listing.pages;
    var keys: seq<string> := [];
    for p := 0 to |pages|
      invariant keys == KeysOf(Concat(pages[..p]))
    {
      var page := pages[p];
      for q := 0 to |page|
        invariant keys == KeysOf(Concat(pages[..p])) + KeysOf(page[..q])
      {
        keys := keys + [page[q].key];
        assert page[..q + 1] == page[..q] + [page[q]];
      }
      assert page[..|page|] == page;
      KeysOfNextPage(pages, p);
    }
    assert pages[..|pages|] == pages;
    ListedKeys(s3.State(), ListPrefix(prefix), listing);
    r := Ok(keys);
  }

  // ---------------------------------------------------------------------------
  // Archiving

  /** The archive location of a raw key: its first `raw/` becomes `archive/`. */
  function ArchiveKey(key: string): string
  {
    ReplaceFirst(key, "raw/", "archive/")
  }

  /** A key that starts with `raw/` is archived under `archive/` with the same rest. */
  lemma ArchiveKeyOfRawKey(rest: string)
    ensures ArchiveKey("raw/" + rest) == "archive/" + rest
  {
    var s := "raw/" + rest;
    assert StartsWith(s, "raw/");
    assert s[4..] == rest;
  }

  /** The archive key differs from the key exactly when the key contains `raw/`; it is
      then four characters longer. */
  lemma ArchiveKeyMoves(key: string)
    ensures Contains(key, "raw/") <==> ArchiveKey(key) != key
    ensures Contains(key, "raw/") ==> |ArchiveKey(key)| == |key| + 4
  {
  }

  /** `archive_s3_file`: copy to the archive key, then delete the source; the first
      failure is re-raised and nothing after it is attempted. */
  function Archive(b: Bucket, key: string): Effect
  {
    var copied := CopyObject(b, key, ArchiveKey(key));
    if copied.out.Fail? then copied else DeleteObject(copied.state, key)
  }

  /** Archiving succeeds exactly when the file exists, the key contains `raw/` and
      the store grants the three accesses; it then moves the file. Whatever fails, the
      payload stays at the source or at the archive key, and no other key changes. */
  lemma ArchiveMoves(b: Bucket, key: string)
    ensures var e := Archive(b, key);
      e.out.Pass? <==>
        key in b.objects && Contains(key, "raw/") &&
        Refusal(b, Read, key).None? && Refusal(b, Write, ArchiveKey(key)).None? &&
        Refusal(b, Remove, key).None?
    ensures var e := Archive(b, key);
      e.out.Pass? ==>
        key !in e.state.objects && ArchiveKey(key) in e.state.objects &&
        e.state.objects[ArchiveKey(key)].doc == b.objects[key].doc
    ensures var e := Archive(b, key);
      key in b.objects ==>
        (key in e.state.objects && e.state.objects[key] == b.objects[key]) ||
        (ArchiveKey(key) in e.state.objects && e.state.objects[ArchiveKey(key)].doc == b.objects[key].doc)
    ensures var e := Archive(b, key);
      forall k :: k != key && k != ArchiveKey(key) ==>
        (k in e.state.objects <==> k in b.objects) &&
        (k in b.objects ==> e.state.objects[k] == b.objects[k])
    ensures Archive(b, key).state.name == b.name && Archive(b, key).state.denied == b.denied
  {
    ArchiveKeyMoves(key);
  }

  method ArchiveS3File(s3: Store, key: string) returns (out: Outcome<Error>)
    modifies s3
    ensures s3.State() == Archive(old(s3.State()), key).state
    ensures out == Archive(old(s3.State()), key).out
  {
    var archiveKey := ArchiveKey(key);
    out := s3.Copy(key, archiveKey);
    if out.Pass? {
      out := s3.Delete(key);
    }
  }

  // ---------------------------------------------------------------------------
  // Flattening: `pd.json_normalize(records, sep="_")`

  /** A flattened record: an insertion-ordered dictionary from column to value. */
  type FlatRow = seq<(string, Json)>

  function RowKeys(r: FlatRow): (keys: seq<string>)
    ensures |keys| == |r| && forall i :: 0 <= i < |r| ==> keys[i] == r[i].0
  {
    seq(|r|, i requires 0 <= i < |r| => r[i].0)
  }

  /** `d[k] = v` on an insertion-ordered dictionary: an existing key keeps its
      position and takes the new value, a new key goes last. */
  function Put(r: FlatRow, k: string, v: Json): (r': FlatRow)
    ensures RowKeys(r') == if k in RowKeys(r) then RowKeys(r) else RowKeys(r) + [k]
    ensures Lookup(r', k) == Some(v)
    ensures forall k' :: k' != k ==> Lookup(r', k') == Lookup(r, k')
  {
    if r == [] then [(k, v)]
    else
      var rest := r[1..];
      assert r == [r[0]] + rest;
      if r[0].0 == k then
        PutFront(r[0], rest, v);
        [(k, v)] + rest
      else
        var t := Put(rest, k, v);
        PutBehindKeys(r[0], rest, t, k);
        PutBehindValues(r[0], rest, t, k, v);
        [r[0]] + t
  }

  /** Replacing the value of the first pair. */
  lemma PutFront(x: (string, Json), rest: FlatRow, v: Json)
    ensures RowKeys([(x.0, v)] + rest) == RowKeys([x] + rest)
    ensures Lookup([(x.0, v)] + rest, x.0) == Some(v)
    ensures forall k' :: k' != x.0 ==> Lookup([(x.0, v)] + rest, k') == Lookup([x] + rest, k')
  {
    assert ([(x.0, v)] + rest)[1..] == rest == ([x] + rest)[1..];
  }

  /** The keys after putting `k` behind a first pair with another key. */
  lemma PutBehindKeys(x: (string, Json), rest: FlatRow, t: FlatRow, k: string)
    requires x.0 != k
    requires RowKeys(t) == if k in RowKeys(rest) then RowKeys(rest) else RowKeys(rest) + [k]
    ensures var r := [x] + rest;
      RowKeys([x] + t) == if k in RowKeys(r) then RowKeys(r) else RowKeys(r) + [k]
  {
    assert RowKeys([x] + t) == [x.0] + RowKeys(t);
    assert RowKeys([x] + rest) == [x.0] + RowKeys(rest);
    assert k in RowKeys([x] + rest) <==> k in RowKeys(rest);
    if k !in RowKeys(rest) {
      assert [x.0] + (RowKeys(rest) + [k]) == [x.0] + RowKeys(rest) + [k];
    }
  }

  /** The values after putting `k` behind a first pair with another key. */
  lemma PutBehindValues(x: (string, Json), rest: FlatRow, t: FlatRow, k: string, v: Json)
    requires x.0 != k
    requires Lookup(t, k) == Some(v)
    requires forall k' :: k' != k ==> Lookup(t, k') == Lookup(rest, k')
    ensures Lookup([x] + t, k) == Some(v)
    ensures forall k' :: k' != k ==> Lookup([x] + t, k') == Lookup([x] + rest, k')
  {
    assert ([x] + t)[1..] == t && ([x] + rest)[1..] == rest;
    forall k' | k' != k
      ensures Lookup([x] + t, k') == Lookup([x] + rest, k')
    {
    }
  }

  /** The value stored under `k`, if any. */
  function Lookup(r: FlatRow, k: string): (v: Option<Json>)
    ensures v.Some? <==> k in RowKeys(r)
  {
    if r == [] then None
    else if r[0].0 == k then Some(r[0].1)
    else Lookup(r[1..], k)
  }

  function PutAll(r: FlatRow, pairs: FlatRow): FlatRow
    decreases |pairs|
  {
    if pairs == [] then r else PutAll(Put(r, pairs[0].0, pairs[0].1), pairs[1..])
  }

  /** The column name of `key` nested under `keyString`. */
  function JoinKey(keyString: string, key: string): string
  {
    if keyString == "" then key else keyString + "_" + key
  }

  /** Walks the fields of a nested object in order: an object recurses with the
      joined name, anything else is stored under the joined name. */
  function FlattenFields(keyString: string, fs: seq<Field>, acc: FlatRow): FlatRow
    decreases fs
  {
    if fs == [] then acc
    else
      var k := JoinKey(keyString, fs[0].name);
      var acc' := match fs[0].value
        case JObj(inner) => FlattenFields(k, inner, acc)
        case other => Put(acc, k, other);
      FlattenFields(keyString, fs[1..], acc')
  }

  function NonObjectFields(rec: Record): FlatRow
  {
    if rec == [] then []
    else (if rec[0].value.JObj? then [] else [(rec[0].name, rec[0].value)]) + NonObjectFields(rec[1..])
  }

  function ObjectFields(rec: Record): seq<Field>
  {
    if rec == [] then []
    else (if rec[0].value.JObj? then [rec[0]] else []) + ObjectFields(rec[1..])
  }

  /** One record flattened: its non-object fields first, in order, then the leaves of
      its object fields under `_`-joined names (a later leaf with an existing name
      replaces that value in place). */
  function FlattenRecord(rec: Record): FlatRow
  {
    var top := PutAll([], NonObjectFields(rec));
    var nested := FlattenFields("", ObjectFields(rec), []);
    PutAll(top, nested)
  }

  /** The key of every row, in order. */
  function AllKeys(rows: seq<FlatRow>): seq<string>
  {
    if rows == [] then [] else AllKeys(rows[..|rows| - 1]) + RowKeys(rows[|rows| - 1])
  }

  /** A JSON value as a table cell: `null` and a missing key are both null. */
  function CellOf(v: Option<Json>): Cell
  {
    if v.None? || v.value == JNull then Null else Scalar(v.value)
  }

  /** The frame built from flattened rows: the union of their keys in order of first
      appearance, a null where a row lacks a key. */
  function JsonNormalize(records: seq<Record>): (t: Table)
    ensures WellFormed(t) && |t.rows| == |records|
  {
    var rows := seq(|records|, i requires 0 <= i < |records| => FlattenRecord(records[i]));
    var cols := Distinct(AllKeys(rows));
    Table(cols, seq(|rows|, i requires 0 <= i < |rows| =>
      seq(|cols|, j requires 0 <= j < |cols| => CellOf(Lookup(rows[i], cols[j])))))
  }

  // ---------------------------------------------------------------------------
  // Renaming: `df.rename(columns=m)`

  /** A rename map, as an insertion-ordered dictionary from old to new label. */
  type RenameMap = seq<(string, string)>

  function RenameLabel(m: RenameMap, c: string): string
  {
    if m == [] then c else if m[0].0 == c then m[0].1 else RenameLabel(m[1..], c)
  }

  function MapKeys(m: RenameMap): seq<string>
  {
    seq(|m|, i requires 0 <= i < |m| => m[i].0)
  }

  function MapValues(m: RenameMap): seq<string>
  {
    seq(|m|, i requires 0 <= i < |m| => m[i].1)
  }

  function Rename(t: Table, m: RenameMap): (r: Table)
    ensures |r.columns| == |t.columns| && r.rows == t.rows
  {
    Table(seq(|t.columns|, j requires 0 <= j < |t.columns| => RenameLabel(m, t.columns[j])), t.rows)
  }

  // ---------------------------------------------------------------------------
  // Deduplication: `df.drop_duplicates(subset=s, keep="first")`

  /** The key tuple of a row: its cells at the given positions. */
  function KeyOf(row: seq<Cell>, pos: seq<nat>): seq<Cell>
  {
    seq(|pos|, k requires 0 <= k < |pos| => if pos[k] < |row| then row[pos[k]] else Null)
  }

  /** Row `i` is the first with its key tuple. */
  predicate FirstOfKey(rows: seq<seq<Cell>>, pos: seq<nat>, i: nat)
    requires i < |rows|
  {
    forall j :: 0 <= j < i ==> KeyOf(rows[j], pos) != KeyOf(rows[i], pos)
  }

  /** The rows that are the first with their key tuple, in their original order. */
  function KeepFirst(rows: seq<seq<Cell>>, pos: seq<nat>): (r: seq<seq<Cell>>)
    ensures forall x :: x in r ==> x in rows
  {
    if rows == [] then []
    else
      var init := rows[..|rows| - 1];
      var last := rows[|rows| - 1];
      if exists j :: 0 <= j < |init| && KeyOf(init[j], pos) == KeyOf(last, pos) then KeepFirst(init, pos)
      else KeepFirst(init, pos) + [last]
  }

  function Positions(columns: seq<string>, subset: seq<string>): seq<nat>
    requires forall c :: c in subset ==> c in columns
  {
    seq(|subset|, k requires 0 <= k < |subset| => IndexOf(columns, subset[k]))
  }

  function DropDuplicates(t: Table, subset: seq<string>): (r: Table)
    requires forall c :: c in subset ==> c in t.columns
    ensures r.columns == t.columns && (WellFormed(t) ==> WellFormed(r))
  {
    var kept := KeepFirst(t.rows, Positions(t.columns, subset));
    assert forall i :: 0 <= i < |kept| ==> kept[i] in t.rows;
    Table(t.columns, kept)
  }

  // ---------------------------------------------------------------------------
  // Column assignment: `df[c] = values`

  /** Sets column `c` to `cells`, overwriting the first column so labelled or
      appending a new one. */
  function SetColumn(t: Table, c: string, cells: seq<Cell>): (r: Table)
    requires |cells| == |t.rows|
    ensures |r.rows| == |t.rows| && (WellFormed(t) ==> WellFormed(r))
  {
    if c in t.columns then
      var j := IndexOf(t.columns, c);
      Table(t.columns, seq(|t.rows|, i requires 0 <= i < |t.rows| =>
        if j < |t.rows[i]| then t.rows[i][j := cells[i]] else t.rows[i]))
    else
      Table(t.columns + [c], seq(|t.rows|, i requires 0 <= i < |t.rows| => t.rows[i] + [cells[i]]))
  }

  /** `df["ingest_ts"] = now`: the same timestamp in every row. */
  function StampIngestTs(t: Table, now: int): (r: Table)
    ensures |r.rows| == |t.rows| && (WellFormed(t) ==> WellFormed(r))
  {
    SetColumn(t, "ingest_ts", seq(|t.rows|, _ => Stamp(now)))
  }

  /** `final_df[c] = df[c]` on the frame being built: a frame without rows takes its
      rows from the series, with its earlier columns null. */
  function AssignSeries(f: Table, c: string, cells: seq<Cell>): (r: Table)
    requires |f.rows| == 0 || |cells| == |f.rows|
    ensures |r.rows| == |cells| && (WellFormed(f) ==> WellFormed(r))
  {
    var g := if |f.rows| == 0 then Table(f.columns, seq(|cells|, _ => seq(|f.columns|, _ => Null))) else f;
    SetColumn(g, c, cells)
  }

  /** `final_df[c] = None`: a null column over the rows the frame has so far. */
  function AssignNone(f: Table, c: string): (r: Table)
    ensures |r.rows| == |f.rows| && (WellFormed(f) ==> WellFormed(r))
  {
    SetColumn(f, c, seq(|f.rows|, _ => Null))
  }

  /** The frame after the projection loop has handled `cols`. */
  function ProjectPrefix(df: Table, cols: seq<string>): (f: Table)
    requires WellFormed(df)
    ensures |f.rows| == 0 || |f.rows| == |df.rows|
  {
    if cols == [] then Table([], [])
    else
      var f := ProjectPrefix(df, cols[..|cols| - 1]);
      var c := cols[|cols| - 1];
      if c in df.columns then AssignSeries(f, c, Column(df, c)) else AssignNone(f, c)
  }

  // ---------------------------------------------------------------------------
  // The normaliser

  predicate AllPresent(subset: seq<string>, columns: seq<string>)
  {
    forall c :: c in subset ==> c in columns
  }

  /** The frame after flattening and, when a rename map is given, renaming. */
  function Renamed(records: seq<Record>, renameMap: RenameMap): (t: Table)
    ensures WellFormed(t) && |t.rows| == |records|
  {
    var t := JsonNormalize(records);
    if renameMap != [] then Rename(t, renameMap) else t
  }

  /** Deduplication runs only when a subset is given and all of its columns exist. */
  function Deduplicated(t: Table, subset: seq<string>): (r: Table)
    ensures WellFormed(t) ==> WellFormed(r)
  {
    if subset != [] && AllPresent(subset, t.columns) then DropDuplicates(t, subset) else t
  }

  /** What `transform_records_to_df` returns for the given records, rename map,
      deduplication subset, final column list and ingestion time. An empty map,
      subset or column list stands for the absent argument. The schema argument
      has no part in it. */
  function Normalised(records: seq<Record>, renameMap: RenameMap, subset: seq<string>,
                      finalColumns: seq<string>, now: int): Table
  {
    if records == [] then Table([], [])
    else
      var stamped := StampIngestTs(Deduplicated(Renamed(records, renameMap), subset), now);
      if finalColumns != [] then ProjectPrefix(stamped, finalColumns) else stamped
  }

  method TransformRecordsToDf(records: seq<Record>, renameMap: RenameMap, subset: seq<string>,
                              finalColumns: seq<string>, schema: seq<(string, string)>, now: int)
    returns (df: Table)
    ensures df == Normalised(records, renameMap, subset, finalColumns, now)
  {
    if records == [] {
      return Table([], []);
    }
    df := JsonNormalize(records);
    if renameMap != [] {
      df := Rename(df, renameMap);
    }
    if subset != [] {
      if AllPresent(subset, df.columns) {
        df := DropDuplicates(df, subset);
      }
    }
    df := StampIngestTs(df, now);
    if finalColumns != [] {
      var finalDf := Table([], []);
      for k := 0 to |finalColumns|
        invariant finalDf == ProjectPrefix(df, finalColumns[..k])
      {
        var col := finalColumns[k];
        assert finalColumns[..k + 1][..k] == finalColumns[..k];
        if col in df.columns {
          finalDf := AssignSeries(finalDf, col, Column(df, col));
        } else {
          finalDf := AssignNone(finalDf, col);
        }
      }
      assert finalColumns[..|finalColumns|] == finalColumns;
      df := finalDf;
    }
  }

  // ---------------------------------------------------------------------------
  // Properties of column assignment and projection

  /** `df[c] = cells` gives column `c` those cells and leaves every other column as
      it was; `c` is appended only when the frame lacked it. */
  lemma SetColumnSpec(t: Table, c: string, cells: seq<Cell>)
    requires WellFormed(t) && |cells| == |t.rows|
    ensures var r := SetColumn(t, c, cells);
      WellFormed(r) && |r.rows| == |t.rows| &&
      r.columns == (if c in t.columns then t.columns else t.columns + [c])
    ensures var r := SetColumn(t, c, cells);
      forall i :: 0 <= i < |t.rows| ==> CellAt(r, i, c) == cells[i]
    ensures var r := SetColumn(t, c, cells);
      forall i, c' :: 0 <= i < |t.rows| && c' != c ==> CellAt(r, i, c') == CellAt(t, i, c')
  {
    if c in t.columns {
      SetExistingColumn(t, c, cells);
    } else {
      SetNewColumn(t, c, cells);
    }
  }

  /** `SetColumnSpec` for a column the frame has: only its cells change. */
  lemma SetExistingColumn(t: Table, c: string, cells: seq<Cell>)
    requires WellFormed(t) && |cells| == |t.rows| && c in t.columns
    ensures var r := SetColumn(t, c, cells);
      WellFormed(r) && r.columns == t.columns &&
      (forall i :: 0 <= i < |t.rows| ==> CellAt(r, i, c) == cells[i]) &&
      (forall i, c' :: 0 <= i < |t.rows| && c' != c ==> CellAt(r, i, c') == CellAt(t, i, c'))
  {
    var r := SetColumn(t, c, cells);
    var j := IndexOf(t.columns, c);
    forall i, c' | 0 <= i < |t.rows| && c' != c
      ensures CellAt(r, i, c') == CellAt(t, i, c')
    {
      if c' in t.columns {
        assert IndexOf(t.columns, c') != j;
      }
    }
  }

  /** `SetColumnSpec` for a column the frame lacks: it is appended. */
  lemma SetNewColumn(t: Table, c: string, cells: seq<Cell>)
    requires WellFormed(t) && |cells| == |t.rows| && c !in t.columns
    ensures var r := SetColumn(t, c, cells);
      WellFormed(r) && r.columns == t.columns + [c] &&
      (forall i :: 0 <= i < |t.rows| ==> CellAt(r, i, c) == cells[i]) &&
      (forall i, c' :: 0 <= i < |t.rows| && c' != c ==> CellAt(r, i, c') == CellAt(t, i, c'))
  {
    var r := SetColumn(t, c, cells);
    assert IndexOf(r.columns, c) == |t.columns|;
    forall i, c' | 0 <= i < |t.rows| && c' != c
      ensures CellAt(r, i, c') == CellAt(t, i, c')
    {
      if c' in t.columns {
        IndexOfPrefix(r.columns, t.columns, c');
      }
    }
  }

  /** Every row receives the same ingestion time; nothing else changes. */
  lemma StampIngestTsSpec(t: Table, now: int)
    requires WellFormed(t)
    ensures var r := StampIngestTs(t, now);
      WellFormed(r) && |r.rows| == |t.rows| && "ingest_ts" in r.columns &&
      r.columns == (if "ingest_ts" in t.columns then t.columns else t.columns + ["ingest_ts"])
    ensures var r := StampIngestTs(t, now);
      forall i :: 0 <= i < |r.rows| ==> CellAt(r, i, "ingest_ts") == Stamp(now)
    ensures var r := StampIngestTs(t, now);
      forall i, c :: 0 <= i < |r.rows| && c != "ingest_ts" ==> CellAt(r, i, c) == CellAt(t, i, c)
  {
    SetColumnSpec(t, "ingest_ts", seq(|t.rows|, _ => Stamp(now)));
  }

  /** Some name of `cols` is also in `names`. */
  predicate Overlaps(cols: seq<string>, names: seq<string>)
  {
    exists x :: x in cols && x in names
  }

  lemma OverlapsSnoc(init: seq<string>, c: string, names: seq<string>)
    ensures Overlaps(init + [c], names) <==> Overlaps(init, names) || c in names
  {
    if x :| x in init + [c] && x in names {
      assert x in init || x == c;
    }
    if c in names {
      assert c in init + [c];
    }
    if x :| x in init && x in names {
      assert x in init + [c];
    }
  }

  /** The projection loop yields one column per distinct requested name, in order of
      first request. Each requested column holds the source's cells, or nulls when
      the source lacks it. The rows are the source's when some requested column
      exists in it, and there are none otherwise. */
  lemma {:induction false} ProjectShape(df: Table, cols: seq<string>)
    requires WellFormed(df) && |df.rows| > 0
    ensures var f := ProjectPrefix(df, cols);
      WellFormed(f) && f.columns == Distinct(cols)
    ensures var f := ProjectPrefix(df, cols);
      |f.rows| == if Overlaps(cols, df.columns) then |df.rows| else 0
    ensures var f := ProjectPrefix(df, cols);
      forall i, c :: 0 <= i < |f.rows| && c in cols ==> CellAt(f, i, c) == CellAt(df, i, c)
  {
    if cols != [] {
      var init := cols[..|cols| - 1];
      var c := cols[|cols| - 1];
      assert cols == init + [c];
      ProjectShape(df, init);
      ProjectStep(df, init, c);
    }
  }

  /** One more requested column keeps the shape `ProjectShape` describes. */
  lemma ProjectStep(df: Table, init: seq<string>, c: string)
    requires WellFormed(df) && |df.rows| > 0
    requires var f := ProjectPrefix(df, init);
      WellFormed(f) && f.columns == Distinct(init) &&
      |f.rows| == (if Overlaps(init, df.columns) then |df.rows| else 0) &&
      forall i, x :: 0 <= i < |f.rows| && x in init ==> CellAt(f, i, x) == CellAt(df, i, x)
    ensures var cols := init + [c]; var f := ProjectPrefix(df, cols);
      WellFormed(f) && f.columns == Distinct(cols) &&
      |f.rows| == (if Overlaps(cols, df.columns) then |df.rows| else 0) &&
      forall i, x :: 0 <= i < |f.rows| && x in cols ==> CellAt(f, i, x) == CellAt(df, i, x)
  {
    if c in df.columns {
      ProjectPresent(df, init, c);
    } else {
      ProjectAbsent(df, init, c);
    }
  }

  /** `ProjectStep` for a requested column the source has: its cells are copied in. */
  lemma ProjectPresent(df: Table, init: seq<string>, c: string)
    requires WellFormed(df) && |df.rows| > 0
    requires var f := ProjectPrefix(df, init);
      WellFormed(f) && f.columns == Distinct(init) &&
      |f.rows| == (if Overlaps(init, df.columns) then |df.rows| else 0) &&
      forall i, x :: 0 <= i < |f.rows| && x in init ==> CellAt(f, i, x) == CellAt(df, i, x)
    requires c in df.columns
    ensures var cols := init + [c]; var f := ProjectPrefix(df, cols);
      WellFormed(f) && f.columns == Distinct(cols) &&
      |f.rows| == (if Overlaps(cols, df.columns) then |df.rows| else 0) &&
      forall i, x :: 0 <= i < |f.rows| && x in cols ==> CellAt(f, i, x) == CellAt(df, i, x)
  {
    var cols := init + [c];
    assert cols[..|cols| - 1] == init;
    var f0 := ProjectPrefix(df, init);
    var col := Column(df, c);
    var g := if |f0.rows| == 0 then Table(f0.columns, seq(|col|, _ => seq(|f0.columns|, _ => Null))) else f0;
    assert WellFormed(g);
    assert forall i, x :: 0 <= i < |g.rows| && x in init ==> CellAt(g, i, x) == CellAt(df, i, x) by {
      forall i, x | 0 <= i < |g.rows| && x in init ensures CellAt(g, i, x) == CellAt(df, i, x) {
        if |f0.rows| == 0 {
          assert !Overlaps(init, df.columns);
          assert x !in df.columns;
        }
      }
    }
    var f := SetColumn(g, c, col);
    SetColumnSpec(g, c, col);
    forall i, x | 0 <= i < |f.rows| && x in cols
      ensures CellAt(f, i, x) == CellAt(df, i, x)
    {
      if x != c {
        assert x in init;
      }
    }
    assert Overlaps(cols, df.columns) by {
      assert c in cols;
    }
  }

  /** `ProjectStep` for a requested column the source lacks: a null column over the
      rows so far. */
  lemma ProjectAbsent(df: Table, init: seq<string>, c: string)
    requires WellFormed(df) && |df.rows| > 0
    requires var f := ProjectPrefix(df, init);
      WellFormed(f) && f.columns == Distinct(init) &&
      |f.rows| == (if Overlaps(init, df.columns) then |df.rows| else 0) &&
      forall i, x :: 0 <= i < |f.rows| && x in init ==> CellAt(f, i, x) == CellAt(df, i, x)
    requires c !in df.columns
    ensures var cols := init + [c]; var f := ProjectPrefix(df, cols);
      WellFormed(f) && f.columns == Distinct(cols) &&
      |f.rows| == (if Overlaps(cols, df.columns) then |df.rows| else 0) &&
      forall i, x :: 0 <= i < |f.rows| && x in cols ==> CellAt(f, i, x) == CellAt(df, i, x)
  {
    var cols := init + [c];
    assert cols[..|cols| - 1] == init;
    var f0 := ProjectPrefix(df, init);
    var f := AssignNone(f0, c);
    SetColumnSpec(f0, c, seq(|f0.rows|, _ => Null));
    forall i, x | 0 <= i < |f.rows| && x in cols
      ensures CellAt(f, i, x) == CellAt(df, i, x)
    {
      if x != c {
        assert x in init;
      }
    }
    OverlapsSnoc(init, c, df.columns);
  }

  /** Requested columns exactly, in request order, when a column list is given: a
      requested column missing from the data is all null, an unrequested one is
      dropped. Since `ingest_ts` always exists after stamping, requesting it keeps
      every row. An empty input gives a frame with no rows and no columns. */
  lemma NormalisedShape(records: seq<Record>, renameMap: RenameMap, subset: seq<string>,
                        finalColumns: seq<string>, now: int)
    ensures records == [] ==> Normalised(records, renameMap, subset, finalColumns, now) == Table([], [])
    ensures records != [] && finalColumns != [] ==>
      var r := Normalised(records, renameMap, subset, finalColumns, now);
      var stamped := StampIngestTs(Deduplicated(Renamed(records, renameMap), subset), now);
      WellFormed(r) && r.columns == Distinct(finalColumns) &&
      (|r.rows| == if exists c :: c in finalColumns && c in stamped.columns then |stamped.rows| else 0) &&
      forall i, c :: 0 <= i < |r.rows| && c in finalColumns ==> CellAt(r, i, c) == CellAt(stamped, i, c)
    ensures records != [] && "ingest_ts" in finalColumns ==>
      var r := Normalised(records, renameMap, subset, finalColumns, now);
      |r.rows| == |Deduplicated(Renamed(records, renameMap), subset).rows| &&
      forall i :: 0 <= i < |r.rows| ==> CellAt(r, i, "ingest_ts") == Stamp(now)
  {
    if records != [] {
      var t := Deduplicated(Renamed(records, renameMap), subset);
      var stamped := StampIngestTs(t, now);
      StampIngestTsSpec(t, now);
      if finalColumns != [] {
        var t0 := Renamed(records, renameMap);
        if subset != [] && AllPresent(subset, t0.columns) {
          KeepFirstNonEmpty(t0.rows, Positions(t0.columns, subset));
        }
        ProjectShape(stamped, finalColumns);
      }
    }
  }

  // ---------------------------------------------------------------------------
  // Properties of deduplication

  /** No two rows share a key tuple. */
  predicate UniqueKeys(rows: seq<seq<Cell>>, pos: seq<nat>)
  {
    forall i, j :: 0 <= i < j < |rows| ==> KeyOf(rows[i], pos) != KeyOf(rows[j], pos)
  }

  lemma {:induction false} KeepFirstNonEmpty(rows: seq<seq<Cell>>, pos: seq<nat>)
    requires rows != []
    ensures KeepFirst(rows, pos) != []
  {
    if |rows| > 1 {
      KeepFirstNonEmpty(rows[..|rows| - 1], pos);
    }
  }

  /** Every kept row is the first of its key tuple in the input. */
  lemma {:induction false} KeepFirstOnlyFirsts(rows: seq<seq<Cell>>, pos: seq<nat>)
    ensures forall x :: x in KeepFirst(rows, pos) ==>
      exists i :: 0 <= i < |rows| && rows[i] == x && FirstOfKey(rows, pos, i)
  {
    if rows != [] {
      var init := rows[..|rows| - 1];
      var k := KeepFirst(init, pos);
      KeepFirstOnlyFirsts(init, pos);
      forall x | x in KeepFirst(rows, pos)
        ensures exists i :: 0 <= i < |rows| && rows[i] == x && FirstOfKey(rows, pos, i)
      {
        if x in k {
          var i :| 0 <= i < |init| && init[i] == x && FirstOfKey(init, pos, i);
          assert rows[i] == x && FirstOfKey(rows, pos, i);
        } else {
          assert x == rows[|rows| - 1] && FirstOfKey(rows, pos, |rows| - 1);
        }
      }
    }
  }

  /** `keep='first'`: the result has unique key tuples. */
  lemma {:induction false} KeepFirstUniqueKeys(rows: seq<seq<Cell>>, pos: seq<nat>)
    ensures UniqueKeys(KeepFirst(rows, pos), pos)
  {
    if rows != [] {
      var init := rows[..|rows| - 1];
      var last := rows[|rows| - 1];
      var k := KeepFirst(init, pos);
      KeepFirstUniqueKeys(init, pos);
      if !exists j :: 0 <= j < |init| && KeyOf(init[j], pos) == KeyOf(last, pos) {
        KeepFirstOnlyFirsts(init, pos);
        var r := k + [last];
        forall a, b | 0 <= a < b < |r| ensures KeyOf(r[a], pos) != KeyOf(r[b], pos) {
          if b == |r| - 1 {
            assert r[a] == k[a] && k[a] in k;
            var i :| 0 <= i < |init| && init[i] == r[a] && FirstOfKey(init, pos, i);
          }
        }
      }
    }
  }

  /** Every row that is the first of its key tuple is kept. */
  lemma {:induction false} KeepFirstKeepsFirsts(rows: seq<seq<Cell>>, pos: seq<nat>)
    ensures forall i :: 0 <= i < |rows| && FirstOfKey(rows, pos, i) ==> rows[i] in KeepFirst(rows, pos)
  {
    if rows != [] {
      var init := rows[..|rows| - 1];
      KeepFirstKeepsFirsts(init, pos);
      forall i | 0 <= i < |rows| && FirstOfKey(rows, pos, i) ensures rows[i] in KeepFirst(rows, pos) {
        if i < |init| {
          assert FirstOfKey(init, pos, i) && rows[i] == init[i];
        } else {
          assert !exists j :: 0 <= j < |init| && KeyOf(init[j], pos) == KeyOf(rows[i], pos);
        }
      }
    }
  }

  /** Some row of `rows` has the key tuple `key`. */
  predicate HasKey(rows: seq<seq<Cell>>, pos: seq<nat>, key: seq<Cell>)
  {
    exists x :: x in rows && KeyOf(x, pos) == key
  }

  /** Every key tuple of the input is still present after deduplication. */
  lemma KeepFirstCoversKeys(rows: seq<seq<Cell>>, pos: seq<nat>)
    ensures forall i :: 0 <= i < |rows| ==> HasKey(KeepFirst(rows, pos), pos, KeyOf(rows[i], pos))
  {
    KeepFirstKeepsFirsts(rows, pos);
    forall i | 0 <= i < |rows| ensures HasKey(KeepFirst(rows, pos), pos, KeyOf(rows[i], pos)) {
      var m := FirstIndexOfKey(rows, pos, i);
      assert rows[m] in KeepFirst(rows, pos);
    }
  }

  /** The first index whose row has the key tuple of row `i`. */
  ghost function FirstIndexOfKey(rows: seq<seq<Cell>>, pos: seq<nat>, i: nat): (m: nat)
    requires i < |rows|
    ensures m <= i && KeyOf(rows[m], pos) == KeyOf(rows[i], pos) && FirstOfKey(rows, pos, m)
  {
    if FirstOfKey(rows, pos, i) then i
    else
      var j :| 0 <= j < i && KeyOf(rows[j], pos) == KeyOf(rows[i], pos);
      FirstIndexOfKey(rows, pos, j)
  }

  /** Rows whose key tuples are already unique are kept as they are. */
  lemma {:induction false} KeepFirstOfUnique(rows: seq<seq<Cell>>, pos: seq<nat>)
    requires UniqueKeys(rows, pos)
    ensures KeepFirst(rows, pos) == rows
  {
    if rows != [] {
      var init := rows[..|rows| - 1];
      KeepFirstOfUnique(init, pos);
      assert init + [rows[|rows| - 1]] == rows;
    }
  }

  /** Deduplication runs only when every subset column exists, and then leaves unique
      key tuples over the subset columns; otherwise the frame is untouched. Running it
      again changes nothing. */
  lemma DeduplicatedSpec(t: Table, subset: seq<string>)
    ensures subset == [] || !AllPresent(subset, t.columns) ==> Deduplicated(t, subset) == t
    ensures subset != [] && AllPresent(subset, t.columns) ==>
      var pos := Positions(t.columns, subset);
      var r := Deduplicated(t, subset);
      r.columns == t.columns && r.rows == KeepFirst(t.rows, pos) && UniqueKeys(r.rows, pos)
    ensures Deduplicated(Deduplicated(t, subset), subset) == Deduplicated(t, subset)
  {
    if subset != [] && AllPresent(subset, t.columns) {
      var pos := Positions(t.columns, subset);
      KeepFirstUniqueKeys(t.rows, pos);
      KeepFirstOfUnique(KeepFirst(t.rows, pos), pos);
    }
  }

  // ---------------------------------------------------------------------------
  // Properties of flattening and renaming

  /** The column names a nested object contributes under `keyString`: the joined
      name of every leaf that is not itself an object. */
  function LeafNames(keyString: string, fs: seq<Field>): set<string>
    decreases fs
  {
    if fs == [] then {}
    else
      var k := JoinKey(keyString, fs[0].name);
      (match fs[0].value
       case JObj(inner) => LeafNames(k, inner)
       case _ => {k}) + LeafNames(keyString, fs[1..])
  }

  lemma PutAllKeys(r: FlatRow, pairs: FlatRow)
    ensures forall k :: k in RowKeys(PutAll(r, pairs)) <==> k in RowKeys(r) || k in RowKeys(pairs)
  {
    forall k ensures k in RowKeys(PutAll(r, pairs)) <==> k in RowKeys(r) || k in RowKeys(pairs) {
      PutAllKey(r, pairs, k);
    }
  }

  /** `PutAllKeys` for one key. */
  lemma {:induction false} PutAllKey(r: FlatRow, pairs: FlatRow, k: string)
    ensures k in RowKeys(PutAll(r, pairs)) <==> k in RowKeys(r) || k in RowKeys(pairs)
    decreases |pairs|
  {
    if pairs != [] {
      var r1 := Put(r, pairs[0].0, pairs[0].1);
      var tail := pairs[1..];
      PutAllKey(r1, tail, k);
      assert RowKeys(pairs) == [pairs[0].0] + RowKeys(tail);
      assert k in RowKeys(r1) <==> k in RowKeys(r) || k == pairs[0].0;
    }
  }

  lemma {:induction false} FlattenFieldsKeys(keyString: string, fs: seq<Field>, acc: FlatRow)
    ensures forall k :: k in RowKeys(FlattenFields(keyString, fs, acc)) <==>
      k in RowKeys(acc) || k in LeafNames(keyString, fs)
    decreases fs
  {
    if fs != [] {
      var k := JoinKey(keyString, fs[0].name);
      match fs[0].value
      case JObj(inner) =>
        FlattenFieldsKeys(k, inner, acc);
        FlattenFieldsKeys(keyString, fs[1..], FlattenFields(k, inner, acc));
      case other =>
        FlattenFieldsKeys(keyString, fs[1..], Put(acc, k, other));
    }
  }

  lemma {:induction false} SplitLeafNames(rec: Record)
    ensures forall k :: k in LeafNames("", rec) <==>
      k in RowKeys(NonObjectFields(rec)) || k in LeafNames("", ObjectFields(rec))
  {
    if rec != [] {
      SplitLeafNames(rec[1..]);
      var f := rec[0];
      if f.value.JObj? {
        assert ObjectFields(rec) == [f] + ObjectFields(rec[1..]);
        assert ([f] + ObjectFields(rec[1..]))[1..] == ObjectFields(rec[1..]);
        var below := LeafNames(JoinKey("", f.name), f.value.fields);
        assert NonObjectFields(rec) == NonObjectFields(rec[1..]);
        assert LeafNames("", rec) == below + LeafNames("", rec[1..]);
        assert LeafNames("", ObjectFields(rec)) == below + LeafNames("", ObjectFields(rec[1..]));
      } else {
        assert NonObjectFields(rec) == [(f.name, f.value)] + NonObjectFields(rec[1..]);
        assert RowKeys(NonObjectFields(rec)) == [f.name] + RowKeys(NonObjectFields(rec[1..]));
        assert ObjectFields(rec) == ObjectFields(rec[1..]);
        assert LeafNames("", rec) == {f.name} + LeafNames("", rec[1..]);
      }
    }
  }

  /** The columns of a flattened record are exactly its leaf names: the name of each
      top-level field that is not an object, and the `_`-joined path of each leaf
      below an object field. */
  lemma FlattenRecordKeys(rec: Record)
    ensures forall k :: k in RowKeys(FlattenRecord(rec)) <==> k in LeafNames("", rec)
  {
    var top := PutAll([], NonObjectFields(rec));
    PutAllKeys([], NonObjectFields(rec));
    FlattenFieldsKeys("", ObjectFields(rec), []);
    PutAllKeys(top, FlattenFields("", ObjectFields(rec), []));
    SplitLeafNames(rec);
  }

  /** A leaf `b` of an object field `a` becomes the column `a_b`. */
  lemma NestedLeafColumn(rec: Record, j: nat, l: nat)
    requires j < |rec| && rec[j].value.JObj? && rec[j].name != ""
    requires l < |rec[j].value.fields| && !rec[j].value.fields[l].value.JObj?
    ensures rec[j].name + "_" + rec[j].value.fields[l].name in RowKeys(FlattenRecord(rec))
  {
    var inner := rec[j].value.fields;
    LeafNameOf(rec[j].name, inner, l);
    LeafNamesBelow("", rec, j);
    FlattenRecordKeys(rec);
  }

  /** The joined name of a non-object field is a leaf name. */
  lemma {:induction false} LeafNameOf(keyString: string, fs: seq<Field>, l: nat)
    requires l < |fs| && !fs[l].value.JObj?
    ensures JoinKey(keyString, fs[l].name) in LeafNames(keyString, fs)
    decreases fs
  {
    if l > 0 {
      LeafNameOf(keyString, fs[1..], l - 1);
    }
  }

  /** The leaf names below an object field are leaf names of the enclosing object. */
  lemma {:induction false} LeafNamesBelow(keyString: string, fs: seq<Field>, j: nat)
    requires j < |fs| && fs[j].value.JObj?
    ensures LeafNames(JoinKey(keyString, fs[j].name), fs[j].value.fields) <= LeafNames(keyString, fs)
    decreases fs
  {
    if j > 0 {
      LeafNamesBelow(keyString, fs[1..], j - 1);
    }
  }

  /** Some flattened row has column `c`. */
  predicate InSomeRow(rows: seq<FlatRow>, c: string)
  {
    exists i :: 0 <= i < |rows| && c in RowKeys(rows[i])
  }

  lemma {:induction false} AllKeysMembers(rows: seq<FlatRow>)
    ensures forall c :: c in AllKeys(rows) <==> InSomeRow(rows, c)
  {
    if rows != [] {
      var init := rows[..|rows| - 1];
      AllKeysMembers(init);
      forall c ensures c in AllKeys(rows) <==> InSomeRow(rows, c) {
        if InSomeRow(rows, c) {
          var i :| 0 <= i < |rows| && c in RowKeys(rows[i]);
          if i < |init| {
            assert c in RowKeys(init[i]) && InSomeRow(init, c);
          }
        }
        if InSomeRow(init, c) {
          var i :| 0 <= i < |init| && c in RowKeys(init[i]);
          assert c in RowKeys(rows[i]);
        }
      }
    }
  }

  /** `json_normalize` yields one row per record and one column per distinct leaf
      name of any record; each cell is the record's value under that name, or null
      when the record lacks it. */
  lemma JsonNormalizeShape(records: seq<Record>)
    ensures var t := JsonNormalize(records);
      WellFormed(t) && |t.rows| == |records| && NoDuplicates(t.columns)
    ensures var t := JsonNormalize(records);
      forall c :: c in t.columns <==> InSomeRow(seq(|records|, i requires 0 <= i < |records| => FlattenRecord(records[i])), c)
    ensures var t := JsonNormalize(records);
      forall i, c :: 0 <= i < |records| ==> CellAt(t, i, c) == CellOf(Lookup(FlattenRecord(records[i]), c))
  {
    var rows := seq(|records|, i requires 0 <= i < |records| => FlattenRecord(records[i]));
    var t := JsonNormalize(records);
    DistinctProperties(AllKeys(rows));
    AllKeysMembers(rows);
    forall i, c | 0 <= i < |records| ensures CellAt(t, i, c) == CellOf(Lookup(FlattenRecord(records[i]), c)) {
      if c !in t.columns {
        assert !InSomeRow(rows, c);
        assert c !in RowKeys(rows[i]);
      }
    }
  }

  /** A column named in the rename map takes the new name (the first entry for it);
      every other column keeps its name. */
  lemma {:induction false} RenameLabelSpec(m: RenameMap, c: string)
    ensures c !in MapKeys(m) ==> RenameLabel(m, c) == c
    ensures c in MapKeys(m) ==> RenameLabel(m, c) == m[IndexOf(MapKeys(m), c)].1
  {
    if m != [] {
      RenameLabelSpec(m[1..], c);
      assert MapKeys(m) == [m[0].0] + MapKeys(m[1..]);
    }
  }
}
