// The warehouse side of the load stages: an external stage over a prefix of the
// bucket, the query that picks the newest staged file, and the dimension tables
// that `TRUNCATE` and `COPY INTO` change. Each loader swallows every error it
// meets; what it reports is modelled as the error it prints.

module Warehouse {
  import opened Values
  import opened Text
  import opened ObjectStore

  /** One line of `LIST @stage`: the file's full URL and its modification time, as
      the text `LIST` shows it (`Fri, 22 Aug 2025 17:48:40 GMT`). */
  datatype StageFile = StageFile(name: string, lastModified: string)

  // ---------------------------------------------------------------------------
  // The text of a modification time

  const WeekdayNames: seq<string> := ["Mon", "Tue", "Wed", "Thu", "Fri", "Sat", "Sun"]

  /** The number of a month by its English abbreviation, 0 for any other text. */
  function MonthNumber(mon: string): (m: nat)
    ensures m <= 12
  {
    if mon == "Jan" then 1 else if mon == "Feb" then 2 else if mon == "Mar" then 3
    else if mon == "Apr" then 4 else if mon == "May" then 5 else if mon == "Jun" then 6
    else if mon == "Jul" then 7 else if mon == "Aug" then 8 else if mon == "Sep" then 9
    else if mon == "Oct" then 10 else if mon == "Nov" then 11 else if mon == "Dec" then 12
    else 0
  }

  predicate LeapYear(y: int)
  {
    y % 4 == 0 && (y % 100 != 0 || y % 400 == 0)
  }

  function DaysInMonth(y: int, m: int): int
  {
    if m == 2 then (if LeapYear(y) then 29 else 28)
    else if m == 4 || m == 6 || m == 9 || m == 11 then 30
    else 31
  }

  /** Days from 1970-01-01 to the proleptic Gregorian date `y-m-d`. */
  function DaysFromCivil(y: int, m: int, d: int): int
  {
    var y' := if m <= 2 then y - 1 else y;
    var era := y' / 400;
    var yoe := y' - era * 400;
    var mp := if m > 2 then m - 3 else m + 9;
    var doy := (153 * mp + 2) / 5 + d - 1;
    var doe := yoe * 365 + yoe / 4 - yoe / 100 + doy;
    era * 146097 + doe - 719468
  }

  /** The number written by the `n` digits of `s` from position `i`, if they are
      all digits. */
  function DigitsAt(s: string, i: nat, n: nat): Option<nat>
    requires i + n <= |s|
  {
    if AllDigits(s[i..i + n]) then Some(DigitsValue(s[i..i + n])) else None
  }

  /** The instant, in seconds since 1970-01-01 00:00:00 UTC, that a time written as
      `Dy, DD Mon YYYY HH:MM:SS GMT` denotes (the fixed-length date of section
      7.1.1.1 of RFC 7231); None for any other text. The weekday name is not checked
      against the date. */
  function HttpDateTime(s: string): Option<int>
  {
    if |s| != 29 then None
    else HttpDateFields(s[..3], s[3..5], s[5..7], s[7..8], s[8..11], s[11..12], s[12..16], s[16..17],
                        s[17..19], s[19..20], s[20..22], s[22..23], s[23..25], s[25..])
  }

  /** The pieces of a fixed-length date: the separators, a weekday and a month
      name, and digits where numbers go. */
  predicate DatePieces(wd: string, comma: string, dd: string, sp1: string, mon: string, sp2: string,
                       yyyy: string, sp3: string, hh: string, c1: string, mi: string, c2: string,
                       ss: string, gmt: string)
  {
    comma == ", " && sp1 == " " && sp2 == " " && sp3 == " " && c1 == ":" && c2 == ":" && gmt == " GMT" &&
    wd in WeekdayNames && MonthNumber(mon) != 0 &&
    AllDigits(dd) && AllDigits(yyyy) && AllDigits(hh) && AllDigits(mi) && AllDigits(ss)
  }

  /** The instant of a calendar date and time of day, when they exist. */
  function InstantOf(y: nat, mo: nat, d: nat, h: nat, m: nat, sec: nat): Option<int>
  {
    if d < 1 || d > DaysInMonth(y, mo) || h > 23 || m > 59 || sec > 59 then None
    else Some(DaysFromCivil(y, mo, d) * 86400 + h * 3600 + m * 60 + sec)
  }

  /** The instant written by the pieces of a fixed-length date. */
  function HttpDateFields(wd: string, comma: string, dd: string, sp1: string, mon: string, sp2: string,
                          yyyy: string, sp3: string, hh: string, c1: string, mi: string, c2: string,
                          ss: string, gmt: string): Option<int>
  {
    if !DatePieces(wd, comma, dd, sp1, mon, sp2, yyyy, sp3, hh, c1, mi, c2, ss, gmt) then None
    else InstantOf(DigitsValue(yyyy), MonthNumber(mon), DigitsValue(dd), DigitsValue(hh), DigitsValue(mi), DigitsValue(ss))
  }

  /** The instant a listed file was last modified, when its text is a time. */
  function ModifiedAt(f: StageFile): Option<int>
  {
    HttpDateTime(f.lastModified)
  }

  /** `a` is an earlier instant than `b`; a text that is no time comes before every
      time. */
  predicate Earlier(a: Option<int>, b: Option<int>)
  {
    b.Some? && (a.None? || a.value < b.value)
  }

  /** The URL under which a stage over `prefix` in bucket `bucket` names its files. */
  function StageUrl(bucket: string, prefix: string): string
  {
    "s3://" + bucket + "/" + prefix + "/"
  }

  /** The object behind the stage file whose name relative to the stage is `key`. */
  function StagedKey(prefix: string, key: string): string
  {
    prefix + "/" + key
  }

  /** `files` is what `LIST` shows for the stage over `prefix`: every stored object
      under `prefix + "/"`, named by its URL, with the text of its modification
      time. */
  predicate StageListingOf(b: Bucket, prefix: string, files: seq<StageFile>)
  {
    var url := StageUrl(b.name, prefix);
    (forall i :: 0 <= i < |files| ==>
       StartsWith(files[i].name, url) &&
       StagedKey(prefix, files[i].name[|url|..]) in b.objects &&
       ModifiedAt(files[i]) == Some(b.objects[StagedKey(prefix, files[i].name[|url|..])].lastModified)) &&
    (forall k :: k in b.objects && StartsWith(k, prefix + "/") ==>
       exists i :: 0 <= i < |files| && files[i].name == url + k[|prefix| + 1..])
  }

  /** The `WHERE "name" LIKE pattern` filter, or no filter at all. */
  predicate Selected(f: StageFile, filter: Option<string>)
  {
    filter.None? || Like(f.name, filter.value)
  }

  /** `ORDER BY "last_modified" DESC LIMIT 1` as written: `last_modified` is text,
      so the files are compared as strings (weekday name first, then day, month
      name, year); among equal texts, the first listed. */
  function TextLatest(files: seq<StageFile>, filter: Option<string>): Option<StageFile>
  {
    if files == [] then None
    else
      var best := TextLatest(files[..|files| - 1], filter);
      var f := files[|files| - 1];
      if Selected(f, filter) && (best.None? || LexLess(best.value.lastModified, f.lastModified)) then Some(f)
      else best
  }

  /** The listed file that passes the filter and ranks highest, the first listed
      among equals. */
  function LatestBy(files: seq<StageFile>, filter: Option<string>, rank: StageFile -> Option<int>): Option<StageFile>
  {
    if files == [] then None
    else
      var best := LatestBy(files[..|files| - 1], filter, rank);
      var f := files[|files| - 1];
      if Selected(f, filter) && (best.None? || Earlier(rank(best.value), rank(f))) then Some(f)
      else best
  }

  /** The order the query means: by the instant the text denotes (`ORDER BY
      TO_TIMESTAMP("last_modified", 'DY, DD MON YYYY HH24:MI:SS GMT') DESC`); among
      files equally new, the first listed. */
  function Newest(files: seq<StageFile>, filter: Option<string>): Option<StageFile>
  {
    LatestBy(files, filter, ModifiedAt)
  }

  /** A time written from its pieces, as `LIST` writes it. */
  function HttpDate(wd: string, dd: string, mon: string, yyyy: string, hh: string, mi: string, ss: string): string
  {
    wd + ", " + dd + " " + mon + " " + yyyy + " " + hh + ":" + mi + ":" + ss + " GMT"
  }

  /** The parser cuts a time written from pieces of the right widths back into
      those pieces. */
  lemma HttpDateTimeOfPieces(wd: string, dd: string, mon: string, yyyy: string, hh: string, mi: string, ss: string)
    requires |wd| == 3 && |dd| == 2 && |mon| == 3 && |yyyy| == 4 && |hh| == 2 && |mi| == 2 && |ss| == 2
    ensures HttpDateTime(HttpDate(wd, dd, mon, yyyy, hh, mi, ss)) ==
      HttpDateFields(wd, ", ", dd, " ", mon, " ", yyyy, " ", hh, ":", mi, ":", ss, " GMT")
  {
    var s := HttpDate(wd, dd, mon, yyyy, hh, mi, ss);
    assert s == wd + ", " + dd + " " + mon + " " + yyyy + " " + hh + ":" + mi + ":" + ss + " GMT";
    assert s[..3] == wd && s[3..5] == ", " && s[5..7] == dd && s[7..8] == " ";
    assert s[8..11] == mon && s[11..12] == " " && s[12..16] == yyyy && s[16..17] == " ";
    assert s[17..19] == hh && s[19..20] == ":" && s[20..22] == mi && s[22..23] == ":";
    assert s[23..25] == ss && s[25..] == " GMT";
  }

  lemma DigitsValueSnoc(s: string, c: char)
    requires AllDigits(s) && IsDigit(c)
    ensures AllDigits(s + [c]) && DigitsValue(s + [c]) == 10 * DigitsValue(s) + DigitValue(c)
  {
    assert (s + [c])[..|s|] == s;
  }

  /** Two files of a stage, listed in this order. */
  const FridayFile: StageFile :=
    StageFile("s3://bucket/processed/dim_location/locations_a.parquet", HttpDate("Fri", "22", "Aug", "2025", "17", "48", "40"))
  const WednesdayFile: StageFile :=
    StageFile("s3://bucket/processed/dim_location/locations_b.parquet", HttpDate("Wed", "20", "Aug", "2025", "17", "48", "40"))

  lemma DigitPairs()
    ensures AllDigits("22") && DigitsValue("22") == 22 && AllDigits("20") && DigitsValue("20") == 20
    ensures AllDigits("17") && DigitsValue("17") == 17 && AllDigits("48") && DigitsValue("48") == 48
    ensures AllDigits("40") && DigitsValue("40") == 40
  {
    DigitsValueSnoc("", '2');
    DigitsValueSnoc("2", '2');
    DigitsValueSnoc("2", '0');
    DigitsValueSnoc("", '1');
    DigitsValueSnoc("1", '7');
    DigitsValueSnoc("", '4');
    DigitsValueSnoc("4", '8');
    DigitsValueSnoc("4", '0');
    assert "" + ['2'] == "2" && "" + ['1'] == "1" && "" + ['4'] == "4";
    assert "2" + ['2'] == "22" && "2" + ['0'] == "20";
    assert "1" + ['7'] == "17" && "4" + ['8'] == "48" && "4" + ['0'] == "40";
  }

  lemma Digits2025()
    ensures AllDigits("2025") && DigitsValue("2025") == 2025
  {
    DigitPairs();
    DigitsValueSnoc("20", '2');
    DigitsValueSnoc("202", '5');
    assert "20" + ['2'] == "202" && "202" + ['5'] == "2025";
  }

  lemma Pieces2025()
    ensures "Fri" in WeekdayNames && "Wed" in WeekdayNames
    ensures MonthNumber("Aug") == 8 && DaysInMonth(2025, 8) == 31
  {
    assert WeekdayNames[4] == "Fri" && WeekdayNames[2] == "Wed";
  }

  /** The Friday text is what `LIST` shows for a file last written on Friday 22
      August 2025 at 17:48:40 GMT. */
  lemma FridayText()
    ensures FridayFile.lastModified == "Fri, 22 Aug 2025 17:48:40 GMT"
  {
  }

  /** The Wednesday text: two days earlier, at the same time of day. */
  lemma WednesdayText()
    ensures WednesdayFile.lastModified == "Wed, 20 Aug 2025 17:48:40 GMT"
  {
  }

  /** What the parser makes of a date written from these pieces of 2025. */
  lemma ParsedAugust2025(f: StageFile, wd: string, dd: string, day: nat)
    requires wd == "Fri" || wd == "Wed"
    requires (dd == "22" && day == 22) || (dd == "20" && day == 20)
    requires f.lastModified == HttpDate(wd, dd, "Aug", "2025", "17", "48", "40")
    ensures ModifiedAt(f) == InstantOf(2025, 8, day, 17, 48, 40)
  {
    HttpDateTimeOfPieces(wd, dd, "Aug", "2025", "17", "48", "40");
    Pieces2025();
    DigitPairs();
    Digits2025();
    assert DatePieces(wd, ", ", dd, " ", "Aug", " ", "2025", " ", "17", ":", "48", ":", "40", " GMT");
  }

  /** 22 August 2025 is day 20322 after 1 January 1970, and 20 August day 20320. */
  lemma August2025Instants()
    ensures InstantOf(2025, 8, 22, 17, 48, 40) == Some(1755884920)
    ensures InstantOf(2025, 8, 20, 17, 48, 40) == Some(1755712120)
  {
  }

  /** The Friday text is the instant 1755884920. */
  lemma FridayInstant()
    ensures ModifiedAt(FridayFile) == Some(1755884920)
  {
    ParsedAugust2025(FridayFile, "Fri", "22", 22);
    August2025Instants();
  }

  /** The Wednesday text is the instant 1755712120, two days earlier. */
  lemma WednesdayInstant()
    ensures ModifiedAt(WednesdayFile) == Some(1755712120)
  {
    ParsedAugust2025(WednesdayFile, "Wed", "20", 20);
    August2025Instants();
  }

  /** As text, the Friday time sorts before the Wednesday one: `F` precedes `W`. */
  lemma FridayTextFirst()
    ensures LexLess(FridayFile.lastModified, WednesdayFile.lastModified)
  {
    var fri, wed := FridayFile.lastModified, WednesdayFile.lastModified;
    assert fri[..0] == wed[..0] && fri[0] == 'F' && wed[0] == 'W';
  }

  /** The text order picks the older file: the file written on Wednesday 20 August
      sorts after the one written on Friday 22 August, because `W` follows `F`. The
      order by instant picks the Friday file. */
  lemma TextOrderPicksOlder()
    ensures ModifiedAt(WednesdayFile).Some? && ModifiedAt(FridayFile).Some?
    ensures ModifiedAt(WednesdayFile).value < ModifiedAt(FridayFile).value
    ensures TextLatest([FridayFile, WednesdayFile], None) == Some(WednesdayFile)
    ensures Newest([FridayFile, WednesdayFile], None) == Some(FridayFile)
  {
    FridayInstant();
    WednesdayInstant();
    TextLatestPicksWednesday();
    NewestPicksFriday();
  }

  lemma TextLatestPicksWednesday()
    ensures TextLatest([FridayFile, WednesdayFile], None) == Some(WednesdayFile)
  {
    FridayTextFirst();
    assert [FridayFile, WednesdayFile][..1] == [FridayFile];
    assert TextLatest([FridayFile], None) == Some(FridayFile);
  }

  lemma NewestPicksFriday()
    ensures Newest([FridayFile, WednesdayFile], None) == Some(FridayFile)
  {
    LatestOfTwo(FridayFile, WednesdayFile, ModifiedAt);
    FridayInstant();
    WednesdayInstant();
  }

  /** Of two unfiltered files, the second is chosen exactly when it ranks higher. */
  lemma LatestOfTwo(f: StageFile, g: StageFile, rank: StageFile -> Option<int>)
    ensures LatestBy([f, g], None, rank) == if Earlier(rank(f), rank(g)) then Some(g) else Some(f)
  {
    assert [f, g][..1] == [f] && [f][..0] == [];
    assert LatestBy([f], None, rank) == Some(f);
  }

  /** No file is chosen exactly when none passes the filter; the chosen file is a
      listed one that passes it, and no file that passes it ranks higher. */
  lemma {:induction false} LatestBySpec(files: seq<StageFile>, filter: Option<string>, rank: StageFile -> Option<int>)
    ensures LatestBy(files, filter, rank).None? <==> forall i :: 0 <= i < |files| ==> !Selected(files[i], filter)
    ensures LatestBy(files, filter, rank).Some? ==>
      LatestBy(files, filter, rank).value in files && Selected(LatestBy(files, filter, rank).value, filter)
    ensures LatestBy(files, filter, rank).Some? ==>
      forall i :: 0 <= i < |files| && Selected(files[i], filter) ==>
        !Earlier(rank(LatestBy(files, filter, rank).value), rank(files[i]))
  {
    if files != [] {
      var init := files[..|files| - 1];
      LatestBySpec(init, filter, rank);
      assert forall i :: 0 <= i < |init| ==> files[i] == init[i];
    }
  }

  /** The same for the order by instant: no file that passes the filter is newer
      than the one chosen. */
  lemma NewestSpec(files: seq<StageFile>, filter: Option<string>)
    ensures Newest(files, filter).None? <==> forall i :: 0 <= i < |files| ==> !Selected(files[i], filter)
    ensures Newest(files, filter).Some? ==>
      Newest(files, filter).value in files && Selected(Newest(files, filter).value, filter)
    ensures Newest(files, filter).Some? ==>
      forall i :: 0 <= i < |files| && Selected(files[i], filter) ==>
        !Earlier(ModifiedAt(Newest(files, filter).value), ModifiedAt(files[i]))
  {
    LatestBySpec(files, filter, ModifiedAt);
  }

  /** `SELECT REPLACE("name", url, '') ... LIMIT 1` then `fetchone()[0]`: the chosen
      file's name with every occurrence of the stage URL removed, or nothing when no
      row comes back. */
  function NewestKey(files: seq<StageFile>, bucket: string, prefix: string, filter: Option<string>): Option<string>
  {
    match Newest(files, filter)
    case None => None
    case Some(f) => Some(ReplaceAll(f.name, StageUrl(bucket, prefix), ""))
  }

  /** No staged file's name repeats the stage URL after it, so that `REPLACE`
      removes just the leading URL. */
  predicate UrlOnlyLeading(b: Bucket, prefix: string, files: seq<StageFile>)
  {
    forall i :: 0 <= i < |files| && StartsWith(files[i].name, StageUrl(b.name, prefix)) ==>
      !Contains(files[i].name[|StageUrl(b.name, prefix)|..], StageUrl(b.name, prefix))
  }

  /** Given the stage's real listing, the key handed to the copy names the newest
      staged object that passes the filter, provided no object's key repeats the
      stage URL after the prefix. */
  lemma NewestKeyStaged(b: Bucket, prefix: string, files: seq<StageFile>, filter: Option<string>)
    requires StageListingOf(b, prefix, files) && UrlOnlyLeading(b, prefix, files)
    ensures NewestKey(files, b.name, prefix, filter).None? <==>
      forall i :: 0 <= i < |files| ==> !Selected(files[i], filter)
    ensures NewestKey(files, b.name, prefix, filter).Some? ==>
      var key := StagedKey(prefix, NewestKey(files, b.name, prefix, filter).value);
      key in b.objects &&
      forall i :: 0 <= i < |files| && Selected(files[i], filter) ==>
        ModifiedAt(files[i]).Some? && ModifiedAt(files[i]).value <= b.objects[key].lastModified
  {
    LatestStaged(b, prefix, files, filter, ModifiedAt);
  }

  /** `NewestKeyStaged` for any order of the files that the listing agrees with. */
  lemma LatestStaged(b: Bucket, prefix: string, files: seq<StageFile>, filter: Option<string>,
                     rank: StageFile -> Option<int>)
    requires var url := StageUrl(b.name, prefix);
      forall i :: 0 <= i < |files| ==>
        StartsWith(files[i].name, url) &&
        StagedKey(prefix, files[i].name[|url|..]) in b.objects &&
        rank(files[i]) == Some(b.objects[StagedKey(prefix, files[i].name[|url|..])].lastModified)
    requires UrlOnlyLeading(b, prefix, files)
    ensures LatestBy(files, filter, rank).None? <==> forall i :: 0 <= i < |files| ==> !Selected(files[i], filter)
    ensures LatestBy(files, filter, rank).Some? ==>
      var key := StagedKey(prefix, ReplaceAll(LatestBy(files, filter, rank).value.name, StageUrl(b.name, prefix), ""));
      key in b.objects &&
      forall i :: 0 <= i < |files| && Selected(files[i], filter) ==>
        rank(files[i]).Some? && rank(files[i]).value <= b.objects[key].lastModified
  {
    LatestBySpec(files, filter, rank);
    if LatestBy(files, filter, rank).Some? {
      var f := LatestBy(files, filter, rank).value;
      var url := StageUrl(b.name, prefix);
      var j :| 0 <= j < |files| && files[j] == f;
      assert f.name == url + f.name[|url|..];
      ReplaceAllStripsPrefix(url, f.name[|url|..]);
    }
  }

  /** The table a staged parquet file holds; the statement fails on a missing,
      unreadable or non-parquet file. */
  function StagedTable(b: Bucket, path: string): Result<Table, Error>
  {
    match GetObject(b, path)
    case Err(_) => Err(SqlError)
    case Ok(doc) => if doc.Parquet? then Ok(doc.table) else Err(SqlError)
  }

  /** `$1:c` on row `i`: the row's cell under label `c`, NULL when the file has no
      such column. */
  function FieldOf(t: Table, i: nat, c: string): Cell
    requires i < |t.rows|
  {
    if c in t.columns && IndexOf(t.columns, c) < |t.rows[i]| then t.rows[i][IndexOf(t.columns, c)] else Null
  }

  /** `SELECT $1:f1, ..., $1:fn`: one row per file row, one cell per field. */
  function Projection(t: Table, fields: seq<string>): (rows: seq<seq<Cell>>)
    ensures |rows| == |t.rows|
    ensures forall i :: 0 <= i < |rows| ==> |rows[i]| == |fields|
  {
    seq(|t.rows|, i requires 0 <= i < |t.rows| =>
      seq(|fields|, j requires 0 <= j < |fields| => FieldOf(t, i, fields[j])))
  }

  lemma ProjectionCell(t: Table, fields: seq<string>, i: nat, j: nat)
    requires i < |t.rows| && j < |fields|
    ensures Projection(t, fields)[i][j] == FieldOf(t, i, fields[j])
  {
  }

  /** What a dimension table holds: its rows and the files `COPY` has loaded into
      it (the load history that a copy without `FORCE` consults). */
  datatype DimState = DimState(rows: seq<seq<Cell>>, loaded: set<string>)

  /** `COPY INTO table (...) FROM (SELECT $1:f ... FROM @stage) FILES = (key)`: the
      file's rows are appended, projected on `fields`; without `force` a file already
      in the load history is skipped. */
  function CopyFile(s: DimState, b: Bucket, prefix: string, key: string, fields: seq<string>, force: bool)
    : (Outcome<Error>, DimState)
  {
    var path := StagedKey(prefix, key);
    match StagedTable(b, path)
    case Err(e) => (Fail(e), s)
    case Ok(t) =>
      if !force && path in s.loaded then (Pass, s)
      else (Pass, DimState(s.rows + Projection(t, fields), s.loaded + {path}))
  }

  /** A forced copy loads the file whether or not it was loaded before: what it
      appends depends on the file alone. */
  lemma ForcedCopyIgnoresHistory(s: DimState, b: Bucket, prefix: string, key: string, fields: seq<string>)
    ensures var (out, s') := CopyFile(s, b, prefix, key, fields, true);
      match StagedTable(b, StagedKey(prefix, key))
      case Err(e) => out == Fail(e) && s' == s
      case Ok(t) => out == Pass && s'.rows == s.rows + Projection(t, fields) &&
                    s'.loaded == s.loaded + {StagedKey(prefix, key)}
  {
  }

  /** Without `FORCE` a second copy of the same file changes nothing. */
  lemma UnforcedCopySkipsLoaded(s: DimState, b: Bucket, prefix: string, key: string, fields: seq<string>)
    requires CopyFile(s, b, prefix, key, fields, false).0.Pass?
    ensures var s1 := CopyFile(s, b, prefix, key, fields, false).1;
      CopyFile(s1, b, prefix, key, fields, false) == (Pass, s1)
  {
  }

  /** How a dimension load ends: the table afterwards and the error it printed, if
      any. */
  datatype LoadRun = LoadRun(state: DimState, failure: Option<Error>)

  /** Connect; truncate (which also clears the load history); list the stage; pick
      the newest file passing the filter, `fetchone()[0]` raising TypeError when none
      does; copy it with `FORCE = TRUE`. Every error is caught and printed. */
  function DimLoad(s: DimState, conn: Outcome<Error>, b: Bucket, files: seq<StageFile>,
                   prefix: string, filter: Option<string>, fields: seq<string>): LoadRun
  {
    if conn.Fail? then LoadRun(s, Some(conn.error))
    else
      var empty := DimState([], {});
      match NewestKey(files, b.name, prefix, filter)
      case None => LoadRun(empty, Some(TypeError))
      case Some(key) =>
        var (out, s') := CopyFile(empty, b, prefix, key, fields, true);
        LoadRun(s', if out.Fail? then Some(out.error) else None)
  }

  /** Once connected, the load never keeps an old row: the table ends up holding
      exactly the rows of the newest file passing the filter, or nothing at all when
      no file passes it or the file cannot be read. A connection failure leaves the
      table as it was. */
  lemma DimLoadSpec(s: DimState, conn: Outcome<Error>, b: Bucket, files: seq<StageFile>,
                    prefix: string, filter: Option<string>, fields: seq<string>)
    ensures conn.Fail? ==> DimLoad(s, conn, b, files, prefix, filter, fields) == LoadRun(s, Some(conn.error))
    ensures conn.Pass? ==>
      var r := DimLoad(s, conn, b, files, prefix, filter, fields);
      match NewestKey(files, b.name, prefix, filter)
      case None => r == LoadRun(DimState([], {}), Some(TypeError))
      case Some(key) =>
        match StagedTable(b, StagedKey(prefix, key))
        case Err(e) => r == LoadRun(DimState([], {}), Some(e))
        case Ok(t) => r == LoadRun(DimState(Projection(t, fields), {StagedKey(prefix, key)}), None)
  {
    if conn.Pass? && NewestKey(files, b.name, prefix, filter).Some? {
      var key := NewestKey(files, b.name, prefix, filter).value;
      ForcedCopyIgnoresHistory(DimState([], {}), b, prefix, key, fields);
      if StagedTable(b, StagedKey(prefix, key)).Ok? {
        assert [] + Projection(StagedTable(b, StagedKey(prefix, key)).value, fields) ==
          Projection(StagedTable(b, StagedKey(prefix, key)).value, fields);
      }
    }
  }

  /** Running the load twice in a row leaves the same table as running it once: the
      truncate and the forced copy make it independent of what the table held. */
  lemma DimLoadIdempotent(s: DimState, b: Bucket, files: seq<StageFile>,
                          prefix: string, filter: Option<string>, fields: seq<string>)
    ensures var r := DimLoad(s, Pass, b, files, prefix, filter, fields);
      DimLoad(r.state, Pass, b, files, prefix, filter, fields) == r
  {
    var r := DimLoad(s, Pass, b, files, prefix, filter, fields);
    DimLoadSpec(s, Pass, b, files, prefix, filter, fields);
    DimLoadSpec(r.state, Pass, b, files, prefix, filter, fields);
  }

  /** The table holds exactly the rows of the parquet object at `k`, which is at
      least as new as every listed file passing the filter. */
  predicate LoadedNewest(b: Bucket, files: seq<StageFile>, filter: Option<string>, fields: seq<string>,
                         k: string, st: DimState)
  {
    k in b.objects && b.objects[k].doc.Parquet? &&
    st == DimState(Projection(b.objects[k].doc.table, fields), {k}) &&
    forall i :: 0 <= i < |files| && Selected(files[i], filter) ==>
      ModifiedAt(files[i]).Some? && ModifiedAt(files[i]).value <= b.objects[k].lastModified
  }

  /** Over the stage's real listing, a load that reports no error has replaced the
      table's contents with the newest staged file passing the filter; when no file
      passes it, the load reports TypeError and leaves the table empty. */
  lemma DimLoadLoadsNewest(s: DimState, b: Bucket, files: seq<StageFile>,
                           prefix: string, filter: Option<string>, fields: seq<string>)
    requires StageListingOf(b, prefix, files) && UrlOnlyLeading(b, prefix, files)
    ensures var r := DimLoad(s, Pass, b, files, prefix, filter, fields);
      r.failure.None? ==> exists k :: LoadedNewest(b, files, filter, fields, k, r.state)
    ensures (forall i :: 0 <= i < |files| ==> !Selected(files[i], filter)) ==>
      DimLoad(s, Pass, b, files, prefix, filter, fields) == LoadRun(DimState([], {}), Some(TypeError))
  {
    DimLoadSpec(s, Pass, b, files, prefix, filter, fields);
    NewestKeyStaged(b, prefix, files, filter);
    var r := DimLoad(s, Pass, b, files, prefix, filter, fields);
    if r.failure.None? {
      var k := StagedKey(prefix, NewestKey(files, b.name, prefix, filter).value);
      assert LoadedNewest(b, files, filter, fields, k, r.state);
    }
  }

  /** A dimension table of the warehouse. */
  class DimTable {
    var rows: seq<seq<Cell>>
    var loaded: set<string>

    function State(): DimState
      reads this
    {
      DimState(rows, loaded)
    }

    constructor (s: DimState)
      ensures State() == s
    {
      rows, loaded := s.rows, s.loaded;
    }

    /** `TRUNCATE TABLE`: every row and the load history gone. */
    method Truncate()
      modifies this
      ensures State() == DimState([], {})
    {
      rows, loaded := [], {};
    }

    method CopyInto(b: Bucket, prefix: string, key: string, fields: seq<string>, force: bool)
      returns (out: Outcome<Error>)
      modifies this
      ensures (out, State()) == CopyFile(old(State()), b, prefix, key, fields, force)
    {
      var path := StagedKey(prefix, key);
      var t := StagedTable(b, path);
      if t.Err? {
        return Fail(t.error);
      }
      out := Pass;
      if force || path !in loaded {
        rows, loaded := rows + Projection(t.value, fields), loaded + {path};
      }
    }
  }

  /** The statement sequence of a dimension load, on a live table. */
  method LoadDimension(table: DimTable, conn: Outcome<Error>, b: Bucket, files: seq<StageFile>,
                       prefix: string, filter: Option<string>, fields: seq<string>)
    returns (failure: Option<Error>)
    modifies table
    ensures LoadRun(table.State(), failure) == DimLoad(old(table.State()), conn, b, files, prefix, filter, fields)
  {
    if conn.Fail? {
      return Some(conn.error);
    }
    table.Truncate();
    var key := NewestKey(files, b.name, prefix, filter);
    if key.None? {
      return Some(TypeError);
    }
    var out := table.CopyInto(b, prefix, key.value, fields, true);
    failure := if out.Fail? then Some(out.error) else None;
  }
}
