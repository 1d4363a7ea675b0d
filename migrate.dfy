/** The schema migration runner: which files it runs, in which order, what
    it records in `schema_version`, and when it stops. File contents, their
    SHA-256 digests and the outcome of running a script are inputs. */
module Migrate {
  import opened Numbers

  const SQL_SUFFIX: string := ".sql"
  /** PostgreSQL's SQLSTATE for an undefined table. */
  const UNDEFINED_TABLE: string := "42P01"

  // ----------------------------------------------------------- file names

  predicate EndsWith(s: string, suffix: string)
  {
    |suffix| <= |s| && s[|s| - |suffix|..] == suffix
  }

  /** The directory listing filtered to the `.sql` files, in listing order. */
  function SqlFiles(files: seq<string>): (r: seq<string>)
    ensures forall f :: f in r <==> f in files && EndsWith(f, SQL_SUFFIX)
    ensures |r| <= |files|
  {
    if files == [] then []
    else (if EndsWith(files[0], SQL_SUFFIX) then [files[0]] else []) + SqlFiles(files[1..])
  }

  /** The filter keeps listing order and multiplicity: filtering a
      concatenation filters each part in turn, and one file is kept exactly
      when it ends in `.sql`. */
  lemma {:induction false} SqlFilesOrder(a: seq<string>, b: seq<string>)
    ensures SqlFiles(a + b) == SqlFiles(a) + SqlFiles(b)
    ensures forall f :: SqlFiles([f]) == if EndsWith(f, SQL_SUFFIX) then [f] else []
    decreases |a|
  {
    if a == [] {
      assert a + b == b;
    } else {
      assert (a + b)[0] == a[0];
      assert (a + b)[1..] == a[1..] + b;
      SqlFilesOrder(a[1..], b);
      var head := if EndsWith(a[0], SQL_SUFFIX) then [a[0]] else [];
      assert head + (SqlFiles(a[1..]) + SqlFiles(b)) == (head + SqlFiles(a[1..])) + SqlFiles(b);
    }
    forall f | true
      ensures SqlFiles([f]) == if EndsWith(f, SQL_SUFFIX) then [f] else []
    {
      SqlFilesOne(f);
    }
  }

  lemma SqlFilesOne(f: string)
    ensures SqlFiles([f]) == if EndsWith(f, SQL_SUFFIX) then [f] else []
  {
    assert [f][1..] == [];
  }

  /** Whether `/V(\d+)__/` matches at position `p`, and its digits if so;
      digits are followed by `_`, so the greedy `\d+` cannot backtrack. */
  function VersionAt(s: string, p: nat): (r: Option<string>)
    ensures r.Some? ==> |r.value| > 0 && AllDigits(r.value)
    ensures r.Some? ==> p + 3 + |r.value| <= |s| && s[p] == 'V' && s[p + 1..p + 1 + |r.value|] == r.value
                        && s[p + 1 + |r.value|] == '_' && s[p + 2 + |r.value|] == '_'
  {
    if p < |s| && s[p] == 'V' then
      var n := DigitRun(s[p + 1..]);
      if n > 0 && p + 3 + n <= |s| && s[p + 1 + n] == '_' && s[p + 2 + n] == '_' then
        assert s[p + 1..p + 1 + n] == s[p + 1..][..n];
        Some(s[p + 1..p + 1 + n])
      else None
    else None
  }

  /** The digits of the leftmost match of `/V(\d+)__/` from `p` on. */
  function VersionFrom(s: string, p: nat): (r: Option<string>)
    ensures r.Some? ==> |r.value| > 0 && AllDigits(r.value)
    decreases |s| - p
  {
    if p >= |s| then None
    else if VersionAt(s, p).Some? then VersionAt(s, p)
    else VersionFrom(s, p + 1)
  }

  /** `file.match(/V(\d+)__/)[1]`, `None` when there is no match (and the
      indexing throws). */
  function Version(file: string): (r: Option<string>)
    ensures r.Some? ==> |r.value| > 0 && AllDigits(r.value)
  {
    VersionFrom(file, 0)
  }

  /** `.` in a pattern without the `s` flag stops at a line terminator. */
  predicate IsLineTerminator(c: char)
  {
    c == '\n' || c == '\r' || c == '\U{2028}' || c == '\U{2029}'
  }

  function LineRun(s: string): (n: nat)
    ensures n <= |s|
    ensures forall i :: 0 <= i < n ==> !IsLineTerminator(s[i])
    ensures n < |s| ==> IsLineTerminator(s[n])
  {
    if |s| == 0 || IsLineTerminator(s[0]) then 0 else 1 + LineRun(s[1..])
  }

  /** `.sql` starts at `k` of `line`, with at least one character before. */
  predicate SqlAt(line: string, k: nat)
  {
    1 <= k && k + 4 <= |line| && line[k..k + 4] == SQL_SUFFIX
  }

  /** The last position at most `upto` where `.sql` starts: where the greedy
      `(.+)` gives back just enough for `\.sql` to match. */
  function LastSql(line: string, upto: nat): (r: Option<nat>)
    ensures r.Some? ==> r.value <= upto && SqlAt(line, r.value)
    ensures forall k :: (if r.Some? then r.value < k else 1 <= k) && k <= upto ==> !SqlAt(line, k)
    decreases upto
  {
    if upto == 0 then None
    else if SqlAt(line, upto) then Some(upto)
    else LastSql(line, upto - 1)
  }

  /** The group of `/V\d+__(.+)\.sql/` when the match starts at `p`. */
  function CaptureAt(s: string, p: nat): Option<string>
  {
    var version := VersionAt(s, p);
    if version.None? then None
    else
      var q := p + 3 + |version.value|;
      var line := s[q..][..LineRun(s[q..])];
      var end := LastSql(line, |line|);
      if end.None? then None else Some(line[..end.value])
  }

  /** The leftmost match of the description pattern from `p` on. */
  function CaptureFrom(s: string, p: nat): Option<string>
    decreases |s| - p
  {
    if p >= |s| then None
    else if CaptureAt(s, p).Some? then CaptureAt(s, p)
    else CaptureFrom(s, p + 1)
  }

  /** `replace(/_/g, ' ')`. */
  function Spaced(text: string): (r: string)
    ensures |r| == |text|
    ensures forall i :: 0 <= i < |text| ==> r[i] == if text[i] == '_' then ' ' else text[i]
  {
    seq(|text|, i requires 0 <= i < |text| => if text[i] == '_' then ' ' else text[i])
  }

  /** The description of a migration file, `None` when the pattern does not
      match (and the indexing throws). */
  function Description(file: string): Option<string>
  {
    var captured := CaptureFrom(file, 0);
    if captured.None? then None else Some(Spaced(captured.value))
  }

  /** A file named `V<digits>__<body>.sql` has version `<digits>` and, when
      the body is on one line, description `<body>` with `_` read as space. */
  lemma FileNameRoundTrip(digits: string, body: string)
    requires |digits| > 0 && AllDigits(digits)
    requires |body| > 0 && OneLine(body)
    ensures Version("V" + digits + "__" + body + SQL_SUFFIX) == Some(digits)
    ensures Description("V" + digits + "__" + body + SQL_SUFFIX) == Some(Spaced(body))
  {
    var tail := body + SQL_SUFFIX;
    var file := "V" + digits + "__" + tail;
    assert "V" + digits + "__" + body + SQL_SUFFIX == file by {
      assert "V" + digits + "__" + body + SQL_SUFFIX == ("V" + digits + "__") + (body + SQL_SUFFIX);
    }
    assert file[1..] == digits + ("__" + tail);
    DigitRunOf(digits, "__" + tail);
    var q := 3 + |digits|;
    assert file[1..1 + |digits|] == digits;
    assert VersionAt(file, 0) == Some(digits);
    assert file[q..] == tail;
    TailRun(body);
    assert tail[..LineRun(tail)] == tail;
    assert SqlAt(tail, |body|) by {
      assert tail[|body|..|body| + 4] == SQL_SUFFIX;
    }
    assert LastSql(tail, |tail|) == Some(|body|) by {
      LastSqlAtEnd(tail, |body|);
    }
    assert tail[..|body|] == body;
    assert CaptureAt(file, 0) == Some(body);
  }

  /** No line terminator anywhere in `s`. */
  predicate OneLine(s: string)
  {
    forall i :: 0 <= i < |s| ==> !IsLineTerminator(s[i])
  }

  lemma OneLineConcat(a: string, b: string)
    requires OneLine(a) && OneLine(b)
    ensures OneLine(a + b)
  {
    forall i | 0 <= i < |a + b|
      ensures !IsLineTerminator((a + b)[i])
    {
      if i >= |a| {
        assert (a + b)[i] == b[i - |a|];
      }
    }
  }

  lemma TailRun(body: string)
    requires OneLine(body)
    ensures LineRun(body + SQL_SUFFIX) == |body| + 4
  {
    SuffixOneLine();
    OneLineConcat(body, SQL_SUFFIX);
    NoTerminatorRun(body + SQL_SUFFIX);
  }

  lemma SuffixOneLine()
    ensures OneLine(SQL_SUFFIX)
  {
    forall i | 0 <= i < |SQL_SUFFIX| ensures !IsLineTerminator(SQL_SUFFIX[i]) {
      assert SQL_SUFFIX[i] in {'.', 's', 'q', 'l'};
    }
  }

  lemma {:induction false} NoTerminatorRun(s: string)
    requires OneLine(s)
    ensures LineRun(s) == |s|
    decreases |s|
  {
    if |s| > 0 {
      assert OneLine(s[1..]) by {
        forall i | 0 <= i < |s| - 1 ensures !IsLineTerminator(s[1..][i]) {
          assert s[1..][i] == s[i + 1];
        }
      }
      NoTerminatorRun(s[1..]);
    }
  }

  /** In a line ending in `.sql`, the search from the end stops there. */
  lemma LastSqlAtEnd(line: string, k: nat)
    requires k + 4 == |line| && SqlAt(line, k)
    ensures LastSql(line, |line|) == Some(k)
  {
  }

  // ------------------------------------------------------------- ordering

  /** The numeric sort key, `parseInt` of the version digits. */
  function Key(file: string): nat
  {
    var version := Version(file);
    if version.Some? then DigitsValue(version.value) else 0
  }

  predicate SortedBy(files: seq<string>, key: string -> nat)
  {
    forall i, j :: 0 <= i < j < |files| ==> key(files[i]) <= key(files[j])
  }

  /** Place `file` after every file whose key is not greater. */
  function InsertBy(file: string, sorted: seq<string>, key: string -> nat): (r: seq<string>)
    ensures multiset(r) == multiset(sorted) + multiset{file}
    ensures forall x :: x in r ==> x in sorted || x == file
    decreases |sorted|
  {
    if sorted == [] then [file]
    else if key(file) < key(sorted[0]) then [file] + sorted
    else
      assert sorted == [sorted[0]] + sorted[1..];
      [sorted[0]] + InsertBy(file, sorted[1..], key)
  }

  lemma {:induction false} InsertBySorted(file: string, sorted: seq<string>, key: string -> nat)
    requires SortedBy(sorted, key)
    ensures SortedBy(InsertBy(file, sorted, key), key)
    decreases |sorted|
  {
    if sorted != [] && key(sorted[0]) <= key(file) {
      var rest := InsertBy(file, sorted[1..], key);
      InsertBySorted(file, sorted[1..], key);
      forall x | x in rest
        ensures key(sorted[0]) <= key(x)
      {
        if x != file {
          var k :| 0 <= k < |sorted| - 1 && sorted[1..][k] == x;
          assert sorted[k + 1] == x;
        }
      }
      SortedCons(sorted[0], rest, key);
    }
  }

  /** A file whose key is at most every key of a sorted list may go first. */
  lemma SortedCons(file: string, rest: seq<string>, key: string -> nat)
    requires SortedBy(rest, key)
    requires forall x :: x in rest ==> key(file) <= key(x)
    ensures SortedBy([file] + rest, key)
  {
    var r := [file] + rest;
    forall i, j | 0 <= i < j < |r|
      ensures key(r[i]) <= key(r[j])
    {
      assert r[j] == rest[j - 1];
      if i > 0 {
        assert r[i] == rest[i - 1];
      }
    }
  }

  /** A stable insertion sort by `key`: each file goes after the earlier
      files with the same key. */
  function SortBy(files: seq<string>, key: string -> nat): (r: seq<string>)
    ensures multiset(r) == multiset(files)
    ensures SortedBy(r, key)
    decreases |files|
  {
    if files == [] then []
    else
      var prefix := files[..|files| - 1];
      assert files == prefix + [files[|files| - 1]];
      InsertBySorted(files[|files| - 1], SortBy(prefix, key), key);
      InsertBy(files[|files| - 1], SortBy(prefix, key), key)
  }

  /** `sort((a, b) => versionA - versionB)` on the `.sql` files: ascending
      numeric version, a permutation of its input. */
  function SortByVersion(files: seq<string>): (r: seq<string>)
    ensures multiset(r) == multiset(files)
    ensures forall i, j :: 0 <= i < j < |r| ==> Key(r[i]) <= Key(r[j])
  {
    SortBy(files, Key)
  }

  predicate AllVersioned(files: seq<string>)
  {
    forall f :: f in files ==> Version(f).Some?
  }

  // ------------------------------------------------------------- the runs

  /** A `schema_version` row; execution time, installer and the success
      flag (always true when written) are not modelled. */
  datatype AppliedRow = AppliedRow(version: string, description: string, script: string, checksum: string)

  datatype Result<+T> = Success(value: T) | Failure(code: string)

  datatype Failure =
    | Unsortable                      // the sort's comparator met a file without a version
    | LookupFailed(code: string)      // reading schema_version failed other than by its absence
    | UnversionedFile(file: string)
    | MissingDescription(file: string)
    | ChecksumMismatch(file: string)
    | ExecutionFailed(file: string)

  datatype Outcome = Completed | Failed(failure: Failure)

  /** What a run added to `schema_version`, and how it ended. */
  datatype Run = Run(recorded: seq<AppliedRow>, outcome: Outcome)

  /** getAppliedMigrations: the rows, in installation order; a missing table
      reads as no rows, any other error propagates. */
  function AppliedMigrations(lookupError: Option<string>, rows: seq<AppliedRow>): (r: Result<seq<AppliedRow>>)
    ensures lookupError.None? ==> r == Success(rows)
    ensures lookupError == Some(UNDEFINED_TABLE) ==> r == Success([])
    ensures lookupError.Some? && lookupError.value != UNDEFINED_TABLE ==> r == Failure(lookupError.value)
  {
    match lookupError
    case None => Success(rows)
    case Some(code) => if code == UNDEFINED_TABLE then Success([]) else Failure(code)
  }

  /** `appliedMigrations.find(m => m.version === version)`: the first row
      with that version. */
  function FindApplied(applied: seq<AppliedRow>, version: string): (r: Option<AppliedRow>)
    ensures r.Some? ==> exists i :: 0 <= i < |applied| && applied[i] == r.value && r.value.version == version
                                    && forall j :: 0 <= j < i ==> applied[j].version != version
    ensures r.None? <==> forall a :: a in applied ==> a.version != version
  {
    if applied == [] then None
    else if applied[0].version == version then Some(applied[0])
    else FindApplied(applied[1..], version)
  }

  /** What the loop does with one file. */
  datatype Visit = Skip | Record(row: AppliedRow) | Stop(failure: Failure)

  function VisitFile(file: string, applied: seq<AppliedRow>, checksum: string -> string,
                     succeeds: string -> bool): Visit
  {
    var version := Version(file);
    if version.None? then Stop(UnversionedFile(file))
    else
      var description := Description(file);
      if description.None? then Stop(MissingDescription(file))
      else
        var found := FindApplied(applied, version.value);
        if found.Some? then
          if found.value.checksum != checksum(file) then Stop(ChecksumMismatch(file)) else Skip
        else if succeeds(file) then Record(AppliedRow(version.value, description.value, file, checksum(file)))
        else Stop(ExecutionFailed(file))
  }

  /** What one file leads to: no version or no description stops the run;
      a version already applied is skipped when the checksum of its first
      applied row matches and stops the run otherwise; a new version is
      recorded when its script succeeds and stops the run when it fails. */
  lemma VisitRules(file: string, applied: seq<AppliedRow>, checksum: string -> string, succeeds: string -> bool)
    ensures var v := VisitFile(file, applied, checksum, succeeds);
      && (Version(file).None? ==> v == Stop(UnversionedFile(file)))
      && (Version(file).Some? && Description(file).None? ==> v == Stop(MissingDescription(file)))
      && (Version(file).Some? && Description(file).Some? ==>
            var found := FindApplied(applied, Version(file).value);
            && (found.Some? && found.value.checksum != checksum(file) ==> v == Stop(ChecksumMismatch(file)))
            && (found.Some? && found.value.checksum == checksum(file) ==> v == Skip)
            && (found.None? && succeeds(file) ==>
                  v == Record(AppliedRow(Version(file).value, Description(file).value, file, checksum(file))))
            && (found.None? && !succeeds(file) ==> v == Stop(ExecutionFailed(file))))
  {
  }

  /** A version already applied is never executed again: what happens to its
      file does not depend on how the script would run, and it is neither
      recorded nor reported as a failed execution. */
  lemma AppliedNotExecuted(file: string, applied: seq<AppliedRow>, checksum: string -> string,
                           succeeds: string -> bool, succeeds': string -> bool)
    requires Version(file).Some? && FindApplied(applied, Version(file).value).Some?
    ensures VisitFile(file, applied, checksum, succeeds) == VisitFile(file, applied, checksum, succeeds')
    ensures !VisitFile(file, applied, checksum, succeeds).Record?
    ensures VisitFile(file, applied, checksum, succeeds) != Stop(ExecutionFailed(file))
  {
  }

  /** The loop over the ordered files against the applied rows read once
      before it. */
  function RunFiles(files: seq<string>, applied: seq<AppliedRow>, checksum: string -> string,
                    succeeds: string -> bool): Run
    decreases |files|
  {
    if files == [] then Run([], Completed)
    else
      match VisitFile(files[0], applied, checksum, succeeds)
      case Stop(failure) => Run([], Failed(failure))
      case Skip => RunFiles(files[1..], applied, checksum, succeeds)
      case Record(row) =>
        var rest := RunFiles(files[1..], applied, checksum, succeeds);
        Run([row] + rest.recorded, rest.outcome)
  }

  /** migrate, from the directory listing and the stored rows. */
  function Plan(files: seq<string>, lookupError: Option<string>, rows: seq<AppliedRow>,
                checksum: string -> string, succeeds: string -> bool): Run
  {
    var sqlFiles := SqlFiles(files);
    if |sqlFiles| >= 2 && !AllVersioned(sqlFiles) then Run([], Failed(Unsortable))
    else
      var applied := AppliedMigrations(lookupError, rows);
      if applied.Failure? then Run([], Failed(LookupFailed(applied.code)))
      else RunFiles(SortByVersion(sqlFiles), applied.value, checksum, succeeds)
  }

  // ------------------------------------------------------------ properties

  /** Running two lists one after the other: a failure in the first ends
      the run there, with nothing from the second executed; otherwise the
      rows of both are recorded in order. */
  lemma {:induction false} RunAppend(first: seq<string>, second: seq<string>, applied: seq<AppliedRow>,
                                     checksum: string -> string, succeeds: string -> bool)
    ensures var a := RunFiles(first, applied, checksum, succeeds);
      var b := RunFiles(second, applied, checksum, succeeds);
      RunFiles(first + second, applied, checksum, succeeds)
        == if a.outcome.Failed? then a else Run(a.recorded + b.recorded, b.outcome)
    decreases |first|
  {
    if first == [] {
      assert first + second == second;
    } else {
      assert (first + second)[0] == first[0];
      assert (first + second)[1..] == first[1..] + second;
      RunAppend(first[1..], second, applied, checksum, succeeds);
      match VisitFile(first[0], applied, checksum, succeeds)
      case Stop(_) =>
      case Skip =>
      case Record(row) =>
        var rest := RunFiles(first[1..], applied, checksum, succeeds);
        var b := RunFiles(second, applied, checksum, succeeds);
        assert [row] + (rest.recorded + b.recorded) == ([row] + rest.recorded) + b.recorded;
    }
  }

  /** The run stops at the first file that fails: what the files before it
      recorded stays recorded, and no later file is executed. */
  lemma StopsAt(files: seq<string>, k: nat, applied: seq<AppliedRow>,
                checksum: string -> string, succeeds: string -> bool)
    requires k < |files|
    requires RunFiles(files[..k], applied, checksum, succeeds).outcome == Completed
    requires VisitFile(files[k], applied, checksum, succeeds).Stop?
    ensures RunFiles(files, applied, checksum, succeeds)
         == Run(RunFiles(files[..k], applied, checksum, succeeds).recorded,
                Failed(VisitFile(files[k], applied, checksum, succeeds).failure))
  {
    assert files == files[..k] + files[k..];
    RunAppend(files[..k], files[k..], applied, checksum, succeeds);
    assert files[k..][0] == files[k];
  }

  /** Every recorded row is for a file of the run that executed
      successfully, with its version, description and checksum, and for a
      version absent from the applied rows: an applied version is never run
      again. */
  lemma {:induction false} RecordedRows(files: seq<string>, applied: seq<AppliedRow>,
                                        checksum: string -> string, succeeds: string -> bool)
    ensures var run := RunFiles(files, applied, checksum, succeeds);
      forall row :: row in run.recorded ==>
        && row.script in files
        && succeeds(row.script)
        && Version(row.script) == Some(row.version)
        && Description(row.script) == Some(row.description)
        && row.checksum == checksum(row.script)
        && FindApplied(applied, row.version).None?
    decreases |files|
  {
    if files != [] {
      RecordedRows(files[1..], applied, checksum, succeeds);
    }
  }

  /** `f` was already applied with the same checksum, or a row records it. */
  ghost predicate Covered(f: string, applied: seq<AppliedRow>, checksum: string -> string, recorded: seq<AppliedRow>)
  {
    || (Version(f).Some? && FindApplied(applied, Version(f).value).Some?
        && FindApplied(applied, Version(f).value).value.checksum == checksum(f))
    || exists row :: row in recorded && row.script == f
  }

  /** A run that completes has, for each file, either found its version
      applied with the same checksum (and skipped it) or recorded it. */
  lemma {:induction false} CompletedCoversAll(files: seq<string>, applied: seq<AppliedRow>,
                                              checksum: string -> string, succeeds: string -> bool)
    requires RunFiles(files, applied, checksum, succeeds).outcome == Completed
    ensures forall f :: f in files ==> Covered(f, applied, checksum, RunFiles(files, applied, checksum, succeeds).recorded)
    decreases |files|
  {
    if files != [] {
      var run := RunFiles(files, applied, checksum, succeeds);
      var tail := RunFiles(files[1..], applied, checksum, succeeds);
      CompletedCoversAll(files[1..], applied, checksum, succeeds);
      assert Covered(files[0], applied, checksum, run.recorded);
      forall f | f in files[1..]
        ensures Covered(f, applied, checksum, run.recorded)
      {
        if !(Version(f).Some? && FindApplied(applied, Version(f).value).Some?
             && FindApplied(applied, Version(f).value).value.checksum == checksum(f)) {
          var row :| row in tail.recorded && row.script == f;
          assert row in run.recorded;
        }
      }
      assert forall f :: f in files ==> f == files[0] || f in files[1..];
    }
  }

  /** One row per executed file: with distinct file names, no two recorded
      rows share a script. */
  lemma {:induction false} RecordedOnce(files: seq<string>, applied: seq<AppliedRow>,
                                        checksum: string -> string, succeeds: string -> bool)
    requires forall i, j :: 0 <= i < j < |files| ==> files[i] != files[j]
    ensures var rows := RunFiles(files, applied, checksum, succeeds).recorded;
      forall i, j :: 0 <= i < j < |rows| ==> rows[i].script != rows[j].script
    decreases |files|
  {
    if files != [] {
      RecordedOnce(files[1..], applied, checksum, succeeds);
      RecordedRows(files[1..], applied, checksum, succeeds);
      assert files[0] !in files[1..];
    }
  }

  // ------------------------------------------------------------ the state

  /** The `schema_version` table. */
  class SchemaVersion {
    var rows: seq<AppliedRow>

    constructor (initial: seq<AppliedRow>)
      ensures rows == initial
    {
      rows := initial;
    }

    /** getAppliedMigrations against this table; `lookupError` is the SQLSTATE
        the query fails with, if it fails. */
    method GetAppliedMigrations(lookupError: Option<string>) returns (r: Result<seq<AppliedRow>>)
      ensures r == AppliedMigrations(lookupError, rows)
    {
      if lookupError.Some? {
        if lookupError.value == UNDEFINED_TABLE {
          return Success([]);
        }
        return Failure(lookupError.value);
      }
      return Success(rows);
    }

    /** migrate: filter and sort the listing, read the applied rows once,
        then run the files in order. */
    method Migrate(files: seq<string>, lookupError: Option<string>, checksum: string -> string,
                   succeeds: string -> bool) returns (outcome: Outcome)
      modifies this
      ensures rows == old(rows) + Plan(files, lookupError, old(rows), checksum, succeeds).recorded
      ensures outcome == Plan(files, lookupError, old(rows), checksum, succeeds).outcome
    {
      var sqlFiles := SqlFiles(files);
      if |sqlFiles| >= 2 && !AllVersioned(sqlFiles) {
        return Failed(Unsortable);
      }
      var ordered := SortByVersion(sqlFiles);
      var lookup := GetAppliedMigrations(lookupError);
      if lookup.Failure? {
        return Failed(LookupFailed(lookup.code));
      }
      outcome := RunInOrder(ordered, lookup.value, checksum, succeeds);
    }

    /** The loop of migrate: skip, run and record, or stop, file by file. */
    method RunInOrder(ordered: seq<string>, applied: seq<AppliedRow>, checksum: string -> string,
                      succeeds: string -> bool) returns (outcome: Outcome)
      modifies this
      ensures rows == old(rows) + RunFiles(ordered, applied, checksum, succeeds).recorded
      ensures outcome == RunFiles(ordered, applied, checksum, succeeds).outcome
    {
      var i := 0;
      while i < |ordered|
        invariant 0 <= i <= |ordered|
        invariant RunFiles(ordered[..i], applied, checksum, succeeds).outcome == Completed
        invariant rows == old(rows) + RunFiles(ordered[..i], applied, checksum, succeeds).recorded
      {
        var file := ordered[i];
        assert ordered[..i + 1] == ordered[..i] + [file];
        RunAppend(ordered[..i], [file], applied, checksum, succeeds);
        var version := Version(file);
        if version.None? {
          StopsAt(ordered, i, applied, checksum, succeeds);
          return Failed(UnversionedFile(file));
        }
        var description := Description(file);
        if description.None? {
          StopsAt(ordered, i, applied, checksum, succeeds);
          return Failed(MissingDescription(file));
        }
        var appliedMigration := FindApplied(applied, version.value);
        var currentChecksum := checksum(file);
        if appliedMigration.Some? {
          if appliedMigration.value.checksum != currentChecksum {
            StopsAt(ordered, i, applied, checksum, succeeds);
            return Failed(ChecksumMismatch(file));
          }
          i := i + 1;
          continue;
        }
        if succeeds(file) {
          rows := rows + [AppliedRow(version.value, description.value, file, currentChecksum)];
        } else {
          StopsAt(ordered, i, applied, checksum, succeeds);
          return Failed(ExecutionFailed(file));
        }
        i := i + 1;
      }
      assert ordered[..|ordered|] == ordered;
      outcome := Completed;
    }
  }
}
