/** The migration runner: ordered, checksummed steps, each in a transaction of its own,
    with failures and crashes anywhere between them. */
module Migrations {
  import opened Common

  datatype Entry = Entry(name: string, isDir: bool, body: string)

  datatype File = File(name: string, body: string)

  /** A row of schema_migrations; the rows stand in the order in which they were applied. */
  datatype Record = Record(name: string, checksum: string)

  datatype Db<S> = Db(schema: S, records: seq<Record>)

  type Digest = string -> string

  /** What executing a text does to a schema, or None when the database refuses it. */
  type Exec<!S> = (S, string) -> Option<S>

  // ------------------------------------------------------------ the text of a migration

  /** A blank line or a comment. */
  predicate Quiet(line: string) {
    TrimSpace(line) == "" || "--" <= TrimSpace(line)
  }

  /** The position of the first line that is not quiet, or the length. */
  function FirstLoud(lines: seq<string>): (i: nat)
    ensures i <= |lines|
  {
    if lines == [] || !Quiet(lines[0]) then 0 else 1 + FirstLoud(lines[1..])
  }

  /** One past the position of the last line that is not quiet, or zero. */
  function AfterLastLoud(lines: seq<string>): (i: nat)
    ensures i <= |lines|
  {
    if lines == [] || !Quiet(lines[|lines| - 1]) then |lines| else AfterLastLoud(lines[..|lines| - 1])
  }

  /** The positions are what they are called. */
  lemma {:induction false} FirstLoudAt(lines: seq<string>, i: nat)
    requires i <= |lines|
    ensures FirstLoud(lines) == i <==> (forall k :: 0 <= k < i ==> Quiet(lines[k])) && (i < |lines| ==> !Quiet(lines[i]))
  {
    hide Quiet;
    if lines != [] && Quiet(lines[0]) && i > 0 {
      FirstLoudAt(lines[1..], i - 1);
      assert forall k :: 0 < k < |lines| ==> lines[k] == lines[1..][k - 1];
    }
  }

  lemma {:induction false} AfterLastLoudAt(lines: seq<string>, i: nat)
    requires i <= |lines|
    ensures AfterLastLoud(lines) == i <==> (forall k :: i <= k < |lines| ==> Quiet(lines[k])) && (i > 0 ==> !Quiet(lines[i - 1]))
  {
    hide Quiet;
    if lines != [] && Quiet(lines[|lines| - 1]) && i < |lines| {
      AfterLastLoudAt(lines[..|lines| - 1], i);
      assert forall k :: 0 <= k < |lines| - 1 ==> lines[k] == lines[..|lines| - 1][k];
    }
  }

  predicate StartsTransaction(lines: seq<string>) {
    FirstLoud(lines) < |lines| && TrimSpace(lines[FirstLoud(lines)]) == "BEGIN;"
  }

  predicate EndsTransaction(lines: seq<string>) {
    AfterLastLoud(lines) > 0 && TrimSpace(lines[AfterLastLoud(lines) - 1]) == "COMMIT;"
  }

  function WithoutBegin(lines: seq<string>): seq<string> {
    if StartsTransaction(lines) then lines[..FirstLoud(lines)] + lines[FirstLoud(lines) + 1..] else lines
  }

  function WithoutCommit(lines: seq<string>): seq<string> {
    if EndsTransaction(lines) then lines[..AfterLastLoud(lines) - 1] + lines[AfterLastLoud(lines)..] else lines
  }

  function JoinLines(lines: seq<string>): string {
    if lines == [] then "" else Join(lines, '\n')
  }

  function TransactionSQL(body: string): string {
    JoinLines(WithoutCommit(WithoutBegin(Split(body, '\n'))))
  }

  /** Drops the outer BEGIN and COMMIT lines, looking past blank lines and comments. */
  method MigrationSQLForTransaction(body: string) returns (sql: string)
    ensures sql == TransactionSQL(body)
  {
    var lines := Split(body, '\n');
    lines := DropBegin(lines);
    lines := DropCommit(lines);
    sql := JoinLines(lines);
  }

  method DropBegin(lines: seq<string>) returns (rest: seq<string>)
    ensures rest == WithoutBegin(lines)
  {
    hide TrimSpace, Quiet, FirstLoud;
    var first := 0;
    while first < |lines| && Quiet(lines[first])
      invariant first <= |lines| && forall k :: 0 <= k < first ==> Quiet(lines[k])
    {
      first := first + 1;
    }
    FirstLoudAt(lines, first);
    rest := lines;
    if first < |lines| && TrimSpace(lines[first]) == "BEGIN;" {
      rest := lines[..first] + lines[first + 1..];
    }
  }

  method DropCommit(lines: seq<string>) returns (rest: seq<string>)
    ensures rest == WithoutCommit(lines)
  {
    hide TrimSpace, Quiet, AfterLastLoud;
    var last := |lines| - 1;
    while last >= 0 && Quiet(lines[last])
      invariant -1 <= last < |lines| && forall k :: last < k < |lines| ==> Quiet(lines[k])
    {
      last := last - 1;
    }
    AfterLastLoudAt(lines, last + 1);
    rest := lines;
    if last >= 0 && TrimSpace(lines[last]) == "COMMIT;" {
      rest := lines[..last] + lines[last + 1..];
    }
  }

  ghost predicate AllQuiet(lines: seq<string>) { forall k :: 0 <= k < |lines| ==> Quiet(lines[k]) }

  ghost predicate NoNewlines(lines: seq<string>) { forall k :: 0 <= k < |lines| ==> '\n' !in lines[k] }

  lemma WrapperLines()
    ensures !Quiet("BEGIN;") && !Quiet("COMMIT;") && TrimSpace("BEGIN;") == "BEGIN;" && TrimSpace("COMMIT;") == "COMMIT;"
  {
    hide TrimSpace;
    assert "BEGIN;"[0] == 'B' && "COMMIT;"[0] == 'C' && "--"[0] == '-';
    assert "BEGIN;"[5] == ';' && "COMMIT;"[6] == ';';
  }

  lemma BeginComesOff(header: seq<string>, rest: seq<string>)
    requires AllQuiet(header)
    ensures WithoutBegin(header + ["BEGIN;"] + rest) == header + rest
  {
    WrapperLines();
    hide TrimSpace, Quiet, FirstLoud;
    var lines := header + ["BEGIN;"] + rest;
    assert lines[|header|] == "BEGIN;";
    FirstLoudAt(lines, |header|);
    assert lines[..|header|] == header && lines[|header| + 1..] == rest;
  }

  lemma CommitComesOff(front: seq<string>, footer: seq<string>)
    requires AllQuiet(footer)
    ensures WithoutCommit(front + ["COMMIT;"] + footer) == front + footer
  {
    WrapperLines();
    hide TrimSpace, Quiet, AfterLastLoud;
    var lines := front + ["COMMIT;"] + footer;
    assert lines[|front|] == "COMMIT;";
    AfterLastLoudAt(lines, |front| + 1);
    assert lines[..|front|] == front && lines[|front| + 1..] == footer;
  }

  lemma UnwrapLines(header: seq<string>, body: seq<string>, footer: seq<string>)
    requires AllQuiet(header) && AllQuiet(footer)
    ensures WithoutCommit(WithoutBegin(header + ["BEGIN;"] + body + ["COMMIT;"] + footer)) == header + body + footer
  {
    hide *;
    BeginComesOff(header, body + ["COMMIT;"] + footer);
    CommitComesOff(header + body, footer);
    assert header + ["BEGIN;"] + body + ["COMMIT;"] + footer == header + ["BEGIN;"] + (body + ["COMMIT;"] + footer);
    assert header + (body + ["COMMIT;"] + footer) == header + body + ["COMMIT;"] + footer;
  }

  /** Taking off the wrapper undoes putting it on, for every body, also one that contains
      further BEGIN and COMMIT lines; quiet lines around the wrapper stay. */
  lemma UnwrapUndoesWrap(header: seq<string>, body: seq<string>, footer: seq<string>)
    requires AllQuiet(header) && AllQuiet(footer) && NoNewlines(header + body + footer)
    ensures TransactionSQL(Join(header + ["BEGIN;"] + body + ["COMMIT;"] + footer, '\n')) == JoinLines(header + body + footer)
  {
    var lines := header + ["BEGIN;"] + body + ["COMMIT;"] + footer;
    assert forall k :: 0 <= k < |lines| ==> '\n' !in lines[k] by {
      hide Quiet, WithoutBegin, WithoutCommit, Split, Join, JoinLines;
      assert '\n' !in "BEGIN;" && '\n' !in "COMMIT;";
      forall k | 0 <= k < |lines|
        ensures '\n' !in lines[k]
      {
        var n := if k <= |header| then k else if k <= |header| + |body| + 1 then k - 1 else k - 2;
        assert k != |header| && k != |header| + |body| + 1 ==> lines[k] == (header + body + footer)[n];
      }
    }
    SplitUndoesJoin(lines, '\n');
    UnwrapLines(header, body, footer);
  }

  function Size(lines: seq<string>): nat {
    if lines == [] then 0 else |lines[0]| + 1 + Size(lines[1..])
  }

  lemma {:induction false} JoinSize(lines: seq<string>)
    ensures lines != [] ==> |Join(lines, '\n')| + 1 == Size(lines)
  {
    if |lines| > 1 {
      JoinSize(lines[1..]);
    }
  }

  lemma {:induction false} SizeWithout(lines: seq<string>, i: nat)
    requires i < |lines|
    ensures Size(lines[..i] + lines[i + 1..]) == Size(lines) - |lines[i]| - 1
  {
    if i > 0 {
      SizeWithout(lines[1..], i - 1);
      assert (lines[..i] + lines[i + 1..])[1..] == lines[1..][..i - 1] + lines[1..][i..];
    } else {
      assert lines[..0] + lines[1..] == lines[1..];
    }
  }

  lemma ShorterWithout(lines: seq<string>, i: nat)
    requires i < |lines| && lines[i] != ""
    ensures |JoinLines(lines[..i] + lines[i + 1..])| < |JoinLines(lines)|
  {
    SizeWithout(lines, i);
    JoinSize(lines);
    JoinSize(lines[..i] + lines[i + 1..]);
  }

  lemma RemovingShortens(lines: seq<string>)
    ensures if StartsTransaction(lines) then |JoinLines(WithoutBegin(lines))| < |JoinLines(lines)| else WithoutBegin(lines) == lines
    ensures if EndsTransaction(lines) then |JoinLines(WithoutCommit(lines))| < |JoinLines(lines)| else WithoutCommit(lines) == lines
  {
    hide TrimSpace, JoinLines, Quiet, FirstLoud, AfterLastLoud;
    assert TrimSpace("") == "";
    if StartsTransaction(lines) {
      ShorterWithout(lines, FirstLoud(lines));
    }
    if EndsTransaction(lines) {
      ShorterWithout(lines, AfterLastLoud(lines) - 1);
    }
  }

  /** A body stays as it is exactly when its first loud line is no BEGIN and its last one
      no COMMIT. */
  lemma UnwrapChangesExactly(body: string)
    ensures TransactionSQL(body) == body <==>
              !StartsTransaction(Split(body, '\n')) && !EndsTransaction(Split(body, '\n'))
  {
    var lines := Split(body, '\n');
    JoinUndoesSplit(body, '\n');
    hide StartsTransaction, EndsTransaction, WithoutBegin, WithoutCommit, Split, Join;
    RemovingShortens(lines);
    RemovingShortens(WithoutBegin(lines));
  }

  // ------------------------------------------------------------------ the file list

  /** The number that the leading digits of a name spell. */
  function Seq(name: string): nat { DigitsValue(name[..LeadingDigits(name)]) }

  function LeadingDigits(name: string): (n: nat)
    ensures n <= |name| && AllDigits(name[..n]) && (n < |name| ==> !IsDigit(name[n]))
  {
    if name == "" || !IsDigit(name[0]) then 0
    else
      assert forall k :: 0 < k < 1 + LeadingDigits(name[1..]) ==> name[k] == name[1..][k - 1];
      1 + LeadingDigits(name[1..])
  }

  method ExtractMigrationSeq(name: string) returns (number: nat)
    ensures number == Seq(name)
  {
    number := 0;
    var i := 0;
    while i < |name| && IsDigit(name[i])
      invariant i <= LeadingDigits(name)
      invariant AllDigits(name[..i]) && number == DigitsValue(name[..i])
    {
      assert name[..i + 1][..i] == name[..i];
      number := number * 10 + (name[i] as int - '0' as int);
      i := i + 1;
    }
  }

  predicate IsMigration(e: Entry) {
    !e.isDir && |e.name| >= 4 && e.name[|e.name| - 4..] == ".sql"
  }

  function FilesOf(entries: seq<Entry>): seq<File> {
    if entries == [] then []
    else
      FilesOf(entries[..|entries| - 1])
      + if IsMigration(entries[|entries| - 1]) then [File(entries[|entries| - 1].name, entries[|entries| - 1].body)] else []
  }

  predicate InRange(f: File, maxSeq: int) { maxSeq <= 0 || Seq(f.name) <= maxSeq }

  /** The files up to a number, and the others. */
  function UpTo(files: seq<File>, maxSeq: int): seq<File> {
    if files == [] then []
    else UpTo(files[..|files| - 1], maxSeq) + if InRange(files[|files| - 1], maxSeq) then [files[|files| - 1]] else []
  }

  function Beyond(files: seq<File>, maxSeq: int): seq<File> {
    if files == [] then []
    else Beyond(files[..|files| - 1], maxSeq) + if InRange(files[|files| - 1], maxSeq) then [] else [files[|files| - 1]]
  }

  predicate ByName(a: Entry, b: Entry) { StringLess(a.name, b.name) }

  lemma UpToOneMore(files: seq<File>, f: File, maxSeq: int)
    ensures UpTo(files + [f], maxSeq) == UpTo(files, maxSeq) + if InRange(f, maxSeq) then [f] else []
    ensures Beyond(files + [f], maxSeq) == Beyond(files, maxSeq) + if InRange(f, maxSeq) then [] else [f]
  {
    assert (files + [f])[..|files|] == files;
  }

  lemma {:induction false} FilesExactly(entries: seq<Entry>, f: File)
    ensures f in FilesOf(entries) <==>
              exists i :: 0 <= i < |entries| && entries[i].name == f.name && entries[i].body == f.body && !entries[i].isDir
                          && |f.name| >= 4 && f.name[|f.name| - 4..] == ".sql"
  {
    if entries != [] {
      var front, last := entries[..|entries| - 1], entries[|entries| - 1];
      FilesExactly(front, f);
      if f in FilesOf(front) {
        var i :| 0 <= i < |front| && front[i].name == f.name && front[i].body == f.body && !front[i].isDir;
        assert entries[i] == front[i];
      }
      if i :| 0 <= i < |entries| && entries[i].name == f.name && entries[i].body == f.body && !entries[i].isDir
              && |f.name| >= 4 && f.name[|f.name| - 4..] == ".sql" {
        assert i < |front| ==> front[i] == entries[i];
      }
    }
  }

  /** A run looks at a file exactly when it lies in the directory itself, ends in .sql and,
      under a limit, has a number up to it. */
  lemma LoadsExactly(dir: seq<Entry>, maxSeq: int, f: File)
    ensures f in UpTo(FilesOf(SortBy(ByName, dir)), maxSeq) <==>
              && (exists e :: e in dir && e == Entry(f.name, false, f.body))
              && |f.name| >= 4 && f.name[|f.name| - 4..] == ".sql"
              && (maxSeq > 0 ==> Seq(f.name) <= maxSeq)
  {
    var entries := SortBy(ByName, dir);
    SameElements(entries, dir);
    FilesExactly(entries, f);
    SelectedMembers(FilesOf(entries), maxSeq);
    hide SortBy, UpTo, FilesOf, Seq;
    if f in FilesOf(entries) {
      var i :| 0 <= i < |entries| && entries[i].name == f.name && entries[i].body == f.body && !entries[i].isDir;
      assert entries[i] in dir;
    }
    if e :| e in dir && e == Entry(f.name, false, f.body) {
      var i :| 0 <= i < |entries| && entries[i] == e;
      assert entries[i].name == f.name;
    }
  }

  method LoadMigrationFiles(dir: seq<Entry>, maxSeq: int) returns (files: seq<File>)
    ensures files == UpTo(FilesOf(SortBy(ByName, dir)), maxSeq)
  {
    hide SortBy, Seq, IsMigration;
    var entries := SortBy(ByName, dir);
    files := [];
    for i := 0 to |entries|
      invariant files == UpTo(FilesOf(entries[..i]), maxSeq)
    {
      var e := entries[i];
      assert entries[..i + 1][..i] == entries[..i];
      assert FilesOf(entries[..i]) + [] == FilesOf(entries[..i]);
      if IsMigration(e) {
        var number := ExtractMigrationSeq(e.name);
        UpToOneMore(FilesOf(entries[..i]), File(e.name, e.body), maxSeq);
        if !(maxSeq > 0 && number > maxSeq) {
          files := files + [File(e.name, e.body)];
        }
      }
    }
    assert entries[..|entries|] == entries;
  }

  // ------------------------------------------------------------------------ one run

  /** Where a run is interrupted; at counts the files of the run. A crash before the
      commit looks like a refused one. */
  datatype Fault =
    | NoFault
    | LockBusy
    | TableFails
    | LoadFails
    | BeginFails(at: nat)
    | RecordFails(at: nat)
    | CommitRefused(at: nat)
    | CommitLost(at: nat)

  datatype Error = NotStarted | Modified(name: string) | BeginFailed(name: string) | ExecFailed(name: string)
    | RecordFailed(name: string) | CommitFailed(name: string)

  datatype Outcome<S> = Outcome(db: Db<S>, err: Option<Error>)

  function AppliedMap(records: seq<Record>): map<string, string> {
    if records == [] then map[] else AppliedMap(records[..|records| - 1])[records[|records| - 1].name := records[|records| - 1].checksum]
  }

  /** One migration in its own transaction. */
  function Applied<S>(db: Db<S>, f: File, exec: Exec<S>, digest: Digest, fault: Fault, at: nat): Outcome<S> {
    var result := exec(db.schema, TransactionSQL(f.body));
    if fault == BeginFails(at) then Outcome(db, Some(BeginFailed(f.name)))
    else if result.None? then Outcome(db, Some(ExecFailed(f.name)))
    else
      var after := Db(result.value, db.records + [Record(f.name, digest(f.body))]);
      if fault == RecordFails(at) then Outcome(db, Some(RecordFailed(f.name)))
      else if fault == CommitRefused(at) then Outcome(db, Some(CommitFailed(f.name)))
      else if fault == CommitLost(at) then Outcome(after, Some(CommitFailed(f.name)))
      else Outcome(after, None)
  }

  /** A run over the files from position i on, with the records it loaded at its start. */
  function RunFrom<S>(db: Db<S>, files: seq<File>, i: nat, applied: map<string, string>, exec: Exec<S>, digest: Digest, fault: Fault)
    : Outcome<S>
    requires i <= |files|
    decreases |files| - i
  {
    if i == |files| then Outcome(db, None)
    else if files[i].name in applied then
      if applied[files[i].name] != digest(files[i].body) then Outcome(db, Some(Modified(files[i].name)))
      else RunFrom(db, files, i + 1, applied, exec, digest, fault)
    else
      var step := Applied(db, files[i], exec, digest, fault, i);
      if step.err.Some? then step else RunFrom(step.db, files, i + 1, applied, exec, digest, fault)
  }

  function RunAll<S>(db: Db<S>, files: seq<File>, exec: Exec<S>, digest: Digest, fault: Fault): Outcome<S> {
    if fault.LockBusy? || fault.TableFails? || fault.LoadFails? then Outcome(db, Some(NotStarted))
    else RunFrom(db, files, 0, AppliedMap(db.records), exec, digest, fault)
  }

  class Database<!S> {
    var db: Db<S>

    constructor (db: Db<S>)
      ensures this.db == db
    {
      this.db := db;
    }

    method RunMigrationsRange(dir: seq<Entry>, maxSeq: int, exec: Exec<S>, digest: Digest, fault: Fault) returns (err: Option<Error>)
      modifies this
      ensures Outcome(db, err) == RunAll(old(db), UpTo(FilesOf(SortBy(ByName, dir)), maxSeq), exec, digest, fault)
    {
      hide TransactionSQL;
      var files := LoadMigrationFiles(dir, maxSeq);
      if fault.LockBusy? || fault.TableFails? || fault.LoadFails? {
        return Some(NotStarted);
      }
      var applied := LoadAppliedMigrations();
      for i := 0 to |files|
        invariant RunFrom(old(db), files, 0, applied, exec, digest, fault) == RunFrom(db, files, i, applied, exec, digest, fault)
      {
        if files[i].name in applied {
          if applied[files[i].name] != digest(files[i].body) {
            return Some(Modified(files[i].name));
          }
        } else {
          err := ApplyMigration(files[i], exec, digest, fault, i);
          if err.Some? {
            return;
          }
        }
      }
      return None;
    }

    method LoadAppliedMigrations() returns (applied: map<string, string>)
      ensures applied == AppliedMap(db.records)
    {
      applied := map[];
      for i := 0 to |db.records|
        invariant applied == AppliedMap(db.records[..i])
      {
        assert db.records[..i + 1][..i] == db.records[..i];
        applied := applied[db.records[i].name := db.records[i].checksum];
      }
      assert db.records[..|db.records|] == db.records;
    }

    /** All of the migration and its record, or nothing. */
    method ApplyMigration(file: File, exec: Exec<S>, digest: Digest, fault: Fault, at: nat) returns (err: Option<Error>)
      modifies this
      ensures Outcome(db, err) == Applied(old(db), file, exec, digest, fault, at)
    {
      if fault == BeginFails(at) {
        return Some(BeginFailed(file.name));
      }
      var pending := db;
      var sql := MigrationSQLForTransaction(file.body);
      var result := exec(pending.schema, sql);
      if result.None? {
        return Some(ExecFailed(file.name));
      }
      pending := pending.(schema := result.value);
      if fault == RecordFails(at) {
        return Some(RecordFailed(file.name));
      }
      pending := pending.(records := pending.records + [Record(file.name, digest(file.body))]);
      if fault == CommitRefused(at) {
        return Some(CommitFailed(file.name));
      }
      db := pending;
      err := if fault == CommitLost(at) then Some(CommitFailed(file.name)) else None;
    }
  }

  // -------------------------------------------------------------------- many runs

  function RecordsOf(files: seq<File>, digest: Digest): (records: seq<Record>)
    ensures |records| == |files|
  {
    seq(|files|, i requires 0 <= i < |files| => Record(files[i].name, digest(files[i].body)))
  }

  /** The schema after these bodies, once each and in this order. */
  function Fold<S>(schema: S, files: seq<File>, exec: Exec<S>): Option<S> {
    if files == [] then Some(schema)
    else
      match Fold(schema, files[..|files| - 1], exec)
      case Some(before) => exec(before, TransactionSQL(files[|files| - 1].body))
      case None => None
  }

  ghost predicate DistinctNames(files: seq<File>) {
    forall i, j :: 0 <= i < j < |files| ==> files[i].name != files[j].name
  }

  /** The database holds exactly the first n files of the list. */
  ghost predicate HoldsFirst<S>(db: Db<S>, start: S, files: seq<File>, n: nat, exec: Exec<S>, digest: Digest) {
    n <= |files| && db.records == RecordsOf(files[..n], digest) && Fold(start, files[..n], exec) == Some(db.schema)
  }

  lemma {:induction false} AppliedMapOfFirst(files: seq<File>, n: nat, digest: Digest)
    requires DistinctNames(files) && n <= |files|
    ensures forall i :: 0 <= i < |files| ==> (files[i].name in AppliedMap(RecordsOf(files[..n], digest)) <==> i < n)
    ensures forall i :: 0 <= i < n ==> AppliedMap(RecordsOf(files[..n], digest))[files[i].name] == digest(files[i].body)
  {
    if n > 0 {
      AppliedMapOfFirst(files, n - 1, digest);
      assert RecordsOf(files[..n], digest)[..n - 1] == RecordsOf(files[..n - 1], digest);
    }
  }

  lemma OneMoreFile<S>(db: Db<S>, start: S, files: seq<File>, n: nat, exec: Exec<S>, digest: Digest, fault: Fault)
    requires HoldsFirst(db, start, files, n, exec, digest) && n < |files|
    ensures
      var after := Applied(db, files[n], exec, digest, fault, n);
      && (after.db == db || HoldsFirst(after.db, start, files, n + 1, exec, digest))
      && (after.err.None? ==> HoldsFirst(after.db, start, files, n + 1, exec, digest))
  {
    hide TransactionSQL;
    assert files[..n + 1][..n] == files[..n];
    assert RecordsOf(files[..n + 1], digest) == RecordsOf(files[..n], digest) + [Record(files[n].name, digest(files[n].body))];
  }

  /** Exactly the first n files are recorded, with their checksums. */
  ghost predicate RecordsFirst(files: seq<File>, n: nat, applied: map<string, string>, digest: Digest) {
    && (forall k :: 0 <= k < |files| ==> (files[k].name in applied <==> k < n))
    && (forall k :: 0 <= k < n && k < |files| ==> applied[files[k].name] == digest(files[k].body))
  }

  lemma RunSkips<S>(db: Db<S>, files: seq<File>, m: nat, i: nat, n: nat, applied: map<string, string>, exec: Exec<S>, digest: Digest, fault: Fault)
    requires RecordsFirst(files, n, applied, digest) && i < n && i < m <= |files|
    ensures RunFrom(db, files[..m], i, applied, exec, digest, fault) == RunFrom(db, files[..m], i + 1, applied, exec, digest, fault)
  {
    assert files[..m][i] == files[i];
    hide Applied;
  }

  lemma RunApplies<S>(db: Db<S>, files: seq<File>, m: nat, i: nat, n: nat, applied: map<string, string>, exec: Exec<S>, digest: Digest, fault: Fault)
    requires RecordsFirst(files, n, applied, digest) && n <= i < m <= |files|
    ensures
      var step := Applied(db, files[i], exec, digest, fault, i);
      RunFrom(db, files[..m], i, applied, exec, digest, fault) ==
        if step.err.Some? then step else RunFrom(step.db, files[..m], i + 1, applied, exec, digest, fault)
  {
    assert files[..m][i] == files[i];
    hide Applied;
  }

  /** Every file before n0 is skipped and the next ones are applied in turn. */
  lemma {:induction false} RunKeepsFirst<S>(db: Db<S>, start: S, files: seq<File>, m: nat, i: nat, n0: nat, n: nat,
                                            applied: map<string, string>, exec: Exec<S>, digest: Digest, fault: Fault)
      returns (n': nat)
    requires RecordsFirst(files, n0, applied, digest) && i <= m <= |files|
    requires HoldsFirst(db, start, files, n, exec, digest) && n0 <= n && (i == n || (i <= n && n == n0))
    ensures
      var out := RunFrom(db, files[..m], i, applied, exec, digest, fault);
      n <= n' && HoldsFirst(out.db, start, files, n', exec, digest) && (out.err.None? ==> m <= n')
    decreases m - i
  {
    hide HoldsFirst, Applied, RecordsFirst;
    n' := n;
    if i == m {
    } else if i < n {
      RunSkips(db, files, m, i, n0, applied, exec, digest, fault);
      hide RunFrom;
      n' := RunKeepsFirst(db, start, files, m, i + 1, n0, n, applied, exec, digest, fault);
    } else {
      OneMoreFile(db, start, files, n, exec, digest, fault);
      RunApplies(db, files, m, i, n0, applied, exec, digest, fault);
      hide RunFrom;
      var step := Applied(db, files[n], exec, digest, fault, n);
      if step.err.None? {
        n' := RunKeepsFirst(step.db, start, files, m, i + 1, n0, n + 1, applied, exec, digest, fault);
      } else if step.db != db {
        n' := n + 1;
      }
    }
  }

  /** A run over a front part of the list, with its fault. */
  datatype Attempt = Attempt(upTo: nat, fault: Fault)

  function RunEach<S>(db: Db<S>, files: seq<File>, attempts: seq<Attempt>, exec: Exec<S>, digest: Digest): Db<S>
    requires forall k :: 0 <= k < |attempts| ==> attempts[k].upTo <= |files|
  {
    if attempts == [] then db
    else
      var last := attempts[|attempts| - 1];
      RunAll(RunEach(db, files, attempts[..|attempts| - 1], exec, digest), files[..last.upTo], exec, digest, last.fault).db
  }

  /** After any number of runs, each over the whole list or a front part of it, each
      failing or crashing anywhere or not at all, the database holds exactly the first n
      files for some n, each applied once and in order; and a run that succeeds has them
      all. */
  lemma {:induction false} AlwaysAFrontPart<S>(start: S, files: seq<File>, attempts: seq<Attempt>, exec: Exec<S>, digest: Digest)
      returns (n: nat)
    requires DistinctNames(files) && forall k :: 0 <= k < |attempts| ==> attempts[k].upTo <= |files|
    ensures
      var db := RunEach(Db(start, []), files, attempts, exec, digest);
      && HoldsFirst(db, start, files, n, exec, digest)
      && (attempts != [] ==>
           var front, last := attempts[..|attempts| - 1], attempts[|attempts| - 1];
           RunAll(RunEach(Db(start, []), files, front, exec, digest), files[..last.upTo], exec, digest, last.fault).err.None? ==>
             last.upTo <= n)
  {
    if attempts == [] {
      n := 0;
    } else {
      var front, last := attempts[..|attempts| - 1], attempts[|attempts| - 1];
      n := AlwaysAFrontPart(start, files, front, exec, digest);
      var db := RunEach(Db(start, []), files, front, exec, digest);
      if !(last.fault.LockBusy? || last.fault.TableFails? || last.fault.LoadFails?) {
        AppliedMapOfFirst(files, n, digest);
        n := RunKeepsFirst(db, start, files, last.upTo, 0, n, n, AppliedMap(db.records), exec, digest, last.fault);
      }
    }
  }

  // ------------------------------------------------------------------ runs that succeed

  /** One migration succeeds exactly when its text executes and nothing interrupts it; it
      leaves its schema and its record, or nothing, and both although it failed exactly
      when only the answer of the commit was lost. */
  lemma AppliedExactly<S>(db: Db<S>, f: File, exec: Exec<S>, digest: Digest, fault: Fault, at: nat)
    ensures
      var out, result := Applied(db, f, exec, digest, fault, at), exec(db.schema, TransactionSQL(f.body));
      && (out.err.None? <==>
           result.Some? && fault !in {BeginFails(at), RecordFails(at), CommitRefused(at), CommitLost(at)})
      && out.db == (if result.Some? && fault !in {BeginFails(at), RecordFails(at), CommitRefused(at)}
                    then Db(result.value, db.records + [Record(f.name, digest(f.body))]) else db)
      && (out.err == Some(BeginFailed(f.name)) <==> fault == BeginFails(at))
      && (out.err == Some(ExecFailed(f.name)) <==> fault != BeginFails(at) && result.None?)
      && (out.err == Some(RecordFailed(f.name)) <==> result.Some? && fault == RecordFails(at))
      && (out.err == Some(CommitFailed(f.name)) <==> result.Some? && fault in {CommitRefused(at), CommitLost(at)})
  {
    hide TransactionSQL;
  }

  lemma {:induction false} StartedRunSays<S>(db: Db<S>, files: seq<File>, i: nat, applied: map<string, string>, exec: Exec<S>, digest: Digest, fault: Fault)
    requires i <= |files|
    ensures RunFrom(db, files, i, applied, exec, digest, fault).err != Some(NotStarted)
    decreases |files| - i
  {
    hide TransactionSQL;
    if i < |files| {
      if files[i].name in applied {
        StartedRunSays(db, files, i + 1, applied, exec, digest, fault);
      } else {
        StartedRunSays(Applied(db, files[i], exec, digest, fault, i).db, files, i + 1, applied, exec, digest, fault);
      }
    }
  }

  /** A run does not start exactly when it cannot take the lock, make the table or load the
      records; then it changes nothing. */
  lemma StartsExactly<S>(db: Db<S>, files: seq<File>, exec: Exec<S>, digest: Digest, fault: Fault)
    ensures
      var out := RunAll(db, files, exec, digest, fault);
      && (out.err == Some(NotStarted) <==> fault in {LockBusy, TableFails, LoadFails})
      && (out.err == Some(NotStarted) ==> out.db == db)
  {
    StartedRunSays(db, files, 0, AppliedMap(db.records), exec, digest, fault);
    hide RunFrom, AppliedMap;
  }

  lemma {:induction false} FoldAppends<S>(schema: S, a: seq<File>, b: seq<File>, exec: Exec<S>)
    ensures Fold(schema, a + b, exec) ==
            match Fold(schema, a, exec)
            case Some(between) => Fold(between, b, exec)
            case None => None
  {
    hide TransactionSQL;
    if b == [] {
      assert a + b == a;
    } else {
      FoldAppends(schema, a, b[..|b| - 1], exec);
      assert (a + b)[..|a + b| - 1] == a + b[..|b| - 1];
    }
  }

  ghost predicate NoneModified(files: seq<File>, i: nat, applied: map<string, string>, digest: Digest) {
    forall k :: i <= k < |files| && files[k].name in applied ==> applied[files[k].name] == digest(files[k].body)
  }

  lemma {:induction false} FinishesFrom<S>(db: Db<S>, files: seq<File>, i: nat, applied: map<string, string>, exec: Exec<S>, digest: Digest)
    requires i <= |files|
    ensures
      var out, pending := RunFrom(db, files, i, applied, exec, digest, NoFault), Pending(files[i..], applied);
      && (out.err.None? <==> NoneModified(files, i, applied, digest) && Fold(db.schema, pending, exec).Some?)
      && (out.err.None? ==> out.db == Db(Fold(db.schema, pending, exec).value, db.records + RecordsOf(pending, digest)))
    decreases |files| - i
  {
    hide TransactionSQL;
    if i == |files| {
      assert files[i..] == [] && db.records + [] == db.records;
    } else {
      var f, rest := files[i], Pending(files[i + 1..], applied);
      assert files[i..][0] == f && files[i..][1..] == files[i + 1..];
      PendingFirst(files[i..], applied);
      assert NoneModified(files, i, applied, digest) <==>
               NoneModified(files, i + 1, applied, digest) && (f.name in applied ==> applied[f.name] == digest(f.body));
      hide Pending, Fold, NoneModified;
      if f.name in applied {
        assert [] + rest == rest;
        FinishesFrom(db, files, i + 1, applied, exec, digest);
      } else {
        FoldFirst(db.schema, f, rest, exec);
        FinishesFrom(Applied(db, f, exec, digest, NoFault, i).db, files, i + 1, applied, exec, digest);
        RecordsAppend([f], rest, digest);
        assert RecordsOf([f], digest) == [Record(f.name, digest(f.body))];
        Regroup(db.records, RecordsOf([f], digest), RecordsOf(rest, digest));
      }
    }
  }

  /** An undisturbed run over any database succeeds exactly when no recorded file was
      modified and the pending ones succeed in turn; then it has added exactly those, to
      the schema and to the records, in order. */
  lemma SucceedsExactly<S>(db: Db<S>, files: seq<File>, exec: Exec<S>, digest: Digest)
    ensures
      var out, pending := RunAll(db, files, exec, digest, NoFault), Pending(files, AppliedMap(db.records));
      && (out.err.None? <==>
           (forall i :: 0 <= i < |files| ==> !IsModified(db, files[i], digest)) && Fold(db.schema, pending, exec).Some?)
      && (out.err.None? ==> out.db == Db(Fold(db.schema, pending, exec).value, db.records + RecordsOf(pending, digest)))
  {
    var applied := AppliedMap(db.records);
    assert files[0..] == files;
    FinishesFrom(db, files, 0, applied, exec, digest);
    hide RunFrom, Fold, Pending, AppliedMap, RecordsOf;
  }

  lemma {:induction false} PendingAll(files: seq<File>, applied: map<string, string>)
    requires forall i :: 0 <= i < |files| ==> files[i].name !in applied
    ensures Pending(files, applied) == files
  {
    if files != [] {
      PendingAll(files[1..], applied);
    }
  }

  lemma {:induction false} PendingNone(files: seq<File>, applied: map<string, string>)
    requires forall i :: 0 <= i < |files| ==> files[i].name in applied
    ensures Pending(files, applied) == []
  {
    if files != [] {
      PendingNone(files[1..], applied);
    }
  }

  lemma PendingAfterFirst(files: seq<File>, n: nat, digest: Digest)
    requires DistinctNames(files) && n <= |files|
    ensures Pending(files, AppliedMap(RecordsOf(files[..n], digest))) == files[n..]
  {
    AppliedMapOfFirst(files, n, digest);
    hide AppliedMap, RecordsOf, Pending;
    assert RecordsFirst(files, n, AppliedMap(RecordsOf(files[..n], digest)), digest);
    hide RecordsFirst, DistinctNames;
    PendingRest(files, n, AppliedMap(RecordsOf(files[..n], digest)), digest);
  }

  lemma PendingRest(files: seq<File>, n: nat, applied: map<string, string>, digest: Digest)
    requires n <= |files| && RecordsFirst(files, n, applied, digest)
    ensures Pending(files, applied) == files[n..]
  {
    hide Pending;
    assert forall i :: 0 <= i < n ==> files[..n][i] == files[i];
    assert forall i :: 0 <= i < |files| - n ==> files[n..][i] == files[n + i];
    hide RecordsFirst;
    PendingNone(files[..n], applied);
    PendingAll(files[n..], applied);
    PendingAppends(files[..n], files[n..], applied);
    assert files[..n] + files[n..] == files && [] + files[n..] == files[n..];
  }

  /** Whatever earlier runs left behind, an undisturbed run over the whole list succeeds
      exactly when all bodies together do, and then holds them all; a second one succeeds
      and changes nothing. */
  lemma CompletesExactly<S>(db: Db<S>, start: S, files: seq<File>, n: nat, exec: Exec<S>, digest: Digest)
    requires DistinctNames(files) && HoldsFirst(db, start, files, n, exec, digest)
    ensures
      var out := RunAll(db, files, exec, digest, NoFault);
      && (out.err.None? <==> Fold(start, files, exec).Some?)
      && (out.err.None? ==> HoldsFirst(out.db, start, files, |files|, exec, digest))
      && (out.err.None? ==> RunAll(out.db, files, exec, digest, NoFault) == Outcome(out.db, None))
  {
    var out := RunAll(db, files, exec, digest, NoFault);
    assert files[..n] + files[n..] == files && files[..|files|] == files && files[|files|..] == [];
    AppliedMapOfFirst(files, n, digest);
    AppliedMapOfFirst(files, |files|, digest);
    PendingAfterFirst(files, n, digest);
    PendingAfterFirst(files, |files|, digest);
    FoldAppends(start, files[..n], files[n..], exec);
    RecordsAppend(files[..n], files[n..], digest);
    SucceedsExactly(db, files, exec, digest);
    hide RunAll, AppliedMap, RecordsOf, Pending, DistinctNames;
    if out.err.None? {
      assert Fold(out.db.schema, [], exec) == Some(out.db.schema) && out.db.records + [] == out.db.records;
      assert RecordsOf([], digest) == [];
      SucceedsExactly(out.db, files, exec, digest);
    }
  }

  // --------------------------------------------------------------- modified migrations

  ghost predicate IsModified<S>(db: Db<S>, f: File, digest: Digest) {
    f.name in AppliedMap(db.records) && AppliedMap(db.records)[f.name] != digest(f.body)
  }

  ghost predicate IsPending<S>(db: Db<S>, f: File) { f.name !in AppliedMap(db.records) }

  ghost predicate FirstModified<S>(db: Db<S>, files: seq<File>, m: nat, digest: Digest) {
    && m < |files| && IsModified(db, files[m], digest)
    && forall i :: 0 <= i < m ==> !IsModified(db, files[i], digest)
  }

  lemma {:induction false} FoldFirst<S>(schema: S, f: File, rest: seq<File>, exec: Exec<S>)
    ensures Fold(schema, [f] + rest, exec) ==
            match exec(schema, TransactionSQL(f.body))
            case Some(next) => Fold(next, rest, exec)
            case None => None
  {
    hide TransactionSQL;
    var all := [f] + rest;
    if rest == [] {
      assert all[..0] == [] && all[0] == f;
      assert Fold(schema, all[..0], exec) == Some(schema);
    } else {
      FoldFirst(schema, f, rest[..|rest| - 1], exec);
      assert all[..|all| - 1] == [f] + rest[..|rest| - 1];
    }
  }

  /** Up to the modified file a run without faults applies exactly what is pending, as
      long as each text succeeds when its turn comes. */
  lemma {:induction false} StopsAt<S>(db: Db<S>, files: seq<File>, i: nat, m: nat, applied: map<string, string>, exec: Exec<S>,
                                      digest: Digest)
    requires i <= m < |files| && files[m].name in applied && applied[files[m].name] != digest(files[m].body)
    requires forall k :: i <= k < m && files[k].name in applied ==> applied[files[k].name] == digest(files[k].body)
    requires Fold(db.schema, Pending(files[i..m], applied), exec).Some?
    ensures
      var out, pending := RunFrom(db, files, i, applied, exec, digest, NoFault), Pending(files[i..m], applied);
      && out.err == Some(Modified(files[m].name))
      && |out.db.records| == |db.records| + |pending| && (pending == [] ==> out.db == db)
    decreases m - i
  {
    hide TransactionSQL;
    if i < m {
      assert files[i..m][0] == files[i] && files[i..m][1..] == files[i + 1..m];
      PendingFirst(files[i..m], applied);
      hide Pending, Fold;
      if files[i].name in applied {
        assert [] + Pending(files[i + 1..m], applied) == Pending(files[i + 1..m], applied);
        StopsAt(db, files, i + 1, m, applied, exec, digest);
      } else {
        FoldFirst(db.schema, files[i], Pending(files[i + 1..m], applied), exec);
        StopsAt(Applied(db, files[i], exec, digest, NoFault, i).db, files, i + 1, m, applied, exec, digest);
      }
    } else {
      assert files[i..m] == [];
    }
  }

  lemma {:induction false} NothingPendingExactly(files: seq<File>, applied: map<string, string>)
    ensures Pending(files, applied) == [] <==> forall i :: 0 <= i < |files| ==> files[i].name in applied
  {
    if files != [] {
      NothingPendingExactly(files[1..], applied);
      assert forall i :: 1 <= i < |files| ==> files[i] == files[1..][i - 1];
    }
  }

  /** A file that was modified after it was applied stops the run. When the pending files
      before it succeed in turn and nothing else fails, the run leaves the database as it
      was exactly when there are none. */
  lemma ModifiedStopsExactly<S>(db: Db<S>, files: seq<File>, m: nat, exec: Exec<S>, digest: Digest)
    requires FirstModified(db, files, m, digest)
    requires Fold(db.schema, Pending(files[..m], AppliedMap(db.records)), exec).Some?
    ensures
      var out := RunAll(db, files, exec, digest, NoFault);
      && out.err == Some(Modified(files[m].name))
      && (out.db == db <==> forall i :: 0 <= i < m ==> !IsPending(db, files[i]))
  {
    var applied := AppliedMap(db.records);
    hide AppliedMap, TransactionSQL, RunFrom, Fold, Pending;
    assert files[0..m] == files[..m];
    StopsAt(db, files, 0, m, applied, exec, digest);
    NothingPendingExactly(files[..m], applied);
    assert forall i :: 0 <= i < m ==> files[..m][i] == files[i];
  }

  /** A run that stops at a modified file and has changed the database: a pending file
      comes before it. */
  lemma ModifiedAfterPending()
    ensures
      var files := [File("001_a.sql", "a"), File("002_b.sql", "b")];
      var db := Db("", [Record("002_b.sql", "c")]);
      var out := RunAll(db, files, (schema, sql) => Some(schema), body => body, NoFault);
      FirstModified(db, files, 1, body => body) && out.err == Some(Modified("002_b.sql")) && out.db != db
  {
    var files := [File("001_a.sql", "a"), File("002_b.sql", "b")];
    var db := Db("", [Record("002_b.sql", "c")]);
    var exec: Exec<string>, digest: Digest := (schema, sql) => Some(schema), body => body;
    assert db.records[..0] == [];
    var applied := AppliedMap(db.records);
    assert "001_a.sql"[2] != "002_b.sql"[2];
    assert applied == map["002_b.sql" := "c"];
    hide AppliedMap, TransactionSQL;
    assert IsPending(db, files[0]) && IsModified(db, files[1], digest);
    assert files[..1] == [files[0]] && [files[0]][..0] == [] && files[..1][1..] == [];
    assert Pending(files[..1], applied) == [files[0]] + [];
    assert Fold(db.schema, [files[0]], exec) == Some(db.schema);
    ModifiedStopsExactly(db, files, 1, exec, digest);
  }

  // ------------------------------------------------------------- up to a number, then all

  function Pending(files: seq<File>, applied: map<string, string>): seq<File> {
    if files == [] then []
    else if files[0].name in applied then Pending(files[1..], applied)
    else [files[0]] + Pending(files[1..], applied)
  }

  /** A successful run appends the records of exactly the files it found pending. */
  lemma {:induction false} SuccessAppends<S>(db: Db<S>, files: seq<File>, i: nat, applied: map<string, string>, exec: Exec<S>,
                                             digest: Digest, fault: Fault)
    requires i <= |files| && RunFrom(db, files, i, applied, exec, digest, fault).err.None?
    ensures RunFrom(db, files, i, applied, exec, digest, fault).db.records
            == db.records + RecordsOf(Pending(files[i..], applied), digest)
    decreases |files| - i
  {
    hide TransactionSQL;
    if i < |files| {
      assert files[i..][1..] == files[i + 1..];
      if files[i].name in applied {
        SuccessAppends(db, files, i + 1, applied, exec, digest, fault);
      } else {
        var step := Applied(db, files[i], exec, digest, fault, i);
        SuccessAppends(step.db, files, i + 1, applied, exec, digest, fault);
        var rest := Pending(files[i + 1..], applied);
        RecordsAppend([files[i]], rest, digest);
        assert RecordsOf([files[i]], digest) == [Record(files[i].name, digest(files[i].body))];
        Regroup(db.records, RecordsOf([files[i]], digest), RecordsOf(rest, digest));
      }
    }
  }

  lemma {:induction false} AppliedMapKeys(files: seq<File>, digest: Digest)
    ensures forall name :: name in AppliedMap(RecordsOf(files, digest)) <==> exists i :: 0 <= i < |files| && files[i].name == name
  {
    if files != [] {
      var front := files[..|files| - 1];
      AppliedMapKeys(front, digest);
      assert RecordsOf(files, digest)[..|files| - 1] == RecordsOf(front, digest);
      forall name
        ensures name in AppliedMap(RecordsOf(files, digest)) <==> exists i :: 0 <= i < |files| && files[i].name == name
      {
        assert forall i :: 0 <= i < |front| ==> front[i].name == files[i].name;
      }
    }
  }

  lemma {:induction false} SelectedMembers(files: seq<File>, maxSeq: int)
    ensures forall f :: f in UpTo(files, maxSeq) <==> f in files && InRange(f, maxSeq)
    ensures forall f :: f in Beyond(files, maxSeq) <==> f in files && !InRange(f, maxSeq)
    ensures |UpTo(files, maxSeq)| + |Beyond(files, maxSeq)| == |files|
  {
    hide Seq, InRange;
    if files != [] {
      SelectedMembers(files[..|files| - 1], maxSeq);
      assert files == files[..|files| - 1] + [files[|files| - 1]];
    }
  }

  lemma Regroup<T>(x: seq<T>, y: seq<T>, z: seq<T>)
    ensures (x + y) + z == x + (y + z)
  {}

  lemma PendingFirst(files: seq<File>, applied: map<string, string>)
    requires files != []
    ensures Pending(files, applied) == (if files[0].name in applied then [] else [files[0]]) + Pending(files[1..], applied)
  {}

  lemma {:induction false} PendingAppends(a: seq<File>, b: seq<File>, applied: map<string, string>)
    ensures Pending(a + b, applied) == Pending(a, applied) + Pending(b, applied)
  {
    if a == [] {
      assert a + b == b;
    } else {
      PendingAppends(a[1..], b, applied);
      PendingFirst(a, applied);
      PendingFirst(a + b, applied);
      var first := if a[0].name in applied then [] else [a[0]];
      hide Pending;
      assert (a + b)[1..] == a[1..] + b && (a + b)[0] == a[0];
      Regroup(first, Pending(a[1..], applied), Pending(b, applied));
    }
  }

  lemma {:induction false} PendingIsBeyond(files: seq<File>, maxSeq: int, applied: map<string, string>)
    requires forall f :: f in files ==> (f.name in applied <==> InRange(f, maxSeq))
    ensures Pending(files, applied) == Beyond(files, maxSeq)
  {
    hide InRange;
    if files != [] {
      var front, last := files[..|files| - 1], files[|files| - 1];
      assert files == front + [last] && last in files;
      PendingIsBeyond(front, maxSeq, applied);
      PendingAppends(front, [last], applied);
    }
  }

  lemma {:induction false} NothingRecorded(files: seq<File>)
    ensures Pending(files, map[]) == files
  {
    if files != [] {
      NothingRecorded(files[1..]);
    }
  }

  lemma RecordsTellFiles(a: seq<File>, b: seq<File>, files: seq<File>, digest: Digest)
    requires DistinctNames(files) && |a| == |b| && (forall f :: f in a ==> f in files) && (forall f :: f in b ==> f in files)
    requires RecordsOf(a, digest) == RecordsOf(b, digest)
    ensures a == b
  {
    forall i | 0 <= i < |a|
      ensures a[i] == b[i]
    {
      assert RecordsOf(a, digest)[i] == RecordsOf(b, digest)[i];
      assert a[i] in files && b[i] in files;
    }
  }

  /** No file up to the number comes after one beyond it. */
  ghost predicate FrontPart(files: seq<File>, maxSeq: int) {
    forall i, j :: 0 <= i < j < |files| && InRange(files[j], maxSeq) ==> InRange(files[i], maxSeq)
  }

  lemma FrontPartOneMore(files: seq<File>, last: File, maxSeq: int)
    ensures FrontPart(files + [last], maxSeq) <==>
              FrontPart(files, maxSeq) && (InRange(last, maxSeq) ==> forall f :: f in files ==> InRange(f, maxSeq))
  {
    hide InRange;
    var all := files + [last];
    if FrontPart(all, maxSeq) {
      forall i, j | 0 <= i < j < |files| && InRange(files[j], maxSeq)
        ensures InRange(files[i], maxSeq)
      {
        assert all[i] == files[i] && all[j] == files[j];
      }
      forall f | f in files && InRange(last, maxSeq)
        ensures InRange(f, maxSeq)
      {
        var i :| 0 <= i < |files| && files[i] == f;
        assert all[i] == f && all[|files|] == last;
      }
    }
  }

  lemma SplitOneMore<T>(up: seq<T>, beyond: seq<T>, front: seq<T>, last: T)
    ensures up + (beyond + [last]) == front + [last] <==> up + beyond == front
    ensures last !in beyond ==> ((up + [last]) + beyond == front + [last] <==> beyond == [] && up == front)
  {
    assert up + (beyond + [last]) == (up + beyond) + [last];
    assert (front + [last])[..|front|] == front;
    assert (up + beyond + [last])[..|up + beyond|] == up + beyond;
    if beyond != [] {
      assert ((up + [last]) + beyond)[|up| + |beyond|] == beyond[|beyond| - 1];
    } else {
      assert (up + [last]) + beyond == up + [last] && (up + [last])[..|up|] == up;
    }
  }

  lemma {:induction false} FrontPartSplits(files: seq<File>, maxSeq: int)
    ensures UpTo(files, maxSeq) + Beyond(files, maxSeq) == files <==> FrontPart(files, maxSeq)
  {
    if files == [] {
      assert UpTo(files, maxSeq) == [] && Beyond(files, maxSeq) == [];
    } else {
      hide InRange, UpTo, Beyond, FrontPart;
      FrontPartSplits(files[..|files| - 1], maxSeq);
      SplitsOneMore(files[..|files| - 1], files[|files| - 1], maxSeq);
      assert files == files[..|files| - 1] + [files[|files| - 1]];
    }
  }

  lemma SplitsOneMore(front: seq<File>, last: File, maxSeq: int)
    requires UpTo(front, maxSeq) + Beyond(front, maxSeq) == front <==> FrontPart(front, maxSeq)
    ensures UpTo(front + [last], maxSeq) + Beyond(front + [last], maxSeq) == front + [last] <==> FrontPart(front + [last], maxSeq)
  {
    hide InRange, UpTo, Beyond, FrontPart;
    var up, beyond := UpTo(front, maxSeq), Beyond(front, maxSeq);
    FrontPartOneMore(front, last, maxSeq);
    UpToOneMore(front, last, maxSeq);
    SplitOneMore(up, beyond, front, last);
    if InRange(last, maxSeq) {
      assert beyond + [] == beyond;
      SelectedMembers(front, maxSeq);
      NoneBeyond(front, maxSeq);
    } else {
      assert up + [] == up;
    }
  }

  lemma NoneBeyond(files: seq<File>, maxSeq: int)
    ensures Beyond(files, maxSeq) == [] <==> forall f :: f in files ==> InRange(f, maxSeq)
    ensures Beyond(files, maxSeq) == [] ==> UpTo(files, maxSeq) + Beyond(files, maxSeq) == UpTo(files, maxSeq)
  {
    SelectedMembers(files, maxSeq);
    hide InRange, UpTo;
    if Beyond(files, maxSeq) != [] {
      assert Beyond(files, maxSeq)[0] in files;
    } else {
      forall f | f in files
        ensures InRange(f, maxSeq)
      {
        assert f !in Beyond(files, maxSeq);
      }
    }
  }

  /** Whenever all three runs succeed: running up to a number and then everything leaves
      the same database as running everything at once, exactly when no file up to the
      number comes after one beyond it. */
  lemma UpToThenAllExactly<S>(start: S, files: seq<File>, maxSeq: int, exec: Exec<S>, digest: Digest,
                              fault1: Fault, fault2: Fault, fault3: Fault)
    requires DistinctNames(files)
    requires
      var part := RunAll(Db(start, []), UpTo(files, maxSeq), exec, digest, fault1);
      part.err.None? && RunAll(part.db, files, exec, digest, fault2).err.None?
    requires RunAll(Db(start, []), files, exec, digest, fault3).err.None?
    ensures
      var part := RunAll(Db(start, []), UpTo(files, maxSeq), exec, digest, fault1).db;
      var whole := RunAll(Db(start, []), files, exec, digest, fault3).db;
      RunAll(part, files, exec, digest, fault2).db == whole <==> FrontPart(files, maxSeq)
  {
    hide RunAll, FrontPart, UpTo, Beyond;
    RecordsDiffer(start, files, maxSeq, exec, digest, fault1, fault2, fault3);
    if FrontPart(files, maxSeq) {
      FrontPartsAgree(start, files, maxSeq, exec, digest, fault1, fault2, fault3);
    }
  }

  /** The records agree exactly when the files up to the number are a front part. */
  lemma RecordsDiffer<S>(start: S, files: seq<File>, maxSeq: int, exec: Exec<S>, digest: Digest,
                         fault1: Fault, fault2: Fault, fault3: Fault)
    requires DistinctNames(files)
    requires
      var part := RunAll(Db(start, []), UpTo(files, maxSeq), exec, digest, fault1);
      part.err.None? && RunAll(part.db, files, exec, digest, fault2).err.None?
    requires RunAll(Db(start, []), files, exec, digest, fault3).err.None?
    ensures
      var part := RunAll(Db(start, []), UpTo(files, maxSeq), exec, digest, fault1).db;
      var whole := RunAll(Db(start, []), files, exec, digest, fault3).db;
      RunAll(part, files, exec, digest, fault2).db.records == whole.records <==> FrontPart(files, maxSeq)
  {
    var first := UpTo(files, maxSeq);
    var part := RunAll(Db(start, []), first, exec, digest, fault1).db;
    SelectedMembers(files, maxSeq);
    NothingRecorded(first);
    NothingRecorded(files);
    SuccessAppends(Db(start, []), first, 0, map[], exec, digest, fault1);
    SuccessAppends(Db(start, []), files, 0, map[], exec, digest, fault3);
    hide RunFrom, InRange, UpTo, Beyond, RecordsOf, Pending;
    assert first[0..] == first && files[0..] == files;
    assert part.records == RecordsOf(first, digest);
    SecondRun(part, files, maxSeq, exec, digest, fault2);
    RecordsAppend(first, Beyond(files, maxSeq), digest);
    FrontPartSplits(files, maxSeq);
    if RecordsOf(first + Beyond(files, maxSeq), digest) == RecordsOf(files, digest) {
      RecordsTellFiles(first + Beyond(files, maxSeq), files, files, digest);
    }
  }

  /** Two successful runs in steps and one at once end in the same database. */
  lemma FrontPartsAgree<S>(start: S, files: seq<File>, maxSeq: int, exec: Exec<S>, digest: Digest,
                           fault1: Fault, fault2: Fault, fault3: Fault)
    requires DistinctNames(files) && FrontPart(files, maxSeq)
    requires
      var part := RunAll(Db(start, []), UpTo(files, maxSeq), exec, digest, fault1);
      part.err.None? && RunAll(part.db, files, exec, digest, fault2).err.None?
    requires RunAll(Db(start, []), files, exec, digest, fault3).err.None?
    ensures
      var part := RunAll(Db(start, []), UpTo(files, maxSeq), exec, digest, fault1).db;
      RunAll(part, files, exec, digest, fault2).db == RunAll(Db(start, []), files, exec, digest, fault3).db
  {
    hide RunAll, FrontPart, UpTo, Beyond, Fold, RecordsOf;
    var start0 := Db(start, []);
    FrontPartSplits(files, maxSeq);
    var m := |UpTo(files, maxSeq)|;
    assert files[..m] == UpTo(files, maxSeq) && files[..|files|] == files;
    var inSteps, atOnce := [Attempt(m, fault1), Attempt(|files|, fault2)], [Attempt(|files|, fault3)];
    assert inSteps[..1] == [Attempt(m, fault1)] && inSteps[..1][..0] == [] && atOnce[..0] == [];
    assert RunEach(start0, files, inSteps[..1][..0], exec, digest) == start0;
    assert RunEach(start0, files, atOnce[..0], exec, digest) == start0;
    var n1 := AlwaysAFrontPart(start, files, inSteps, exec, digest);
    var n2 := AlwaysAFrontPart(start, files, atOnce, exec, digest);
    assert RunEach(start0, files, inSteps[..1], exec, digest) == RunAll(start0, files[..m], exec, digest, fault1).db;
  }

  lemma RecordsAppend(a: seq<File>, b: seq<File>, digest: Digest)
    ensures RecordsOf(a + b, digest) == RecordsOf(a, digest) + RecordsOf(b, digest)
  {}

  lemma SecondRun<S>(part: Db<S>, files: seq<File>, maxSeq: int, exec: Exec<S>, digest: Digest, fault: Fault)
    requires DistinctNames(files) && part.records == RecordsOf(UpTo(files, maxSeq), digest)
    requires RunAll(part, files, exec, digest, fault).err.None?
    ensures RunAll(part, files, exec, digest, fault).db.records == part.records + RecordsOf(Beyond(files, maxSeq), digest)
  {
    var applied := AppliedMap(part.records);
    hide RunFrom, AppliedMap, InRange, UpTo, Beyond, RecordsOf, Pending;
    forall f | f in files
      ensures f.name in applied <==> InRange(f, maxSeq)
    {
      RecordedExactly(files, maxSeq, digest, f);
    }
    PendingIsBeyond(files, maxSeq, applied);
    SuccessAppends(part, files, 0, applied, exec, digest, fault);
    assert files[0..] == files;
  }

  lemma RecordedExactly(files: seq<File>, maxSeq: int, digest: Digest, f: File)
    requires DistinctNames(files) && f in files
    ensures f.name in AppliedMap(RecordsOf(UpTo(files, maxSeq), digest)) <==> InRange(f, maxSeq)
  {
    var first := UpTo(files, maxSeq);
    SelectedMembers(files, maxSeq);
    AppliedMapKeys(first, digest);
    hide AppliedMap, InRange, UpTo, Beyond, RecordsOf;
    if f.name in AppliedMap(RecordsOf(first, digest)) {
      var i :| 0 <= i < |first| && first[i].name == f.name;
      assert first[i] in first;
      SameName(files, f, first[i]);
    }
    if InRange(f, maxSeq) {
      var i :| 0 <= i < |first| && first[i] == f;
    }
  }

  lemma SameName(files: seq<File>, a: File, b: File)
    requires DistinctNames(files) && a in files && b in files && a.name == b.name
    ensures a == b
  {}

  // ------------------------------------------------------------- names and numbers

  ghost predicate InNameOrder(files: seq<File>) {
    forall i, j :: 0 <= i < j < |files| ==> StringLess(files[i].name, files[j].name)
  }

  lemma ByNameIsStrict(dom: set<Entry>)
    requires forall x, y :: x in dom && y in dom && x.name == y.name ==> x == y
    ensures StrictOrderOn(ByName, dom)
  {
    forall x, y | x in dom && y in dom
      ensures !(ByName(x, y) && ByName(y, x)) && (x != y ==> ByName(x, y) || ByName(y, x))
    {
      StringLessTotal(x.name, y.name);
    }
    forall x, y, z | x in dom && y in dom && z in dom && ByName(x, y) && ByName(y, z)
      ensures ByName(x, z)
    {
      StringLessTransitive(x.name, y.name, z.name);
    }
  }

  /** The files of a directory come out in the order of their names, without repetition. */
  lemma LoadedInOrder(dir: seq<Entry>)
    requires forall i, j :: 0 <= i < j < |dir| ==> dir[i].name != dir[j].name
    ensures InNameOrder(FilesOf(SortBy(ByName, dir))) && DistinctNames(FilesOf(SortBy(ByName, dir)))
  {
    var entries := SortBy(ByName, dir);
    var dom := set e | e in dir;
    ByNameIsStrict(dom);
    SortBySorted(ByName, dir, dom);
    SortKeepsDistinct(ByName, dir);
    hide SortBy;
    forall i, j | 0 <= i < j < |entries|
      ensures StringLess(entries[i].name, entries[j].name)
    {
      assert entries[i] in dom && entries[j] in dom && entries[i] != entries[j];
      assert !ByName(entries[j], entries[i]);
    }
    FilesInOrder(entries);
    NamesDiffer(FilesOf(entries));
  }

  lemma {:induction false} FilesInOrder(entries: seq<Entry>)
    requires forall i, j :: 0 <= i < j < |entries| ==> StringLess(entries[i].name, entries[j].name)
    ensures InNameOrder(FilesOf(entries))
    ensures forall f :: f in FilesOf(entries) ==> exists i :: 0 <= i < |entries| && entries[i].name == f.name
  {
    hide StringLess;
    if entries != [] {
      var front := entries[..|entries| - 1];
      FilesInOrder(front);
      assert forall i :: 0 <= i < |front| ==> front[i] == entries[i];
      assert forall i :: 0 <= i < |FilesOf(front)| ==> FilesOf(front)[i] in FilesOf(front);
    }
  }

  lemma NamesDiffer(files: seq<File>)
    requires InNameOrder(files)
    ensures DistinctNames(files)
  {
    hide StringLess;
    forall i, j | 0 <= i < j < |files|
      ensures files[i].name != files[j].name
    {
      StringLessTotal(files[i].name, files[j].name);
    }
  }

  /** The order of two texts of one length, seen from their ends. */
  lemma {:induction false} LessFromTheEnd(x: string, y: string)
    requires |x| == |y| > 0 && StringLess(x, y)
    ensures
      var n := |x| - 1;
      StringLess(x[..n], y[..n]) || (x[..n] == y[..n] && x[n] < y[n])
  {
    if |x| > 1 && x[0] == y[0] {
      LessFromTheEnd(x[1..], y[1..]);
      var n := |x| - 1;
      assert x[1..][..n - 1] == x[..n][1..] && y[1..][..n - 1] == y[..n][1..];
      if x[..n][1..] == y[..n][1..] {
        assert x[..n] == [x[0]] + x[..n][1..] && y[..n] == [y[0]] + y[..n][1..];
      }
    }
  }

  lemma {:induction false} DigitsInOrder(x: string, y: string)
    requires |x| == |y| && AllDigits(x) && AllDigits(y) && StringLess(x, y)
    ensures DigitsValue(x) < DigitsValue(y)
  {
    LessFromTheEnd(x, y);
    var n := |x| - 1;
    assert IsDigit(x[n]) && IsDigit(y[n]);
    if StringLess(x[..n], y[..n]) {
      DigitsInOrder(x[..n], y[..n]);
    }
  }

  lemma {:induction false} LessInFront(a: string, b: string, w: nat)
    requires StringLess(a, b) && w <= |a| && w <= |b|
    ensures a[..w] == b[..w] || StringLess(a[..w], b[..w])
  {
    if w > 0 && a[0] == b[0] {
      LessInFront(a[1..], b[1..], w - 1);
      assert a[..w] == [a[0]] + a[1..][..w - 1] && b[..w] == [b[0]] + b[1..][..w - 1];
    }
  }

  /** With numbers of one width the order of the names is the order of the numbers, so
      the files up to any number are a front part of the list. */
  lemma FixedWidthSuffices(files: seq<File>, width: nat, maxSeq: int)
    requires InNameOrder(files) && forall i :: 0 <= i < |files| ==> LeadingDigits(files[i].name) == width
    ensures FrontPart(files, maxSeq)
    ensures |UpTo(files, maxSeq)| <= |files| && UpTo(files, maxSeq) == files[..|UpTo(files, maxSeq)|]
  {
    hide StringLess;
    forall i, j | 0 <= i < j < |files|
      ensures Seq(files[i].name) <= Seq(files[j].name)
    {
      var a, b := files[i].name, files[j].name;
      LessInFront(a, b, width);
      if StringLess(a[..width], b[..width]) {
        DigitsInOrder(a[..width], b[..width]);
      }
    }
    FrontPartSplits(files, maxSeq);
  }

  /** Without fixed width the condition can fail: "10_b.sql" comes before "9_a.sql". */
  lemma WidthsMatter()
    ensures
      var files := [File("10_b.sql", "b"), File("9_a.sql", "a")];
      InNameOrder(files) && DistinctNames(files) && !FrontPart(files, 9)
  {
    var ten, nine := "10_b.sql", "9_a.sql";
    assert StringLess(ten, nine);
    SeqOfNine();
    SeqOfTen();
    hide Seq, StringLess;
    var files := [File(ten, "b"), File(nine, "a")];
    assert InRange(files[1], 9) && !InRange(files[0], 9);
    assert ten[0] != nine[0];
  }

  lemma SeqOfNine()
    ensures Seq("9_a.sql") == 9
  {
    var name := "9_a.sql";
    assert IsDigit(name[0]) && !IsDigit(name[1..][0]);
    assert name[..1] == "9" && "9"[..0] == "";
  }

  lemma SeqOfTen()
    ensures Seq("10_b.sql") == 10
  {
    var name := "10_b.sql";
    assert IsDigit(name[0]) && IsDigit(name[1..][0]) && !IsDigit(name[1..][1..][0]);
    assert name[..2] == "10" && "10"[..1] == "1" && "1"[..0] == "";
  }
}
