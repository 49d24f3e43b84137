/** Expanding a delivery to a group into one child delivery per account, so that a retry
    after a crash ends where one clean run would have. */
module GroupExpansion {
  import opened Common
  import opened DeliverySet

  const PLATFORM_YOUTUBE := "youtube"

  datatype Params = Params(system: string, jobId: string, taskId: string, artifactId: string,
                           workspaceId: int, platform: string, groupId: int)
  {
    predicate IsValid() {
      && system == "velox" && TrimSpace(jobId) != "" && TrimSpace(taskId) != "" && TrimSpace(artifactId) != ""
      && workspaceId > 0 && platform == PLATFORM_YOUTUBE && groupId > 0
    }
  }

  // --------------------------------------------------------------------- identities

  /** The shortened digest of a text, in hexadecimal. */
  type Digest = string -> string

  function DeriveSetID(digest: Digest, p: Params): string {
    "set-" + digest(Join(SetFields(p), '|'))
  }

  function SetFields(p: Params): (fields: seq<string>)
    ensures |fields| == 7
  {
    ["set", p.system, p.jobId, p.taskId, p.artifactId, p.platform, "group=" + Decimal(p.groupId)]
  }

  function DeriveChildID(digest: Digest, p: Params, account: int): string {
    "velox-" + digest(Join(["child", DeriveSetID(digest, p), "account=" + Decimal(account)], '|'))
  }

  /** The digest tells texts apart and prints no bar. */
  ghost predicate Collisionless(digest: Digest) {
    (forall a, b :: digest(a) == digest(b) ==> a == b) && (forall a :: '|' !in digest(a))
  }

  predicate NoBars(p: Params) {
    '|' !in p.system && '|' !in p.jobId && '|' !in p.taskId && '|' !in p.artifactId && '|' !in p.platform
  }

  lemma JoinsDiffer(a: seq<string>, b: seq<string>)
    requires |a| > 0 && |b| > 0
    requires (forall i :: 0 <= i < |a| ==> '|' !in a[i]) && (forall i :: 0 <= i < |b| ==> '|' !in b[i])
    requires Join(a, '|') == Join(b, '|')
    ensures a == b
  {
    SplitUndoesJoin(a, '|');
    SplitUndoesJoin(b, '|');
  }

  /** Two requests share a set exactly when these six fields agree; the workspace is not
      one of them. */
  lemma SetIDExactly(digest: Digest, p: Params, q: Params)
    requires Collisionless(digest) && NoBars(p) && NoBars(q)
    ensures DeriveSetID(digest, p) == DeriveSetID(digest, q) <==> p.(workspaceId := q.workspaceId) == q
  {
    DecimalIsInjective(p.groupId, q.groupId);
    DecimalIsInjective(q.groupId, p.groupId);
    if DeriveSetID(digest, p) == DeriveSetID(digest, q) {
      assert DeriveSetID(digest, p)[4..] == DeriveSetID(digest, q)[4..];
      assert DeriveSetID(digest, p)[4..] == digest(Join(SetFields(p), '|'));
      assert DeriveSetID(digest, q)[4..] == digest(Join(SetFields(q), '|'));
      hide Join, Decimal;
      JoinsDiffer(SetFields(p), SetFields(q));
      var a, b := SetFields(p), SetFields(q);
      assert a[1] == b[1] && a[2] == b[2] && a[3] == b[3] && a[4] == b[4] && a[5] == b[5] && a[6] == b[6];
      assert a[6][6..] == Decimal(p.groupId) && b[6][6..] == Decimal(q.groupId);
    }
  }

  /** A child id belongs to one account of one set. */
  lemma ChildIDExactly(digest: Digest, p: Params, q: Params, a: int, b: int)
    requires Collisionless(digest)
    ensures DeriveChildID(digest, p, a) == DeriveChildID(digest, q, b) <==>
              DeriveSetID(digest, p) == DeriveSetID(digest, q) && a == b
  {
    DecimalIsInjective(a, b);
    DecimalIsInjective(b, a);
    if DeriveChildID(digest, p, a) == DeriveChildID(digest, q, b) {
      var x := ["child", DeriveSetID(digest, p), "account=" + Decimal(a)];
      var y := ["child", DeriveSetID(digest, q), "account=" + Decimal(b)];
      assert DeriveChildID(digest, p, a)[6..] == digest(Join(x, '|'));
      assert DeriveChildID(digest, q, b)[6..] == digest(Join(y, '|'));
      hide Join, Decimal;
      JoinsDiffer(x, y);
      assert x[1] == y[1] && x[2] == y[2];
      assert x[2][8..] == Decimal(a) && y[2][8..] == Decimal(b);
    }
  }

  // ----------------------------------------------------------------------- the store

  datatype Key = DeliveryKey(id: string) | SetKey(id: string) | MemberKey(set_: string, delivery: string)

  datatype Row =
    | DeliveryRow(setId: string, request: Params, account: int, ordinal: nat)
    | SetRow(request: Params, status: SetStatus, children: seq<string>)
    | MemberRow(workspaceId: int, account: int, ordinal: nat)

  datatype Write = Write(key: Key, row: Row)

  /** The delivery, set and membership tables as one map. */
  type Db = map<Key, Row>

  /** An upsert; keepFirst says whether a conflict keeps the old row or takes the new. */
  function Put(db: Db, w: Write, keepFirst: bool): Db {
    if keepFirst && w.key in db then db else db[w.key := w.row]
  }

  function PutAll(db: Db, ws: seq<Write>, keepFirst: bool): Db {
    if ws == [] then db else Put(PutAll(db, ws[..|ws| - 1], keepFirst), ws[|ws| - 1], keepFirst)
  }

  /** Where an attempt fails, and how much of the failing write was persisted. */
  datatype Fault =
    | NoFault
    | ListFails
    | InsertFails(at: nat, persisted: bool)
    | InserterMisnames(at: nat)
    | SetFails(persisted: bool)
    | MembershipsFail(rows: nat)

  datatype ExpandError = Invalid | ListFailed | GroupEmpty | InsertFailed(account: int) | MisnamedChild(account: int)
    | SetFailed | MembershipsFailed

  class DeliveryStores {
    var db: Db
    const keepFirst: bool

    constructor (db: Db, keepFirst: bool)
      ensures this.db == db && this.keepFirst == keepFirst
    {
      this.db := db;
      this.keepFirst := keepFirst;
    }

    /** Persists the child under its id and echoes the id. */
    method InsertChildDelivery(w: Write, ordinal: nat, fault: Fault) returns (echo: Option<string>)
      requires w.key.DeliveryKey?
      modifies this
      ensures echo ==
        if fault.InsertFails? && fault.at == ordinal then None
        else if fault.InserterMisnames? && fault.at == ordinal then Some("other-" + w.key.id)
        else Some(w.key.id)
      ensures db == if fault.InsertFails? && fault.at == ordinal && !fault.persisted then old(db) else Put(old(db), w, keepFirst)
    {
      if fault.InsertFails? && fault.at == ordinal {
        if fault.persisted {
          db := Put(db, w, keepFirst);
        }
        return None;
      }
      db := Put(db, w, keepFirst);
      return Some(if fault.InserterMisnames? && fault.at == ordinal then "other-" + w.key.id else w.key.id);
    }

    method RecordDeliverySet(w: Write, fault: Fault) returns (ok: bool)
      modifies this
      ensures ok <==> !fault.SetFails?
      ensures db == if fault.SetFails? && !fault.persisted then old(db) else Put(old(db), w, keepFirst)
    {
      if !fault.SetFails? || fault.persisted {
        db := Put(db, w, keepFirst);
      }
      ok := !fault.SetFails?;
    }

    /** A batch; a failing one may have persisted any part of its front. */
    method RecordMemberships(ws: seq<Write>, fault: Fault) returns (ok: bool)
      modifies this
      ensures ok <==> !fault.MembershipsFail?
      ensures db == PutAll(old(db), ws[..if fault.MembershipsFail? && fault.rows < |ws| then fault.rows else |ws|], keepFirst)
    {
      var n := if fault.MembershipsFail? && fault.rows < |ws| then fault.rows else |ws|;
      for i := 0 to n
        invariant db == PutAll(old(db), ws[..i], keepFirst)
      {
        assert ws[..i + 1][..i] == ws[..i];
        db := Put(db, ws[i], keepFirst);
      }
      ok := !fault.MembershipsFail?;
    }

    /** One attempt, on the accounts in the order in which they were listed. */
    method ExpandForGroup(digest: Digest, p: Params, listing: seq<int>, fault: Fault)
      returns (r: Result<(Row, seq<Row>), ExpandError>)
      modifies this
      ensures db == PutAll(old(db), Plan(digest, p, listing)[..Progress(p, listing, fault)], keepFirst)
      ensures r == Verdict(digest, p, listing, fault)
    {
      hide PutAll, DeriveChildID, DeriveSetID, SortBy, DeliveryWrites, RecordWrites, ChildIDs, MemberRows, TrimSpace;
      PutAllEmpty(db, keepFirst);
      if !p.IsValid() {
        return Err(Invalid);
      }
      if fault.ListFails? {
        return Err(ListFailed);
      }
      if listing == [] {
        return Err(GroupEmpty);
      }
      var accounts := SortBy(Ascending, listing);
      ghost var before, ws, records := db, DeliveryWrites(digest, p, accounts), RecordWrites(digest, p, accounts);
      ghost var done := Progress(p, listing, fault);
      var inserted := InsertChildren(digest, p, accounts, fault);
      if inserted.Err? {
        assert (ws + records)[..done] == ws[..done];
        return Err(inserted.error);
      }
      var (children, memberships) := inserted.value;
      PutAllAppends(before, ws, records[..done - |ws|], keepFirst);
      assert ws[..|ws|] == ws && (ws + records)[..done] == ws + records[..done - |ws|];
      var failed := Record(digest, p, accounts, fault);
      if failed.Some? {
        return Err(failed.value);
      }
      return Ok((SetRow(p, InProgress, children), memberships));
    }

    /** The set row first, then its memberships. */
    method Record(digest: Digest, p: Params, accounts: seq<int>, fault: Fault) returns (failed: Option<ExpandError>)
      modifies this
      ensures db == PutAll(old(db), RecordWrites(digest, p, accounts)[..Recorded(|accounts|, fault)], keepFirst)
      ensures failed == if fault.SetFails? then Some(SetFailed) else if fault.MembershipsFail? then Some(MembershipsFailed) else None
    {
      hide PutAll, DeriveChildID, DeriveSetID;
      ghost var before := db;
      var w := Write(SetKey(DeriveSetID(digest, p)), SetRow(p, InProgress, ChildIDs(digest, p, accounts)));
      ghost var records := RecordWrites(digest, p, accounts);
      PutAllEmpty(before, keepFirst);
      PutOne(before, w, keepFirst);
      var ok := RecordDeliverySet(w, fault);
      if !ok {
        assert records[..1] == [w];
        return Some(SetFailed);
      }
      ghost var members := MemberWrites(digest, p, accounts)[..Recorded(|accounts|, fault) - 1];
      PutAllAppends(before, [w], members, keepFirst);
      assert records[..Recorded(|accounts|, fault)] == [w] + members;
      ok := RecordMemberships(MemberWrites(digest, p, accounts), fault);
      failed := if ok then None else Some(MembershipsFailed);
    }

    /** The children, one by one in ascending order of account. */
    method InsertChildren(digest: Digest, p: Params, accounts: seq<int>, fault: Fault)
      returns (r: Result<(seq<string>, seq<Row>), ExpandError>)
      modifies this
      ensures db == PutAll(old(db), DeliveryWrites(digest, p, accounts)[..Inserted(|accounts|, fault)], keepFirst)
      ensures r ==
        if fault.InsertFails? && fault.at < |accounts| then Err(InsertFailed(accounts[fault.at]))
        else if fault.InserterMisnames? && fault.at < |accounts| then Err(MisnamedChild(accounts[fault.at]))
        else Ok((ChildIDs(digest, p, accounts), MemberRows(p, accounts)))
    {
      hide PutAll, DeriveChildID, DeriveSetID;
      PutAllEmpty(db, keepFirst);
      var children: seq<string>, memberships: seq<Row> := [], [];
      ghost var before, ws := db, DeliveryWrites(digest, p, accounts);
      for ordinal := 0 to |accounts|
        invariant children == ChildIDs(digest, p, accounts)[..ordinal]
        invariant memberships == MemberRows(p, accounts)[..ordinal]
        invariant db == PutAll(before, ws[..ordinal], keepFirst)
        invariant fault.InsertFails? || fault.InserterMisnames? ==> fault.at >= ordinal
      {
        var account := accounts[ordinal];
        var childId := DeriveChildID(digest, p, account);
        PutAllAppends(before, ws[..ordinal], [ws[ordinal]], keepFirst);
        PutOne(db, ws[ordinal], keepFirst);
        assert ws[..ordinal] + [ws[ordinal]] == ws[..ordinal + 1];
        var echo := InsertChildDelivery(Write(DeliveryKey(childId), DeliveryRow(DeriveSetID(digest, p), p, account, ordinal)),
                                        ordinal, fault);
        if echo.None? {
          return Err(InsertFailed(account));
        }
        if echo.value != childId {
          return Err(MisnamedChild(account));
        }
        children := children + [childId];
        memberships := memberships + [MemberRow(p.workspaceId, account, ordinal)];
      }
      assert ws[..|accounts|] == ws && children == ChildIDs(digest, p, accounts) && memberships == MemberRows(p, accounts);
      return Ok((children, memberships));
    }
  }

  // ------------------------------------------------------------------------ the plan

  predicate Ascending(a: int, b: int) { a < b }

  function ChildIDs(digest: Digest, p: Params, accounts: seq<int>): (ids: seq<string>)
    ensures |ids| == |accounts|
  {
    seq(|accounts|, i requires 0 <= i < |accounts| => DeriveChildID(digest, p, accounts[i]))
  }

  function MemberRows(p: Params, accounts: seq<int>): (rows: seq<Row>)
    ensures |rows| == |accounts|
  {
    seq(|accounts|, i requires 0 <= i < |accounts| => MemberRow(p.workspaceId, accounts[i], i))
  }

  function DeliveryWrites(digest: Digest, p: Params, accounts: seq<int>): (ws: seq<Write>)
    ensures |ws| == |accounts|
  {
    seq(|accounts|, i requires 0 <= i < |accounts| =>
      Write(DeliveryKey(DeriveChildID(digest, p, accounts[i])), DeliveryRow(DeriveSetID(digest, p), p, accounts[i], i)))
  }

  function MemberWrites(digest: Digest, p: Params, accounts: seq<int>): (ws: seq<Write>)
    ensures |ws| == |accounts|
  {
    seq(|accounts|, i requires 0 <= i < |accounts| =>
      Write(MemberKey(DeriveSetID(digest, p), DeriveChildID(digest, p, accounts[i])), MemberRow(p.workspaceId, accounts[i], i)))
  }

  function RecordWrites(digest: Digest, p: Params, accounts: seq<int>): (ws: seq<Write>)
    ensures |ws| == |accounts| + 1
  {
    [Write(SetKey(DeriveSetID(digest, p)), SetRow(p, InProgress, ChildIDs(digest, p, accounts)))]
    + MemberWrites(digest, p, accounts)
  }

  /** Everything a clean run writes, in order. */
  function Plan(digest: Digest, p: Params, listing: seq<int>): (plan: seq<Write>)
    ensures |plan| == 2 * |listing| + 1
  {
    var accounts := SortBy(Ascending, listing);
    DeliveryWrites(digest, p, accounts) + RecordWrites(digest, p, accounts)
  }

  /** How many of the children an attempt gets inserted. */
  function Inserted(size: nat, fault: Fault): (n: nat)
    ensures n <= size
  {
    if fault.InsertFails? && fault.at < size then fault.at + if fault.persisted then 1 else 0
    else if fault.InserterMisnames? && fault.at < size then fault.at + 1
    else size
  }

  /** How much of the set row and the memberships it gets recorded. */
  function Recorded(size: nat, fault: Fault): (n: nat)
    ensures n <= size + 1
  {
    if fault.SetFails? then if fault.persisted then 1 else 0
    else if fault.MembershipsFail? && fault.rows < size then 1 + fault.rows
    else 1 + size
  }

  /** How many writes of the plan an attempt gets done. */
  function Progress(p: Params, listing: seq<int>, fault: Fault): (n: nat)
    ensures n <= 2 * |listing| + 1
  {
    var size := |listing|;
    if !p.IsValid() || fault.ListFails? || size == 0 then 0
    else if (fault.InsertFails? || fault.InserterMisnames?) && fault.at < size then Inserted(size, fault)
    else size + Recorded(size, fault)
  }

  function Verdict(digest: Digest, p: Params, listing: seq<int>, fault: Fault): Result<(Row, seq<Row>), ExpandError> {
    var accounts := SortBy(Ascending, listing);
    if !p.IsValid() then Err(Invalid)
    else if fault.ListFails? then Err(ListFailed)
    else if listing == [] then Err(GroupEmpty)
    else if fault.InsertFails? && fault.at < |accounts| then Err(InsertFailed(accounts[fault.at]))
    else if fault.InserterMisnames? && fault.at < |accounts| then
      Err(MisnamedChild(accounts[fault.at]))
    else if fault.SetFails? then Err(SetFailed)
    else if fault.MembershipsFail? then Err(MembershipsFailed)
    else Ok((SetRow(p, InProgress, ChildIDs(digest, p, accounts)), MemberRows(p, accounts)))
  }

  lemma PutAllEmpty(db: Db, keepFirst: bool)
    ensures PutAll(db, [], keepFirst) == db
  {}

  lemma PutOne(db: Db, w: Write, keepFirst: bool)
    ensures PutAll(db, [w], keepFirst) == Put(db, w, keepFirst)
  {
    assert [w][..0] == [];
  }

  lemma {:induction false} PutAllAppends(db: Db, xs: seq<Write>, ys: seq<Write>, keepFirst: bool)
    ensures PutAll(db, xs + ys, keepFirst) == PutAll(PutAll(db, xs, keepFirst), ys, keepFirst)
  {
    if ys == [] {
      assert xs + ys == xs;
    } else {
      PutAllAppends(db, xs, ys[..|ys| - 1], keepFirst);
      assert (xs + ys)[..|xs + ys| - 1] == xs + ys[..|ys| - 1];
    }
  }

  // -------------------------------------------------------------------- convergence

  ghost predicate Holds(ws: seq<Write>, key: Key) { exists i :: 0 <= i < |ws| && ws[i].key == key }

  /** What a list of writes does to a store depends only on what it does to an empty one. */
  lemma {:induction false} PutAllIsMerge(db: Db, ws: seq<Write>, keepFirst: bool)
    ensures
      var own := PutAll(map[], ws, keepFirst);
      && PutAll(db, ws, keepFirst) == (if keepFirst then own + db else db + own)
      && (forall key :: key in own <==> Holds(ws, key))
  {
    if ws != [] {
      var front, last := ws[..|ws| - 1], ws[|ws| - 1];
      PutAllIsMerge(db, front, keepFirst);
      forall key
        ensures Holds(ws, key) <==> Holds(front, key) || key == last.key
      {
        assert ws[|ws| - 1].key == last.key;
        if Holds(front, key) {
          var i :| 0 <= i < |front| && front[i].key == key;
          assert ws[i].key == key;
        }
      }
    }
  }

  lemma MergeAbsorbs(db: Db, part: Db, own: Db, keepFirst: bool)
    requires part.Keys <= own.Keys
    requires keepFirst ==> forall key :: key in part ==> part[key] == own[key]
    ensures if keepFirst then own + (part + db) == own + db else (db + part) + own == db + own
  {
    if keepFirst {
      assert (own + (part + db)).Keys == (own + db).Keys;
    } else {
      assert ((db + part) + own).Keys == (db + own).Keys;
    }
  }

  /** A front part of the plan leaves no trace once the whole plan is done. */
  lemma PartThenAll(db: Db, plan: seq<Write>, n: nat, keepFirst: bool)
    requires n <= |plan|
    ensures PutAll(PutAll(db, plan[..n], keepFirst), plan, keepFirst) == PutAll(db, plan, keepFirst)
  {
    var part, own := PutAll(map[], plan[..n], keepFirst), PutAll(map[], plan, keepFirst);
    PutAllIsMerge(db, plan[..n], keepFirst);
    PutAllIsMerge(PutAll(db, plan[..n], keepFirst), plan, keepFirst);
    PutAllIsMerge(db, plan, keepFirst);
    hide PutAll;
    assert part.Keys <= own.Keys by {
      forall key | Holds(plan[..n], key)
        ensures Holds(plan, key)
      {
        var i :| 0 <= i < n && plan[..n][i].key == key;
        assert plan[i].key == key;
      }
    }
    assert keepFirst ==> forall key :: key in part ==> part[key] == own[key] by {
      PutAllIsMerge(part, plan[n..], keepFirst);
      PutAllAppends(map[], plan[..n], plan[n..], keepFirst);
      assert plan[..n] + plan[n..] == plan;
    }
    MergeAbsorbs(db, part, own, keepFirst);
  }

  /** The plan does not depend on the order in which the accounts were listed. */
  lemma PlanOrderFree(digest: Digest, p: Params, a: seq<int>, b: seq<int>)
    requires multiset(a) == multiset(b)
    ensures Plan(digest, p, a) == Plan(digest, p, b) && |a| == |b|
  {
    var dom := set x | x in a;
    SortByOrderFree(Ascending, a, b, dom);
  }

  /** Retries after failures of every kind, on listings of the same members in any order:
      whatever the store held before, and whichever row wins a conflict, one success
      leaves the same store as one clean run. */
  lemma {:induction false} Converges(digest: Digest, p: Params, db: Db, tries: seq<(seq<int>, Fault)>, listing: seq<int>, keepFirst: bool)
    requires forall i :: 0 <= i < |tries| ==> multiset(tries[i].0) == multiset(listing)
    ensures PutAll(Tried(digest, p, db, tries, keepFirst), Plan(digest, p, listing), keepFirst)
            == PutAll(db, Plan(digest, p, listing), keepFirst)
  {
    if tries != [] {
      var front, last := tries[..|tries| - 1], tries[|tries| - 1];
      Converges(digest, p, db, front, listing, keepFirst);
      PlanOrderFree(digest, p, last.0, listing);
      PartThenAll(Tried(digest, p, db, front, keepFirst), Plan(digest, p, listing), Progress(p, last.0, last.1), keepFirst);
    }
  }

  /** The store after these attempts, each as ExpandForGroup leaves it. */
  function Tried(digest: Digest, p: Params, db: Db, tries: seq<(seq<int>, Fault)>, keepFirst: bool): Db {
    if tries == [] then db
    else
      var last := tries[|tries| - 1];
      PutAll(Tried(digest, p, db, tries[..|tries| - 1], keepFirst), Plan(digest, p, last.0)[..Progress(p, last.0, last.1)], keepFirst)
  }

  /** Whether an attempt succeeds, and that it then did everything. */
  lemma SuccessIsComplete(digest: Digest, p: Params, listing: seq<int>, fault: Fault)
    ensures Verdict(digest, p, listing, fault).Ok? ==>
              Progress(p, listing, fault) == |Plan(digest, p, listing)| && p.IsValid() && listing != []
    ensures Verdict(digest, p, listing, NoFault).Ok? <==> p.IsValid() && listing != []
  {
    hide DeriveChildID, DeriveSetID, SortBy, TrimSpace;
  }

  ghost predicate WellFormed(p: Params) {
    && p.system == "velox" && TrimSpace(p.jobId) != "" && TrimSpace(p.taskId) != "" && TrimSpace(p.artifactId) != ""
    && p.workspaceId > 0 && p.platform == "youtube" && p.groupId > 0
  }

  /** Why an attempt fails, each error with its exact cause; the children are tried in
      ascending order of account, before the set and its memberships. */
  lemma FailsExactly(digest: Digest, p: Params, listing: seq<int>, fault: Fault)
    ensures
      var r, accounts := Verdict(digest, p, listing, fault), SortBy(Ascending, listing);
      var asked := WellFormed(p) && !fault.ListFails? && listing != [];
      var hit := (fault.InsertFails? || fault.InserterMisnames?) && fault.at < |accounts|;
      && (r == Err(Invalid) <==> !WellFormed(p))
      && (r == Err(ListFailed) <==> WellFormed(p) && fault.ListFails?)
      && (r == Err(GroupEmpty) <==> WellFormed(p) && !fault.ListFails? && listing == [])
      && (r.Err? && r.error.InsertFailed? <==> asked && hit && fault.InsertFails?)
      && (r.Err? && r.error.MisnamedChild? <==> asked && hit && fault.InserterMisnames?)
      && (r.Err? && (r.error.InsertFailed? || r.error.MisnamedChild?) ==> r.error.account == accounts[fault.at])
      && (r == Err(SetFailed) <==> asked && fault.SetFails?)
      && (r == Err(MembershipsFailed) <==> asked && fault.MembershipsFail?)
      && (r.Ok? ==> r.value == (SetRow(p, InProgress, ChildIDs(digest, p, accounts)), MemberRows(p, accounts)))
  {
    hide DeriveChildID, DeriveSetID, SortBy, TrimSpace, ChildIDs, MemberRows;
  }

  // ------------------------------------------------------------ what a clean run leaves

  /** How many members come before this account. */
  function Rank(members: set<int>, account: int): nat {
    |set x | x in members && x < account|
  }

  function Members(listing: seq<int>): set<int> { set x | x in listing }

  lemma {:induction false} PrefixSize(xs: seq<int>)
    requires Distinct(xs)
    ensures |set x | x in xs| == |xs|
  {
    if xs != [] {
      var front, last := xs[..|xs| - 1], xs[|xs| - 1];
      PrefixSize(front);
      assert (set x | x in xs) == (set x | x in front) + {last};
    }
  }

  lemma RankAt(accounts: seq<int>, i: nat)
    requires i < |accounts| && Distinct(accounts) && SortedBy(Ascending, accounts)
    ensures Rank(Members(accounts), accounts[i]) == i
  {
    PrefixSize(accounts[..i]);
    assert (set x | x in Members(accounts) && x < accounts[i]) == (set x | x in accounts[..i]) by {
      forall j | 0 <= j < |accounts|
        ensures accounts[j] < accounts[i] <==> j < i
      {
        if j < i {
          assert !Ascending(accounts[i], accounts[j]) && accounts[i] != accounts[j];
        } else if i < j {
          assert !Ascending(accounts[j], accounts[i]);
        }
      }
    }
  }

  /** Sorting distinct accounts puts each at its rank. */
  lemma SortedByRank(listing: seq<int>, i: nat)
    requires Distinct(listing) && i < |listing|
    ensures
      var accounts := SortBy(Ascending, listing);
      Distinct(accounts) && Rank(Members(listing), accounts[i]) == i
  {
    var accounts := SortBy(Ascending, listing);
    SortBySorted(Ascending, listing, Members(listing));
    SameElements(accounts, listing);
    SortKeepsDistinct(Ascending, listing);
    hide SortBy, SortedBy, StrictOrderOn, Within, Rank;
    assert Members(accounts) == Members(listing);
    RankAt(accounts, i);
  }

  ghost predicate KeysDistinct(ws: seq<Write>) { forall i, j :: 0 <= i < j < |ws| ==> ws[i].key != ws[j].key }

  lemma {:induction false} EachRowStays(ws: seq<Write>, i: nat, keepFirst: bool)
    requires KeysDistinct(ws) && i < |ws|
    ensures ws[i].key in PutAll(map[], ws, keepFirst) && PutAll(map[], ws, keepFirst)[ws[i].key] == ws[i].row
  {
    var front := ws[..|ws| - 1];
    if i < |front| {
      EachRowStays(front, i, keepFirst);
    } else {
      PutAllIsMerge(map[], front, keepFirst);
      assert !Holds(front, ws[i].key);
    }
  }

  lemma PlanKeysDistinct(digest: Digest, p: Params, listing: seq<int>)
    requires Collisionless(digest) && Distinct(listing)
    ensures KeysDistinct(Plan(digest, p, listing))
  {
    var accounts := SortBy(Ascending, listing);
    SortKeepsDistinct(Ascending, listing);
    forall i, j | 0 <= i < j < |accounts|
      ensures DeriveChildID(digest, p, accounts[i]) != DeriveChildID(digest, p, accounts[j])
    {
      ChildIDExactly(digest, p, p, accounts[i], accounts[j]);
    }
    hide DeriveChildID, DeriveSetID, SortBy;
  }

  /** A clean run on distinct members leaves exactly one delivery and one membership per
      member, numbered from zero in ascending order of account, and one set row. */
  lemma CleanRun(digest: Digest, p: Params, listing: seq<int>, keepFirst: bool)
    requires Collisionless(digest) && Distinct(listing)
    ensures
      var db, set_ := PutAll(map[], Plan(digest, p, listing), keepFirst), DeriveSetID(digest, p);
      && (forall a :: a in listing ==>
           var child := DeriveChildID(digest, p, a);
           && DeliveryKey(child) in db && db[DeliveryKey(child)] == DeliveryRow(set_, p, a, Rank(Members(listing), a))
           && MemberKey(set_, child) in db
           && db[MemberKey(set_, child)] == MemberRow(p.workspaceId, a, Rank(Members(listing), a)))
      && SetKey(set_) in db
      && db[SetKey(set_)] == SetRow(p, InProgress, ChildIDs(digest, p, SortBy(Ascending, listing)))
      && |db| == 2 * |listing| + 1
  {
    var plan, accounts, n := Plan(digest, p, listing), SortBy(Ascending, listing), |listing|;
    PlanKeysDistinct(digest, p, listing);
    EachRowStays(plan, n, keepFirst);
    SameElements(accounts, listing);
    DistinctSize(plan, keepFirst);
    hide DeriveChildID, DeriveSetID, SortBy, PutAll, Rank;
    forall a | a in listing
      ensures
        var db, set_, child := PutAll(map[], plan, keepFirst), DeriveSetID(digest, p), DeriveChildID(digest, p, a);
        && DeliveryKey(child) in db && db[DeliveryKey(child)] == DeliveryRow(set_, p, a, Rank(Members(listing), a))
        && MemberKey(set_, child) in db
        && db[MemberKey(set_, child)] == MemberRow(p.workspaceId, a, Rank(Members(listing), a))
    {
      var i :| 0 <= i < n && accounts[i] == a;
      SortedByRank(listing, i);
      EachRowStays(plan, i, keepFirst);
      EachRowStays(plan, n + 1 + i, keepFirst);
      assert plan[i] == DeliveryWrites(digest, p, accounts)[i];
      assert plan[n + 1 + i] == MemberWrites(digest, p, accounts)[i];
    }
  }

  lemma {:induction false} DistinctSize(ws: seq<Write>, keepFirst: bool)
    requires KeysDistinct(ws)
    ensures |PutAll(map[], ws, keepFirst)| == |ws|
  {
    if ws != [] {
      var front, last := ws[..|ws| - 1], ws[|ws| - 1];
      DistinctSize(front, keepFirst);
      PutAllIsMerge(map[], front, keepFirst);
      assert !Holds(front, last.key);
    }
  }

  /** A member that joins later moves exactly the ordinals of the accounts above it, by
      one; the ids of the others do not depend on who else is a member. */
  lemma JoiningMember(members: set<int>, joining: int, account: int)
    requires joining !in members
    ensures Rank(members + {joining}, account) == Rank(members, account) + if joining < account then 1 else 0
  {
    var before := set x | x in members && x < account;
    assert (set x | x in members + {joining} && x < account) == if joining < account then before + {joining} else before;
  }
}
