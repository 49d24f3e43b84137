/** Resolving where a delivery goes: one channel, a group of channels, or a saved
    destination; and the catalog that lists what can be chosen. */
module TargetResolution {
  import opened Common

  const STATUS_ACTIVE := "active"
  const STATUS_REAUTH_REQUIRED := "reauth_required"
  const STATUS_REVOKED := "revoked"
  const STATUS_DISCONNECTED := "disconnected"
  const STATUS_MISSING := "missing"
  const PLATFORM_GOOGLE_DRIVE := "google-drive"
  const SYSTEM_VELOX := "velox"

  datatype Code = NoCode | TargetNotAvailable | GroupEmpty | BlockedAuth

  // --------------------------------------------------------------------- the stores

  datatype Account = Account(id: int, platform: string, platformUserId: string, username: string, status: string, reauthRequired: bool)

  datatype Channel = Channel(account: int, enabled: bool)

  datatype Destination = Destination(id: string, workspace: int, account: int, enabled: bool, system: string)

  /** What a store says about a row: there, absent, or the store failed. */
  datatype Lookup<+T> = Found(row: T) | Missing | Down

  /** The answers of the four stores. A destination store that cannot list has no list. */
  datatype Stores = Stores(
    workspace: int -> Lookup<int>, channels: int -> Option<seq<Channel>>, channel: (int, int) -> Lookup<Channel>,
    account: int -> Lookup<Account>, destination: string -> Lookup<Destination>,
    canListDestinations: bool, destinations: int -> Option<seq<Destination>>,
    group: int -> Lookup<int>, members: int -> Option<seq<int>>, fold: string -> string)

  // -------------------------------------------------------------------- eligibility

  datatype Entry = Entry(account: int, platform: string, channelId: string, channelName: string, status: string,
                         enabled: bool, code: Code)

  function MakeResolvedEntry(pa: Account, binding: Option<Channel>, code: Code): Entry {
    Entry(pa.id, pa.platform, pa.platformUserId, pa.username, pa.status, binding.Some? && binding.value.enabled, code)
  }

  /** Why an account cannot be delivered to; NoCode when it can. */
  function Eligibility(pa: Account, binding: Option<Channel>): Code {
    if pa.status == STATUS_REAUTH_REQUIRED || pa.reauthRequired then BlockedAuth
    else if pa.status == STATUS_REVOKED || pa.status == STATUS_DISCONNECTED then TargetNotAvailable
    else if pa.status != STATUS_ACTIVE then BlockedAuth
    else if binding.Some? && !binding.value.enabled then TargetNotAvailable
    else NoCode
  }

  function CheckAccountEligibility(pa: Account, binding: Option<Channel>): Entry {
    MakeResolvedEntry(pa, binding, Eligibility(pa, binding))
  }

  // ------------------------------------------------------------------ direct targets

  datatype Descriptor = Descriptor(account: int, channelId: string, channelName: string)

  datatype Resolved = Resolved(code: Code, valid: bool, destinationId: string, platform: string, targets: seq<Entry>)

  /** Failures, as opposed to verdicts. */
  datatype Failure = StoreFailed | InvalidRequest | UnsupportedType

  type Verdict = Result<Resolved, Failure>

  function Rejected(code: Code, targets: seq<Entry>): Verdict { Ok(Resolved(code, false, "", "", targets)) }

  function Accepted(destinationId: string, platform: string, targets: seq<Entry>): Verdict {
    Ok(Resolved(NoCode, true, destinationId, platform, targets))
  }

  predicate Matches(w: Stores, platform: string, t: Descriptor, ch: Channel) {
    && w.account(ch.account).Found? && w.account(ch.account).row.platform == platform
    && ((t.channelId != "" && w.account(ch.account).row.platformUserId == t.channelId)
        || (t.channelName != "" &&
            w.fold(TrimSpace(w.account(ch.account).row.username)) == w.fold(TrimSpace(t.channelName))))
  }

  /** The account of the first channel that matches, or zero. */
  function FirstMatch(w: Stores, platform: string, t: Descriptor, channels: seq<Channel>): int {
    if channels == [] then 0
    else if Matches(w, platform, t, channels[0]) then channels[0].account
    else FirstMatch(w, platform, t, channels[1..])
  }

  /** None when the list of channels could not be read. */
  function AccountIDForChannel(w: Stores, workspace: int, platform: string, t: Descriptor): Option<int> {
    if t.account != 0 then Some(t.account)
    else if w.channels(workspace).None? then None
    else Some(FirstMatch(w, platform, t, w.channels(workspace).value))
  }

  method ResolveAccountIDForChannel(w: Stores, workspace: int, platform: string, t: Descriptor) returns (id: Option<int>)
    ensures id == AccountIDForChannel(w, workspace, platform, t)
  {
    if t.account != 0 {
      return Some(t.account);
    }
    var listed := w.channels(workspace);
    if listed.None? {
      return None;
    }
    var channels := listed.value;
    for i := 0 to |channels|
      invariant FirstMatch(w, platform, t, channels) == FirstMatch(w, platform, t, channels[i..])
    {
      assert channels[i..][0] == channels[i] && channels[i..][1..] == channels[i + 1..];
      if w.account(channels[i].account).Found? {
        var pa := w.account(channels[i].account).row;
        if pa.platform == platform {
          if t.channelId != "" && pa.platformUserId == t.channelId {
            return Some(channels[i].account);
          }
          if t.channelName != "" && w.fold(TrimSpace(pa.username)) == w.fold(TrimSpace(t.channelName)) {
            return Some(channels[i].account);
          }
        }
      }
    }
    return Some(0);
  }

  /** One channel: bound to the workspace, of the right platform, the expected channel,
      and eligible. */
  function ChannelVerdict(w: Stores, workspace: int, platform: string, t: Descriptor): Verdict {
    var id := AccountIDForChannel(w, workspace, platform, t);
    if id.None? || id.value == 0 then Rejected(TargetNotAvailable, [])
    else
      var binding, pa := w.channel(workspace, id.value), w.account(id.value);
      if binding.Down? then Err(StoreFailed)
      else if binding.Missing? then Rejected(TargetNotAvailable, [])
      else if pa.Down? then Err(StoreFailed)
      else if pa.Missing? || pa.row.platform != platform then Rejected(TargetNotAvailable, [])
      else if t.channelId != "" && pa.row.platformUserId != t.channelId then
        Rejected(BlockedAuth, [MakeResolvedEntry(pa.row, Some(binding.row), BlockedAuth)])
      else
        var entry := CheckAccountEligibility(pa.row, Some(binding.row));
        if entry.code != NoCode then Rejected(entry.code, [entry])
        else Accepted("instaedit_" + platform, platform, [entry])
  }

  // ---------------------------------------------------------------------- groups

  function MemberVerdict(w: Stores, workspace: int, platform: string, member: int): Verdict {
    ChannelVerdict(w, workspace, platform, Descriptor(member, "", ""))
  }

  /** The rows a member adds to the result of its group. */
  function MemberEntries(w: Stores, workspace: int, platform: string, member: int): seq<Entry> {
    var verdict := MemberVerdict(w, workspace, platform, member);
    if verdict.Err? then []
    else if verdict.value.targets == [] && !verdict.value.valid then
      if w.account(member).Found? then
        [MakeResolvedEntry(w.account(member).row, None, verdict.value.code)]
      else []
    else verdict.value.targets
  }

  function AllEntries(w: Stores, workspace: int, platform: string, members: seq<int>): seq<Entry> {
    if members == [] then []
    else AllEntries(w, workspace, platform, members[..|members| - 1]) + MemberEntries(w, workspace, platform, members[|members| - 1])
  }

  ghost predicate SomeFails(w: Stores, workspace: int, platform: string, members: set<int>) {
    exists m :: m in members && MemberVerdict(w, workspace, platform, m).Err?
  }

  ghost predicate SomeHas(w: Stores, workspace: int, platform: string, members: set<int>, code: Code) {
    exists m :: m in members && MemberVerdict(w, workspace, platform, m).Ok? && MemberVerdict(w, workspace, platform, m).value.code == code
  }

  function Members(members: seq<int>): set<int> { set m | m in members }

  /** What the verdicts on the members say about the group, whatever their order: an
      infrastructure failure of one fails the whole; a blocked one outweighs the others. */
  ghost function GroupCode(w: Stores, workspace: int, platform: string, members: set<int>): Result<Code, Failure> {
    if SomeFails(w, workspace, platform, members) then Err(StoreFailed)
    else if SomeHas(w, workspace, platform, members, BlockedAuth) then Ok(BlockedAuth)
    else if exists m :: m in members && !MemberVerdict(w, workspace, platform, m).value.valid then Ok(TargetNotAvailable)
    else Ok(NoCode)
  }

  /** The verdict on a group: it must belong to the workspace and have members; its code
      speaks for all of them, and their rows follow in order. */
  ghost function GroupVerdict(w: Stores, workspace: int, platform: string, groupId: int): Verdict {
    if w.group(groupId) != Found(workspace) || w.members(groupId).None? then Rejected(TargetNotAvailable, [])
    else
      var members := w.members(groupId).value;
      var code := GroupCode(w, workspace, platform, Members(members));
      if members == [] then Rejected(GroupEmpty, [])
      else if code.Err? then Err(StoreFailed)
      else if code.value != NoCode then Rejected(code.value, AllEntries(w, workspace, platform, members))
      else Accepted("instaedit_" + platform, platform, AllEntries(w, workspace, platform, members))
  }

  /** Validates the members one after the other and keeps the severest code. */
  method ResolveGroupTarget(w: Stores, workspace: int, platform: string, groupId: int) returns (r: Verdict)
    ensures r == GroupVerdict(w, workspace, platform, groupId)
  {
    if w.group(groupId) != Found(workspace) || w.members(groupId).None? {
      return Rejected(TargetNotAvailable, []);
    }
    var members := w.members(groupId).value;
    if members == [] {
      return Rejected(GroupEmpty, []);
    }
    var entries: seq<Entry>, severest := [], NoCode;
    for i := 0 to |members|
      invariant entries == AllEntries(w, workspace, platform, members[..i])
      invariant GroupCode(w, workspace, platform, Members(members[..i])) == Ok(severest)
    {
      hide MemberVerdict, MemberEntries, GroupCode;
      OneMoreMember(w, workspace, platform, members, i, severest);
      assert members[..i + 1][..i] == members[..i];
      var member := members[i];
      var sub := MemberVerdict(w, workspace, platform, member);
      if sub.Err? {
        return Err(StoreFailed);
      }
      entries := entries + MemberEntries(w, workspace, platform, member);
      if sub.value.code == BlockedAuth {
        severest := BlockedAuth;
      } else if sub.value.code != NoCode && severest == NoCode {
        severest := sub.value.code;
      }
    }
    assert members[..|members|] == members;
    if severest != NoCode {
      return Rejected(severest, entries);
    }
    return Accepted("instaedit_" + platform, platform, entries);
  }

  /** A verdict is valid exactly when it has no code, and a member's code is never that of
      an empty group. */
  lemma MemberCodes(w: Stores, workspace: int, platform: string, m: int)
    ensures
      var verdict := MemberVerdict(w, workspace, platform, m);
      verdict.Ok? ==> verdict.value.code != GroupEmpty && (verdict.value.valid <==> verdict.value.code == NoCode)
  {}

  lemma OneMoreMember(w: Stores, workspace: int, platform: string, members: seq<int>, i: nat, severest: Code)
    requires i < |members| && GroupCode(w, workspace, platform, Members(members[..i])) == Ok(severest)
    ensures
      var sub := MemberVerdict(w, workspace, platform, members[i]);
      && (sub.Err? ==> GroupCode(w, workspace, platform, Members(members)) == Err(StoreFailed))
      && (sub.Ok? ==>
           GroupCode(w, workspace, platform, Members(members[..i + 1])) ==
             Ok(if sub.value.code == BlockedAuth then BlockedAuth
                else if sub.value.code != NoCode && severest == NoCode then sub.value.code
                else severest))
  {
    var before := Members(members[..i]);
    assert members[i] in members;
    assert Members(members[..i + 1]) == before + {members[i]};
    MemberCodes(w, workspace, platform, members[i]);
    forall m | m in before
      ensures MemberVerdict(w, workspace, platform, m).Ok? ==>
                (MemberVerdict(w, workspace, platform, m).value.valid <==> MemberVerdict(w, workspace, platform, m).value.code == NoCode)
    {
      MemberCodes(w, workspace, platform, m);
    }
    hide MemberVerdict;
  }

  /** The group code speaks for every member: it is clear exactly when each of them is
      valid, and it never depends on their order. */
  lemma GroupValidExactly(w: Stores, workspace: int, platform: string, members: seq<int>, others: seq<int>)
    requires multiset(members) == multiset(others)
    ensures GroupCode(w, workspace, platform, Members(members)) == Ok(NoCode) <==>
              forall m :: m in members ==>
                MemberVerdict(w, workspace, platform, m).Ok? && MemberVerdict(w, workspace, platform, m).value.valid
    ensures GroupCode(w, workspace, platform, Members(members)).Err? <==>
              exists m :: m in members && MemberVerdict(w, workspace, platform, m).Err?
    ensures GroupCode(w, workspace, platform, Members(others)) == GroupCode(w, workspace, platform, Members(members))
  {
    SameElements(members, others);
    assert Members(members) == Members(others);
    assert forall m :: m in members <==> m in Members(members);
    forall m | m in members
      ensures MemberVerdict(w, workspace, platform, m).Ok? ==>
                (MemberVerdict(w, workspace, platform, m).value.valid <==> MemberVerdict(w, workspace, platform, m).value.code == NoCode)
    {
      MemberCodes(w, workspace, platform, m);
    }
    hide MemberVerdict;
  }

  // --------------------------------------------------------------- entry points

  function DirectChannel(w: Stores, workspace: int, platform: string, t: Descriptor): Verdict {
    if w.workspace(workspace).Down? then Err(StoreFailed)
    else if w.workspace(workspace).Missing? then Rejected(TargetNotAvailable, [])
    else ChannelVerdict(w, workspace, platform, t)
  }

  /** A saved destination. Google Drive accounts need no binding; for the others a failed
      lookup of the binding counts as no binding. */
  function SavedDestination(w: Stores, id: string): Verdict {
    var dest := w.destination(id);
    if dest.Down? then Err(StoreFailed)
    else if dest.Missing? || !dest.row.enabled then Rejected(TargetNotAvailable, [])
    else if w.workspace(dest.row.workspace).Down? then Err(StoreFailed)
    else if w.workspace(dest.row.workspace).Missing? then Rejected(TargetNotAvailable, [])
    else if w.account(dest.row.account).Down? then Err(StoreFailed)
    else if w.account(dest.row.account).Missing? then Rejected(TargetNotAvailable, [])
    else
      var pa, found := w.account(dest.row.account).row, w.channel(dest.row.workspace, dest.row.account);
      var binding := if pa.platform != PLATFORM_GOOGLE_DRIVE && found.Found? then Some(found.row) else None;
      var entry := CheckAccountEligibility(pa, binding);
      if entry.code != NoCode then Rejected(entry.code, [entry])
      else Accepted(dest.row.id, pa.platform, [entry])
  }

  datatype Request = Request(destId: string, workspace: int, platform: string, targetType: string, t: Descriptor, groupId: int)

  /** The verdict on every request. */
  ghost function VerdictOn(w: Stores, req: Request): Verdict {
    if req.destId != "" then SavedDestination(w, req.destId)
    else if req.workspace <= 0 || req.platform == "" then Err(InvalidRequest)
    else if w.workspace(req.workspace).Down? then Err(StoreFailed)
    else if w.workspace(req.workspace).Missing? then Rejected(TargetNotAvailable, [])
    else if req.targetType == "channel" then ChannelVerdict(w, req.workspace, req.platform, req.t)
    else if req.targetType == "group" then GroupVerdict(w, req.workspace, req.platform, req.groupId)
    else Err(UnsupportedType)
  }

  method Resolve(w: Stores, req: Request) returns (r: Verdict)
    ensures r == VerdictOn(w, req)
  {
    hide ChannelVerdict, SavedDestination, GroupVerdict;
    if req.destId != "" {
      return SavedDestination(w, req.destId);
    }
    if req.workspace <= 0 || req.platform == "" {
      return Err(InvalidRequest);
    }
    var ws := w.workspace(req.workspace);
    if ws.Down? {
      return Err(StoreFailed);
    }
    if ws.Missing? {
      return Rejected(TargetNotAvailable, []);
    }
    if req.targetType == "channel" {
      return ChannelVerdict(w, req.workspace, req.platform, req.t);
    }
    if req.targetType == "group" {
      r := ResolveGroupTarget(w, req.workspace, req.platform, req.groupId);
      return;
    }
    return Err(UnsupportedType);
  }

  /** A group request is valid exactly when its workspace is there, the group belongs to
      it and has members, and every member resolves on its own; in any order. */
  lemma GroupRequestValidExactly(w: Stores, req: Request)
    requires req.destId == "" && req.targetType == "group" && req.workspace > 0 && req.platform != ""
    ensures
      var r := VerdictOn(w, req);
      r.Ok? && r.value.valid <==>
        && w.workspace(req.workspace).Found? && w.group(req.groupId) == Found(req.workspace)
        && w.members(req.groupId).Some? && w.members(req.groupId).value != []
        && forall m :: m in w.members(req.groupId).value ==>
             var direct := DirectChannel(w, req.workspace, req.platform, Descriptor(m, "", ""));
             direct.Ok? && direct.value.valid
  {
    hide ChannelVerdict, GroupCode;
    if w.members(req.groupId).Some? {
      var members := w.members(req.groupId).value;
      GroupValidExactly(w, req.workspace, req.platform, members, members);
    }
  }

  // -------------------------------------------------------- who can be delivered to

  /** The account wants its owner to sign in again, by its status, by its mark, or because
      it is in a state that is neither active nor terminated. */
  predicate NeedsOwner(pa: Account) {
    || pa.status == "reauth_required" || pa.reauthRequired
    || (pa.status != "active" && pa.status != "revoked" && pa.status != "disconnected")
  }

  /** The account is active; a binding, if it has one, is enabled. */
  predicate CanDeliver(pa: Account, binding: Option<Channel>) {
    pa.status == "active" && !pa.reauthRequired && (binding.None? || binding.value.enabled)
  }

  /** What the codes mean, account by account. */
  lemma EligibilityExactly(pa: Account, binding: Option<Channel>)
    ensures Eligibility(pa, binding) == NoCode <==> CanDeliver(pa, binding)
    ensures Eligibility(pa, binding) == BlockedAuth <==> NeedsOwner(pa)
    ensures Eligibility(pa, binding) == TargetNotAvailable <==> !CanDeliver(pa, binding) && !NeedsOwner(pa)
  {}

  /** The row that is shown for an account: who it is, and whether it is enabled here. */
  predicate ShowsAccount(e: Entry, pa: Account, binding: Option<Channel>) {
    && e.account == pa.id && e.platform == pa.platform && e.channelId == pa.platformUserId && e.channelName == pa.username
    && e.status == pa.status && (e.enabled <==> binding.Some? && binding.value.enabled)
  }

  /** The account a channel request is about: the given one, or that of the first channel of
      the workspace that matches by id or by name. */
  ghost predicate Asks(w: Stores, req: Request, id: int) {
    if req.t.account != 0 then id == req.t.account
    else
      w.channels(req.workspace).Some? &&
      exists i: nat :: Named(w, req, w.channels(req.workspace).value, i) && w.channels(req.workspace).value[i].account == id
  }

  ghost predicate Fits(w: Stores, req: Request, ch: Channel) {
    && w.account(ch.account).Found? && w.account(ch.account).row.platform == req.platform
    && ((req.t.channelId != "" && w.account(ch.account).row.platformUserId == req.t.channelId)
        || (req.t.channelName != "" &&
            w.fold(TrimSpace(w.account(ch.account).row.username)) == w.fold(TrimSpace(req.t.channelName))))
  }

  ghost predicate Named(w: Stores, req: Request, channels: seq<Channel>, i: nat) {
    i < |channels| && Fits(w, req, channels[i]) && forall j :: 0 <= j < i ==> !Fits(w, req, channels[j])
  }

  lemma {:induction false} FirstMatchExactly(w: Stores, req: Request, channels: seq<Channel>)
    ensures forall i: nat :: Named(w, req, channels, i) ==> FirstMatch(w, req.platform, req.t, channels) == channels[i].account
    ensures (forall i :: 0 <= i < |channels| ==> !Fits(w, req, channels[i])) ==> FirstMatch(w, req.platform, req.t, channels) == 0
  {
    if channels != [] {
      FirstMatchExactly(w, req, channels[1..]);
      forall i: nat | Named(w, req, channels, i) && i > 0
        ensures Named(w, req, channels[1..], i - 1)
      {
        assert forall j :: 0 <= j < i - 1 ==> channels[1..][j] == channels[j + 1];
      }
      assert forall i :: 0 < i < |channels| ==> channels[1..][i - 1] == channels[i];
    }
  }

  lemma AsksResolves(w: Stores, req: Request, id: int)
    requires Asks(w, req, id)
    ensures AccountIDForChannel(w, req.workspace, req.platform, req.t) == Some(id)
  {
    hide FirstMatch, Fits;
    if req.t.account == 0 {
      var channels := w.channels(req.workspace).value;
      FirstMatchExactly(w, req, channels);
      var i: nat :| Named(w, req, channels, i) && channels[i].account == id;
    }
  }

  ghost predicate ChannelRequest(req: Request) {
    req.destId == "" && req.workspace > 0 && req.platform != "" && req.targetType == "channel"
  }

  /** A channel request is about this account; the account is bound to the workspace, and of
      the platform that was asked for. */
  ghost predicate Bound(w: Stores, req: Request, id: int) {
    && w.workspace(req.workspace).Found? && w.channel(req.workspace, id).Found?
    && w.account(id).Found? && w.account(id).row.platform == req.platform
  }

  /** It is the very channel that was named, if one was. */
  ghost predicate SameChannel(w: Stores, req: Request, id: int) {
    req.t.channelId == "" || (w.account(id).Found? && w.account(id).row.platformUserId == req.t.channelId)
  }

  /** A channel request, for the account it is about: when it is valid, which code it gets
      otherwise, and when it fails. The one row it shows is that of the account, with the
      code. */
  lemma ChannelExactly(w: Stores, req: Request, id: int)
    requires ChannelRequest(req) && Asks(w, req, id) && id != 0
    ensures
      var r, ws, binding, pa := VerdictOn(w, req), w.workspace(req.workspace), w.channel(req.workspace, id), w.account(id);
      && (r.Err? <==> ws.Down? || (ws.Found? && (binding.Down? || (binding.Found? && pa.Down?))))
      && (r.Err? ==> r.error == StoreFailed)
      && (r.Ok? && r.value.valid <==> Bound(w, req, id) && SameChannel(w, req, id) && CanDeliver(pa.row, Some(binding.row)))
      && (r.Ok? && r.value.code == BlockedAuth <==> Bound(w, req, id) && (!SameChannel(w, req, id) || NeedsOwner(pa.row)))
      && (r.Ok? && r.value.code != BlockedAuth && !r.value.valid ==> r.value.code == TargetNotAvailable)
      && (r.Ok? && !Bound(w, req, id) ==> r.value.targets == [])
      && (r.Ok? && Bound(w, req, id) ==>
           |r.value.targets| == 1 && ShowsAccount(r.value.targets[0], pa.row, Some(binding.row)) && r.value.targets[0].code == r.value.code)
      && (r.Ok? && r.value.valid ==>
           r.value.code == NoCode && r.value.destinationId == "instaedit_" + req.platform && r.value.platform == req.platform)
  {
    AsksResolves(w, req, id);
    ChannelVerdictIs(w, req.workspace, req.platform, req.t, id);
    if Bound(w, req, id) {
      EligibilityExactly(w.account(id).row, Some(w.channel(req.workspace, id).row));
    }
    hide AccountIDForChannel, Asks, Eligibility, CanDeliver, NeedsOwner, ChannelVerdict, SavedDestination, GroupVerdict;
  }

  lemma ChannelVerdictIs(w: Stores, workspace: int, platform: string, t: Descriptor, id: int)
    requires AccountIDForChannel(w, workspace, platform, t) == Some(id) && id != 0
    ensures
      var verdict, binding, pa := ChannelVerdict(w, workspace, platform, t), w.channel(workspace, id), w.account(id);
      if binding.Down? then verdict == Err(StoreFailed)
      else if binding.Missing? then verdict == Rejected(TargetNotAvailable, [])
      else if pa.Down? then verdict == Err(StoreFailed)
      else if pa.Missing? || pa.row.platform != platform then verdict == Rejected(TargetNotAvailable, [])
      else
        var code := if t.channelId != "" && pa.row.platformUserId != t.channelId then BlockedAuth else Eligibility(pa.row, Some(binding.row));
        var row := MakeResolvedEntry(pa.row, Some(binding.row), code);
        verdict == if code == NoCode then Accepted("instaedit_" + platform, platform, [row]) else Rejected(code, [row])
  {
    hide AccountIDForChannel, Eligibility;
  }

  /** A channel request that names nobody in the workspace is not available. */
  lemma NobodyAsked(w: Stores, req: Request)
    requires ChannelRequest(req) && w.workspace(req.workspace).Found? && req.t.account == 0
    requires w.channels(req.workspace).Some? ==> forall ch :: ch in w.channels(req.workspace).value ==> !Fits(w, req, ch)
    ensures VerdictOn(w, req) == Ok(Resolved(TargetNotAvailable, false, "", "", []))
  {
    if w.channels(req.workspace).Some? {
      FirstMatchExactly(w, req, w.channels(req.workspace).value);
    }
    hide FirstMatch, Fits;
  }

  /** A saved destination in the same way. Its platform is that of its account; Google Drive
      needs no binding, and for the others one that cannot be found counts as none. */
  lemma SavedExactly(w: Stores, req: Request)
    requires req.destId != ""
    ensures
      var r, dest := VerdictOn(w, req), w.destination(req.destId);
      if dest.Down? then r == Err(StoreFailed)
      else if dest.Missing? || !dest.row.enabled then r == Ok(Resolved(TargetNotAvailable, false, "", "", []))
      else
        var ws, pa, found := w.workspace(dest.row.workspace), w.account(dest.row.account), w.channel(dest.row.workspace, dest.row.account);
        var there := ws.Found? && pa.Found?;
        var binding := if pa.Found? && pa.row.platform != "google-drive" && found.Found? then Some(found.row) else None;
        && (r.Err? <==> ws.Down? || (ws.Found? && pa.Down?))
        && (r.Ok? && r.value.valid <==> there && CanDeliver(pa.row, binding))
        && (r.Ok? && r.value.code == BlockedAuth <==> there && NeedsOwner(pa.row))
        && (r.Ok? && r.value.code != BlockedAuth && !r.value.valid ==> r.value.code == TargetNotAvailable)
        && (r.Ok? && !there ==> r.value.targets == [])
        && (r.Ok? && there ==>
             |r.value.targets| == 1 && ShowsAccount(r.value.targets[0], pa.row, binding) && r.value.targets[0].code == r.value.code)
        && (r.Ok? && r.value.valid ==> r.value.code == NoCode && r.value.destinationId == dest.row.id && r.value.platform == pa.row.platform)
  {
    var dest := w.destination(req.destId);
    if dest.Found? && w.account(dest.row.account).Found? {
      var pa, found := w.account(dest.row.account).row, w.channel(dest.row.workspace, dest.row.account);
      EligibilityExactly(pa, if pa.platform != "google-drive" && found.Found? then Some(found.row) else None);
    }
    hide Eligibility, CanDeliver, NeedsOwner;
  }

  /** In the result of a group every member whose account is there has exactly one row, its
      own, with the code that it would get alone; the others have none. */
  lemma MemberRowExactly(w: Stores, workspace: int, platform: string, member: int)
    requires member != 0 && MemberVerdict(w, workspace, platform, member).Ok?
    ensures
      var rows, pa := MemberEntries(w, workspace, platform, member), w.account(member);
      if pa.Found? then
        |rows| == 1 && rows[0].account == pa.row.id && rows[0].channelId == pa.row.platformUserId
        && rows[0].code == MemberVerdict(w, workspace, platform, member).value.code
      else rows == []
  {
    ChannelVerdictIs(w, workspace, platform, Descriptor(member, "", ""), member);
    hide ChannelVerdict, Eligibility;
  }

  /** Requests that are refused as such: without a workspace or a platform, or of a type that
      is neither channel nor group. */
  lemma RefusedExactly(w: Stores, req: Request)
    ensures VerdictOn(w, req) == Err(InvalidRequest) <==> req.destId == "" && (req.workspace <= 0 || req.platform == "")
    ensures VerdictOn(w, req) == Err(UnsupportedType) <==>
              && req.destId == "" && req.workspace > 0 && req.platform != "" && w.workspace(req.workspace).Found?
              && req.targetType != "channel" && req.targetType != "group"
  {
    hide AccountIDForChannel, Eligibility, GroupCode, AllEntries;
  }

  /** What a member of a group would get in a channel request of its own. */
  function Alone(w: Stores, req: Request, member: int): Verdict {
    DirectChannel(w, req.workspace, req.platform, Descriptor(member, "", ""))
  }

  ghost predicate GroupThere(w: Stores, req: Request) {
    && w.workspace(req.workspace).Found? && w.group(req.groupId) == Found(req.workspace)
    && w.members(req.groupId).Some? && w.members(req.groupId).value != []
  }

  /** The code of a group request: the failure of one member fails the whole; one that is
      blocked outweighs any that are not available; and a group without members says so. */
  lemma GroupCodesExactly(w: Stores, req: Request)
    requires req.destId == "" && req.targetType == "group" && req.workspace > 0 && req.platform != ""
    ensures
      var r := VerdictOn(w, req);
      && (r.Ok? && r.value.code == GroupEmpty <==>
           w.workspace(req.workspace).Found? && w.group(req.groupId) == Found(req.workspace) && w.members(req.groupId) == Some([]))
      && (r.Err? <==>
           w.workspace(req.workspace).Down? || (GroupThere(w, req) && exists m :: m in w.members(req.groupId).value && Alone(w, req, m).Err?))
      && (r.Ok? && r.value.code == BlockedAuth <==>
           && GroupThere(w, req) && (forall m :: m in w.members(req.groupId).value ==> Alone(w, req, m).Ok?)
           && exists m :: m in w.members(req.groupId).value && Alone(w, req, m).Ok? && Alone(w, req, m).value.code == BlockedAuth)
      && (r.Ok? && GroupThere(w, req) ==> r.value.targets == AllEntries(w, req.workspace, req.platform, w.members(req.groupId).value))
  {
    hide ChannelVerdict, AllEntries;
    if w.members(req.groupId).Some? {
      var members := w.members(req.groupId).value;
      assert forall m :: m in members <==> m in Members(members);
      forall m | m in members
        ensures MemberVerdict(w, req.workspace, req.platform, m).Ok? ==>
                  MemberVerdict(w, req.workspace, req.platform, m).value.code != GroupEmpty
      {
        MemberCodes(w, req.workspace, req.platform, m);
      }
    }
  }

  /** The rows of a group are those of its members, one after the other. */
  lemma {:induction false} EntriesInOrder(w: Stores, workspace: int, platform: string, a: seq<int>, b: seq<int>)
    ensures AllEntries(w, workspace, platform, a + b) == AllEntries(w, workspace, platform, a) + AllEntries(w, workspace, platform, b)
    ensures |a| == 1 ==> AllEntries(w, workspace, platform, a) == MemberEntries(w, workspace, platform, a[0])
  {
    hide MemberEntries;
    if b == [] {
      assert a + b == a;
    } else {
      EntriesInOrder(w, workspace, platform, a, b[..|b| - 1]);
      assert (a + b)[..|a + b| - 1] == a + b[..|b| - 1];
    }
    assert |a| == 1 ==> a[..0] == [];
  }

  // -------------------------------------------------------------------- the catalog

  datatype CatalogEntry = CatalogEntry(entry: Entry, destinationId: string)

  predicate ById(a: Destination, b: Destination) { StringLess(a.id, b.id) }

  predicate ByAccount(a: CatalogEntry, b: CatalogEntry) { a.entry.account < b.entry.account }

  predicate Selectable(d: Destination) { d.enabled && d.system == SYSTEM_VELOX && d.account > 0 }

  /** The id of the first selectable destination of the account. */
  function Pick(sorted: seq<Destination>, account: int): Option<string> {
    if sorted == [] then None
    else
      var earlier, last := Pick(sorted[..|sorted| - 1], account), sorted[|sorted| - 1];
      if earlier.Some? then earlier
      else if Selectable(last) && last.account == account then Some(last.id)
      else None
  }

  function DestinationID(sorted: seq<Destination>, account: int): string {
    if Pick(sorted, account).Some? then Pick(sorted, account).value else ""
  }

  /** The catalog rows of one binding; Err when its account cannot be looked up. */
  function RowsOf(w: Stores, platform: string, sorted: seq<Destination>, binding: Channel): Result<seq<CatalogEntry>, Failure> {
    var pa := w.account(binding.account);
    if pa.Down? then Err(StoreFailed)
    else if pa.Missing? then
      Ok([CatalogEntry(Entry(binding.account, platform, "", "", STATUS_MISSING, binding.enabled, TargetNotAvailable), "")])
    else if pa.row.platform != platform then Ok([])
    else
      var entry, id := CheckAccountEligibility(pa.row, Some(binding)), DestinationID(sorted, pa.row.id);
      Ok([CatalogEntry(if entry.code == NoCode && id == "" then entry.(code := TargetNotAvailable) else entry, id)])
  }

  function Rows(w: Stores, platform: string, sorted: seq<Destination>, bindings: seq<Channel>): Result<seq<CatalogEntry>, Failure> {
    if bindings == [] then Ok([])
    else
      match Rows(w, platform, sorted, bindings[..|bindings| - 1])
      case Err(why) => Err(why)
      case Ok(before) =>
        match RowsOf(w, platform, sorted, bindings[|bindings| - 1])
        case Err(why) => Err(why)
        case Ok(more) => Ok(before + more)
  }

  function Listed(w: Stores, workspace: int): Option<seq<Destination>> {
    if w.canListDestinations then w.destinations(workspace) else Some([])
  }

  function Catalog(w: Stores, workspace: int, platform: string): Result<seq<CatalogEntry>, Failure> {
    if workspace <= 0 || platform == "" then Err(InvalidRequest)
    else if w.workspace(workspace).Down? then Err(StoreFailed)
    else if w.workspace(workspace).Missing? then Ok([])
    else if w.channels(workspace).None? || Listed(w, workspace).None? then Err(StoreFailed)
    else
      match Rows(w, platform, SortBy(ById, Listed(w, workspace).value), w.channels(workspace).value)
      case Err(why) => Err(why)
      case Ok(rows) => Ok(SortBy(ByAccount, rows))
  }

  method ListWorkspaceTargets(w: Stores, workspace: int, platform: string) returns (r: Result<seq<CatalogEntry>, Failure>)
    ensures r == Catalog(w, workspace, platform)
  {
    if workspace <= 0 || platform == "" {
      return Err(InvalidRequest);
    }
    var ws := w.workspace(workspace);
    if ws.Down? {
      return Err(StoreFailed);
    }
    if ws.Missing? {
      return Ok([]);
    }
    var bindings, destinations := w.channels(workspace), Listed(w, workspace);
    if bindings.None? || destinations.None? {
      return Err(StoreFailed);
    }
    var sorted := SortBy(ById, destinations.value);
    var destinationByAccount := IndexDestinations(sorted);
    var entries := CollectEntries(w, platform, sorted, destinationByAccount, bindings.value);
    if entries.Err? {
      return Err(entries.error);
    }
    return Ok(SortBy(ByAccount, entries.value));
  }

  /** The first offered destination of every account is in the index. */
  ghost predicate Indexes(m: map<int, string>, sorted: seq<Destination>) {
    forall a :: (a in m <==> Pick(sorted, a).Some?) && (a in m ==> m[a] == Pick(sorted, a).value)
  }

  /** One pass over the channels of the workspace. */
  method CollectEntries(w: Stores, platform: string, sorted: seq<Destination>, destinationByAccount: map<int, string>, list: seq<Channel>)
    returns (r: Result<seq<CatalogEntry>, Failure>)
    requires Indexes(destinationByAccount, sorted)
    ensures r == Rows(w, platform, sorted, list)
  {
    hide RowsOf, Indexes;
    var entries: seq<CatalogEntry> := [];
    for i := 0 to |list|
      invariant Rows(w, platform, sorted, list[..i]) == Ok(entries)
    {
      assert list[..i + 1][..i] == list[..i];
      var pa := w.account(list[i].account);
      RowsOfOneBinding(w, platform, sorted, destinationByAccount, list[i]);
      if pa.Down? {
        RowsFail(w, platform, sorted, list, i);
        return Err(StoreFailed);
      }
      if pa.Missing? {
        entries := entries +
          [CatalogEntry(Entry(list[i].account, platform, "", "", STATUS_MISSING, list[i].enabled, TargetNotAvailable), "")];
      } else if pa.row.platform == platform {
        entries := entries + [ListedEntry(pa.row, list[i], destinationByAccount)];
      } else {
        assert entries + [] == entries;
      }
    }
    assert list[..|list|] == list;
    return Ok(entries);
  }

  /** The row of an account that is there, with its destination from the index. */
  function ListedEntry(pa: Account, binding: Channel, destinationByAccount: map<int, string>): CatalogEntry {
    var entry := CheckAccountEligibility(pa, Some(binding));
    var id := if pa.id in destinationByAccount then destinationByAccount[pa.id] else "";
    CatalogEntry(if entry.code == NoCode && id == "" then entry.(code := TargetNotAvailable) else entry, id)
  }

  lemma RowsOfOneBinding(w: Stores, platform: string, sorted: seq<Destination>, m: map<int, string>, ch: Channel)
    requires Indexes(m, sorted)
    ensures
      var pa, rows := w.account(ch.account), RowsOf(w, platform, sorted, ch);
      && (pa.Down? ==> rows == Err(StoreFailed))
      && (pa.Missing? ==>
           rows == Ok([CatalogEntry(Entry(ch.account, platform, "", "", STATUS_MISSING, ch.enabled, TargetNotAvailable), "")]))
      && (pa.Found? ==> rows == Ok(if pa.row.platform == platform then [ListedEntry(pa.row, ch, m)] else []))
  {
    hide CheckAccountEligibility, Pick;
  }

  /** The first selectable destination of every account that has one. */
  method IndexDestinations(sorted: seq<Destination>) returns (m: map<int, string>)
    ensures Indexes(m, sorted)
  {
    m := map[];
    for i := 0 to |sorted|
      invariant Indexes(m, sorted[..i])
    {
      assert sorted[..i + 1][..i] == sorted[..i];
      var d := sorted[i];
      if Selectable(d) && d.account !in m {
        m := m[d.account := d.id];
      }
    }
    assert sorted[..|sorted|] == sorted;
  }

  lemma {:induction false} RowsFail(w: Stores, platform: string, sorted: seq<Destination>, bindings: seq<Channel>, i: nat)
    requires i < |bindings| && w.account(bindings[i].account).Down?
    ensures Rows(w, platform, sorted, bindings) == Err(StoreFailed)
  {
    hide CheckAccountEligibility;
    if i < |bindings| - 1 {
      RowsFail(w, platform, sorted, bindings[..|bindings| - 1], i);
    } else {
      RowsErrors(w, platform, sorted, bindings[..i]);
    }
  }

  lemma {:induction false} RowsErrors(w: Stores, platform: string, sorted: seq<Destination>, bindings: seq<Channel>)
    ensures Rows(w, platform, sorted, bindings).Err? ==> Rows(w, platform, sorted, bindings).error == StoreFailed
  {
    hide CheckAccountEligibility;
    if bindings != [] {
      RowsErrors(w, platform, sorted, bindings[..|bindings| - 1]);
    }
  }

  // ------------------------------------------------------------------------ no drift

  /** What is listed can be looked up, and is the same row then. */
  ghost predicate Consistent(w: Stores, workspace: int) {
    && (w.channels(workspace).Some? ==>
         forall ch :: ch in w.channels(workspace).value ==> w.channel(workspace, ch.account) == Found(ch))
    && (forall id :: w.account(id).Found? ==> w.account(id).row.id == id)
    && (Listed(w, workspace).Some? ==>
         forall d :: d in Listed(w, workspace).value ==> d.workspace == workspace && w.destination(d.id) == Found(d))
  }

  lemma {:induction false} RowHasBinding(w: Stores, platform: string, sorted: seq<Destination>, bindings: seq<Channel>, e: CatalogEntry)
    requires Rows(w, platform, sorted, bindings).Ok? && e in Rows(w, platform, sorted, bindings).value
    ensures exists i :: 0 <= i < |bindings| && RowsOf(w, platform, sorted, bindings[i]) == Ok([e])
  {
    hide RowsOf;
    var front, last := bindings[..|bindings| - 1], bindings[|bindings| - 1];
    if e in Rows(w, platform, sorted, front).value {
      RowHasBinding(w, platform, sorted, front, e);
      var i :| 0 <= i < |front| && RowsOf(w, platform, sorted, front[i]) == Ok([e]);
      assert bindings[i] == front[i];
    } else {
      RowsOfOne(w, platform, sorted, last, e);
    }
  }

  lemma RowsOfOne(w: Stores, platform: string, sorted: seq<Destination>, binding: Channel, e: CatalogEntry)
    requires RowsOf(w, platform, sorted, binding).Ok? && e in RowsOf(w, platform, sorted, binding).value
    ensures RowsOf(w, platform, sorted, binding) == Ok([e])
  {
    hide CheckAccountEligibility;
  }

  lemma {:induction false} PickIsSelectable(sorted: seq<Destination>, account: int) returns (d: Destination)
    requires Pick(sorted, account).Some?
    ensures d in sorted && Selectable(d) && d.account == account && d.id == Pick(sorted, account).value
  {
    var front, last := sorted[..|sorted| - 1], sorted[|sorted| - 1];
    if Pick(front, account).Some? {
      d := PickIsSelectable(front, account);
    } else {
      d := last;
    }
  }

  /** The binding and the account behind a catalog row. */
  lemma CatalogRow(w: Stores, workspace: int, platform: string, e: CatalogEntry) returns (binding: Channel)
    requires Catalog(w, workspace, platform).Ok? && e in Catalog(w, workspace, platform).value
    ensures workspace > 0 && platform != "" && w.workspace(workspace).Found?
    ensures w.channels(workspace).Some? && Listed(w, workspace).Some?
    ensures binding in w.channels(workspace).value
    ensures RowsOf(w, platform, SortBy(ById, Listed(w, workspace).value), binding) == Ok([e])
  {
    var bindings, sorted := w.channels(workspace).value, SortBy(ById, Listed(w, workspace).value);
    hide RowsOf;
    var rows := Rows(w, platform, sorted, bindings).value;
    SameElements(SortBy(ByAccount, rows), rows);
    hide SortBy;
    RowHasBinding(w, platform, sorted, bindings, e);
    var i :| 0 <= i < |bindings| && RowsOf(w, platform, sorted, bindings[i]) == Ok([e]);
    binding := bindings[i];
  }

  lemma {:induction false} RowsContain(w: Stores, platform: string, sorted: seq<Destination>, bindings: seq<Channel>, i: nat)
    requires Rows(w, platform, sorted, bindings).Ok? && i < |bindings|
    ensures RowsOf(w, platform, sorted, bindings[i]).Ok?
    ensures forall e :: e in RowsOf(w, platform, sorted, bindings[i]).value ==> e in Rows(w, platform, sorted, bindings).value
  {
    hide RowsOf;
    var front := bindings[..|bindings| - 1];
    if i < |front| {
      RowsContain(w, platform, sorted, front, i);
    }
  }

  lemma {:induction false} RowsFailExactly(w: Stores, platform: string, sorted: seq<Destination>, bindings: seq<Channel>)
    ensures Rows(w, platform, sorted, bindings).Err? <==> exists ch :: ch in bindings && w.account(ch.account).Down?
  {
    hide CheckAccountEligibility;
    if bindings != [] {
      var front, last := bindings[..|bindings| - 1], bindings[|bindings| - 1];
      RowsFailExactly(w, platform, sorted, front);
      assert bindings == front + [last];
    }
  }

  /** When the catalog fails, and of what; a workspace that is not there has an empty one. */
  lemma CatalogFailsExactly(w: Stores, workspace: int, platform: string)
    ensures
      var catalog := Catalog(w, workspace, platform);
      && (catalog == Err(InvalidRequest) <==> workspace <= 0 || platform == "")
      && (catalog == Err(StoreFailed) <==>
           workspace > 0 && platform != "" && !w.workspace(workspace).Missing?
           && (|| w.workspace(workspace).Down? || w.channels(workspace).None?
               || (w.canListDestinations && w.destinations(workspace).None?)
               || exists ch :: ch in w.channels(workspace).value && w.account(ch.account).Down?))
      && (catalog.Err? ==> catalog.error in {InvalidRequest, StoreFailed})
      && (workspace > 0 && platform != "" && w.workspace(workspace).Missing? ==> catalog == Ok([]))
  {
    if w.channels(workspace).Some? && Listed(w, workspace).Some? {
      var sorted := SortBy(ById, Listed(w, workspace).value);
      RowsFailExactly(w, platform, sorted, w.channels(workspace).value);
      RowsErrors(w, platform, sorted, w.channels(workspace).value);
    }
    hide SortBy, Rows;
  }

  /** The row of one binding: missing, or the account's own. */
  lemma OwnRow(w: Stores, platform: string, sorted: seq<Destination>, ch: Channel)
    requires RowsOf(w, platform, sorted, ch).Ok?
    ensures !w.account(ch.account).Down?
    ensures
      var rows, pa := RowsOf(w, platform, sorted, ch).value, w.account(ch.account);
      && (pa.Missing? ==> rows == [CatalogEntry(Entry(ch.account, platform, "", "", "missing", ch.enabled, TargetNotAvailable), "")])
      && (pa.Found? && pa.row.platform == platform ==> |rows| == 1 && ShowsAccount(rows[0].entry, pa.row, Some(ch)))
      && (pa.Found? && pa.row.platform != platform ==> rows == [])
  {
    hide DestinationID, Eligibility;
  }

  lemma RowsInCatalog(w: Stores, workspace: int, platform: string, ch: Channel) returns (sorted: seq<Destination>)
    requires Catalog(w, workspace, platform).Ok? && w.workspace(workspace).Found?
    requires w.channels(workspace).Some? && ch in w.channels(workspace).value
    ensures RowsOf(w, platform, sorted, ch).Ok?
    ensures forall e :: e in RowsOf(w, platform, sorted, ch).value ==> e in Catalog(w, workspace, platform).value
  {
    var bindings := w.channels(workspace).value;
    sorted := SortBy(ById, Listed(w, workspace).value);
    var i :| 0 <= i < |bindings| && bindings[i] == ch;
    RowsContain(w, platform, sorted, bindings, i);
    var rows := Rows(w, platform, sorted, bindings).value;
    SameElements(SortBy(ByAccount, rows), rows);
    hide SortBy, Rows, RowsOf;
  }

  /** The catalog leaves nobody out: every channel of the workspace whose account is of the
      platform is listed under that account, and one whose account is gone under its own
      id, as missing. */
  lemma CatalogCovers(w: Stores, workspace: int, platform: string, ch: Channel)
    requires Catalog(w, workspace, platform).Ok? && w.workspace(workspace).Found?
    requires w.channels(workspace).Some? && ch in w.channels(workspace).value
    ensures !w.account(ch.account).Down?
    ensures w.account(ch.account).Missing? ==>
              CatalogEntry(Entry(ch.account, platform, "", "", "missing", ch.enabled, TargetNotAvailable), "") in Catalog(w, workspace, platform).value
    ensures w.account(ch.account).Found? && w.account(ch.account).row.platform == platform ==>
              exists e :: e in Catalog(w, workspace, platform).value && ShowsAccount(e.entry, w.account(ch.account).row, Some(ch))
  {
    var sorted := RowsInCatalog(w, workspace, platform, ch);
    OwnRow(w, platform, sorted, ch);
    hide Catalog, RowsOf;
    var own := RowsOf(w, platform, sorted, ch).value;
    if own != [] {
      assert own[0] in own;
    }
  }

  ghost predicate Ascends(rows: seq<CatalogEntry>) {
    forall i, j :: 0 <= i < j < |rows| ==> rows[i].entry.account <= rows[j].entry.account
  }

  lemma {:induction false} InsertAscends(x: CatalogEntry, rows: seq<CatalogEntry>)
    requires Ascends(rows)
    ensures Ascends(InsertBy(ByAccount, x, rows))
    ensures forall e :: e in InsertBy(ByAccount, x, rows) ==> e == x || e in rows
  {
    if rows != [] && ByAccount(rows[0], x) {
      InsertAscends(x, rows[1..]);
      var rest := InsertBy(ByAccount, x, rows[1..]);
      forall j | 0 <= j < |rest|
        ensures rows[0].entry.account <= rest[j].entry.account
      {
        assert rest[j] == x || rest[j] in rows[1..];
      }
    }
  }

  lemma {:induction false} SortAscends(rows: seq<CatalogEntry>)
    ensures Ascends(SortBy(ByAccount, rows))
  {
    if rows != [] {
      SortAscends(rows[1..]);
      InsertAscends(rows[0], SortBy(ByAccount, rows[1..]));
    }
  }

  /** It is listed in ascending order of account. */
  lemma CatalogAscends(w: Stores, workspace: int, platform: string)
    requires Catalog(w, workspace, platform).Ok?
    ensures Ascends(Catalog(w, workspace, platform).value)
  {
    if w.channels(workspace).Some? && Listed(w, workspace).Some? {
      var rows := Rows(w, platform, SortBy(ById, Listed(w, workspace).value), w.channels(workspace).value);
      if rows.Ok? {
        SortAscends(rows.value);
      }
    }
    hide SortBy, Rows, Ascends;
  }

  /** Every catalog row carries exactly the code that resolving its account directly
      gives, except that an account which resolves but has no destination is marked as
      not available. */
  lemma CatalogAgreesWithDirect(w: Stores, workspace: int, platform: string, e: CatalogEntry)
    requires Consistent(w, workspace) && Catalog(w, workspace, platform).Ok? && e in Catalog(w, workspace, platform).value
    requires e.entry.account != 0
    ensures
      var direct := DirectChannel(w, workspace, platform, Descriptor(e.entry.account, "", ""));
      && direct.Ok?
      && e.entry.code == (if direct.value.valid && e.destinationId == "" then TargetNotAvailable else direct.value.code)
  {
    var binding := CatalogRow(w, workspace, platform, e);
    assert w.channel(workspace, binding.account) == Found(binding);
    hide SortBy, Pick, Consistent;
    assert w.account(binding.account).Found? ==> w.account(binding.account).row.id == binding.account by {
      AccountsKeepIds(w, workspace, binding.account);
    }
  }

  lemma AccountsKeepIds(w: Stores, workspace: int, id: int)
    requires Consistent(w, workspace)
    ensures w.account(id).Found? ==> w.account(id).row.id == id
  {}

  /** What a catalog row without a code says. */
  lemma ClearRow(w: Stores, platform: string, sorted: seq<Destination>, binding: Channel, e: CatalogEntry)
    requires RowsOf(w, platform, sorted, binding) == Ok([e]) && e.entry.code == NoCode
    ensures w.account(binding.account).Found?
    ensures
      var pa := w.account(binding.account).row;
      && pa.platform == platform && Eligibility(pa, Some(binding)) == NoCode
      && e == CatalogEntry(MakeResolvedEntry(pa, Some(binding), NoCode), DestinationID(sorted, pa.id)) && e.destinationId != ""
  {
    assert [e][0] == e;
  }

  lemma SavedAccepts(w: Stores, d: Destination, binding: Channel, pa: Account)
    requires w.destination(d.id) == Found(d) && d.enabled && w.workspace(d.workspace).Found?
    requires w.account(d.account) == Found(pa) && w.channel(d.workspace, d.account) == Found(binding)
    requires Eligibility(pa, Some(binding)) == NoCode
    ensures
      var saved := SavedDestination(w, d.id);
      && saved.Ok? && saved.value.valid && saved.value.destinationId == d.id && saved.value.platform == pa.platform
      && |saved.value.targets| == 1 && saved.value.targets[0].account == pa.id && saved.value.targets[0].code == NoCode
  {}

  /** A catalog row without a code resolves both ways: directly, with the very same row,
      and through its destination id. */
  lemma NoDrift(w: Stores, workspace: int, platform: string, e: CatalogEntry)
    requires Consistent(w, workspace) && Catalog(w, workspace, platform).Ok? && e in Catalog(w, workspace, platform).value
    requires e.entry.code == NoCode
    ensures DirectChannel(w, workspace, platform, Descriptor(e.entry.account, "", ""))
            == Accepted("instaedit_" + platform, platform, [e.entry])
    ensures
      var saved := SavedDestination(w, e.destinationId);
      && saved.Ok? && saved.value.valid && saved.value.destinationId == e.destinationId && saved.value.platform == platform
      && |saved.value.targets| == 1 && saved.value.targets[0].account == e.entry.account && saved.value.targets[0].code == NoCode
  {
    var binding := CatalogRow(w, workspace, platform, e);
    var listed := Listed(w, workspace).value;
    var sorted := SortBy(ById, listed);
    SameElements(sorted, listed);
    ClearRow(w, platform, sorted, binding, e);
    AccountsKeepIds(w, workspace, binding.account);
    var d := PickIsSelectable(sorted, binding.account);
    assert w.destination(d.id) == Found(d) && w.channel(workspace, binding.account) == Found(binding);
    assert binding.account != 0 && d.workspace == workspace && d.id == e.destinationId && d.enabled;
    hide Consistent, Catalog, RowsOf, SortBy, Pick, DestinationID, Listed, Eligibility, SavedDestination;
    SavedAccepts(w, d, binding, w.account(binding.account).row);
  }

  lemma DestinationsAreOrdered(dom: set<Destination>)
    requires forall x, y :: x in dom && y in dom && x.id == y.id ==> x == y
    ensures StrictOrderOn(ById, dom)
  {
    forall x, y | x in dom && y in dom
      ensures !(ById(x, y) && ById(y, x)) && (x != y ==> ById(x, y) || ById(y, x))
    {
      StringLessTotal(x.id, y.id);
    }
    forall x, y, z | x in dom && y in dom && z in dom && ById(x, y) && ById(y, z)
      ensures ById(x, z)
    {
      StringLessTransitive(x.id, y.id, z.id);
    }
  }

  lemma {:induction false} PickIsFirst(sorted: seq<Destination>, i: nat, account: int)
    requires i < |sorted| && Selectable(sorted[i]) && sorted[i].account == account
    ensures Pick(sorted, account).Some?
    ensures exists j :: 0 <= j <= i && Selectable(sorted[j]) && sorted[j].account == account && sorted[j].id == Pick(sorted, account).value
  {
    hide Selectable;
    var front := sorted[..|sorted| - 1];
    if i < |front| {
      PickIsFirst(front, i, account);
      var j :| 0 <= j <= i && Selectable(front[j]) && front[j].account == account && front[j].id == Pick(front, account).value;
      assert sorted[j] == front[j];
    } else if Pick(front, account).Some? {
      var d := PickIsSelectable(front, account);
      var j :| 0 <= j < |front| && front[j] == d;
      assert sorted[j] == d;
    }
  }

  /** A destination that the catalog may show: enabled, of this system, for an account. */
  predicate Offered(d: Destination) { d.enabled && d.system == "velox" && d.account > 0 }

  lemma {:induction false} PickFinds(sorted: seq<Destination>, account: int)
    ensures Pick(sorted, account).Some? <==> exists d :: d in sorted && Offered(d) && d.account == account
  {
    if sorted != [] {
      var front, last := sorted[..|sorted| - 1], sorted[|sorted| - 1];
      PickFinds(front, account);
      assert sorted == front + [last];
    }
  }

  /** An account for which no destination is offered shows none. */
  lemma NoDestination(listed: seq<Destination>, account: int)
    requires forall d :: d in listed ==> !(Offered(d) && d.account == account)
    ensures DestinationID(SortBy(ById, listed), account) == ""
  {
    SameElements(SortBy(ById, listed), listed);
    PickFinds(SortBy(ById, listed), account);
    hide SortBy, Pick;
  }

  /** Among several destinations of an account the catalog shows the one with the least
      id, in whatever order the store lists them. */
  lemma LeastDestination(listed: seq<Destination>, d: Destination)
    requires forall x, y :: x in listed && y in listed && x.id == y.id ==> x == y
    requires d in listed && Offered(d)
    ensures
      var id := DestinationID(SortBy(ById, listed), d.account);
      && (exists x :: x in listed && Offered(x) && x.account == d.account && x.id == id)
      && !StringLess(d.id, id)
  {
    var sorted, dom := SortBy(ById, listed), Destinations(listed);
    DestinationsAreOrdered(dom);
    SortBySorted(ById, listed, dom);
    SameElements(sorted, listed);
    hide SortBy, StringLess;
    var i :| 0 <= i < |sorted| && sorted[i] == d;
    PickIsFirst(sorted, i, d.account);
    var j :| 0 <= j <= i && Selectable(sorted[j]) && sorted[j].account == d.account && sorted[j].id == Pick(sorted, d.account).value;
    assert sorted[j] in sorted;
    if j == i {
      StringLessTotal(d.id, d.id);
    } else {
      assert !ById(sorted[i], sorted[j]);
    }
  }

  function Destinations(listed: seq<Destination>): set<Destination> { set d | d in listed }
}
