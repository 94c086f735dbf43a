/**
 One client's group chats and stored invites, and what each user action and each
 received message does to them. Every handler is one atomic database step; the
 database does not roll back, so a handler that fails keeps what it already wrote.
 */
module GroupClient {
  import opened GroupList
  import opened Decimal

  const NANOS := 1_000_000_000
  const MAX_SUPPORTED_VERSION := 1
  const EMPTY_ID: GCID := 0

  type InviteID = nat

  /** Expiry in unix seconds. */
  datatype Invite = Invite(gcid: GCID, name: string, version: Version, token: nat, expires: int)
  datatype StoredInvite = StoredInvite(invite: Invite, user: UserID, accepted: bool)

  datatype GroupChat = GroupChat(meta: GCMetadata, alias: string) {
    /** The local display name. */
    function Name(): string { if alias != "" then alias else meta.name }
  }

  datatype Payload =
    | InviteMsg(invite: Invite)
    | JoinMsg(gcid: GCID, token: nat, refused: bool)
    | ListMsg(list: GCMetadata)
    | KickMsg(member: UserID, list: GCMetadata)
    | UpgradeMsg(list: GCMetadata)
    | AdminsMsg(list: GCMetadata)
    | PartMsg(gcid: GCID)
    | KillMsg(gcid: GCID)
  {
    predicate CarriesList() { ListMsg? || KickMsg? || UpgradeMsg? || AdminsMsg? }
  }

  datatype Packet = Packet(from: UserID, to: UserID, payload: Payload)

  datatype ClientState = ClientState(
    local: UserID, gcs: map<GCID, GroupChat>, invites: map<InviteID, StoredInvite>, known: set<UserID>)

  datatype Outcome = Outcome(st: ClientState, out: set<Packet>, result: Result<()>)

  /**
   User actions and message receptions. `now` is in nanoseconds. `pick` is the
   stored invite a lookup returned, or the fresh invite id drawn; `token` and a
   new chat's `id` are random draws; `isHexID` says that the name parses as an id.
   `room` and `live` are about a realtime session linked to the chat, if there is
   one: the local client administers it and it has room; the client is live in it.
   */
  datatype Event =
    | NewGC(name: string, version: Version, id: GCID, isHexID: bool)
    | InviteUser(gcid: GCID, user: UserID, token: nat, expires: int, pick: InviteID, room: bool)
    | AcceptInvite(pick: InviteID, now: int)
    | DeclineInvite(pick: InviteID)
    | PurgeInvites(now: int)
    | Kick(gcid: GCID, user: UserID, live: bool)
    | Part(gcid: GCID)
    | Kill(gcid: GCID)
    | Upgrade(gcid: GCID, version: Version)
    | ModifyAdmins(gcid: GCID, admins: seq<UserID>)
    | ModifyOwner(gcid: GCID, user: UserID)
    | Alias(gcid: GCID, alias: string)
    | KnownChanged(users: set<UserID>)
    | Receive(from: UserID, payload: Payload, pick: InviteID, now: int)

  function Fail(st: ClientState, e: Error): Outcome { Outcome(st, {}, Err(e)) }
  function Done(st: ClientState): Outcome { Outcome(st, {}, Ok(())) }

  /** One packet for every listed member that is another, known user. */
  function ToMembers(st: ClientState, members: seq<UserID>, p: Payload): set<Packet> {
    set u | u in members && u != st.local && u in st.known :: Packet(st.local, u, p)
  }

  predicate IsExpired(invite: Invite, now: int) { invite.expires * NANOS < now }

  // ---------- Display names ----------

  predicate NameTaken(st: ClientState, name: string) {
    exists g :: g in st.gcs && st.gcs[g].Name() == name
  }

  function Names(st: ClientState): set<string> {
    set g | g in st.gcs :: st.gcs[g].Name()
  }

  /** The i-th candidate alias. */
  function Candidate(base: string, i: nat): string { base + "_" + Digits(i) }

  /** The first index from i on whose candidate is not among the names. */
  function AliasIndex(names: set<string>, base: string, i: nat): nat
    decreases |names|
  {
    if Candidate(base, i) !in names then i
    else AliasIndex(names - {Candidate(base, i)}, base, i + 1)
  }

  lemma CandidatesDiffer(base: string, i: nat, j: nat)
    requires Candidate(base, i) == Candidate(base, j)
    ensures i == j
  {
    var b := base + "_";
    assert Candidate(base, i)[|b|..] == Digits(i);
    assert Candidate(base, j)[|b|..] == Digits(j);
    ValueOfDigits(i);
    ValueOfDigits(j);
  }

  /** The search for an alias ends within one try more than there are names, on the first free candidate. */
  lemma {:induction false} AliasIndexIsFirstFree(names: set<string>, base: string, i: nat)
    ensures var r := AliasIndex(names, base, i);
            && i <= r <= i + |names|
            && Candidate(base, r) !in names
            && forall k :: i <= k < r ==> Candidate(base, k) in names
    decreases |names|
  {
    var c := Candidate(base, i);
    if c in names {
      AliasIndexIsFirstFree(names - {c}, base, i + 1);
      var r := AliasIndex(names, base, i);
      if Candidate(base, r) == c {
        CandidatesDiffer(base, r, i);
      }
    }
  }

  // ---------- Replacing and removing ----------

  function MaybeUpdate(st: ClientState, gcid: GCID, updater: UserID,
      f: GCMetadata -> Result<GCMetadata>): (ClientState, Result<GCMetadata>)
  {
    if gcid !in st.gcs then (st, Err(NotFound))
    else
      var prev := st.gcs[gcid].meta;
      if prev.members == [] then (st, Err(NoMembers))
      else
        var made := f(prev);
        if made.Err? then (st, made)
        else
          var checked := CheckUpdate(prev, made.value, updater);
          if checked.Err? then (st, checked)
          else if st.local !in made.value.members then (st.(gcs := st.gcs - {gcid}), made)
          else (st.(gcs := st.gcs[gcid := st.gcs[gcid].(meta := made.value)]), made)
  }

  function ReplaceList(st: ClientState, from: UserID, list: GCMetadata): Outcome {
    var (st', r) := MaybeUpdate(st, list.id, from, _ => Ok(list));
    if r.Err? then Fail(st', r.error) else Done(st')
  }

  function RemoveFromGC(st: ClientState, gcid: GCID, user: UserID, asAdmin: bool): (ClientState, Result<GCMetadata>) {
    if gcid !in st.gcs then (st, Err(NotFound))
    else
      var prev := st.gcs[gcid].meta;
      if asAdmin && !HasPerm(prev, st.local) then (st, Err(NotPermitted))
      else
        var r := RemoveMember(prev, user, asAdmin);
        if r.Err? then (st, r)
        else (st.(gcs := st.gcs[gcid := st.gcs[gcid].(meta := r.value)]), r)
  }

  // ---------- Joining ----------

  function JoinReceived(st: ClientState, from: UserID, gcid: GCID, token: nat, refused: bool,
      pick: InviteID, now: int): Outcome
  {
    if !(pick in st.invites && st.invites[pick].invite.gcid == gcid && st.invites[pick].invite.token == token)
    then Fail(st, NotFound)
    else if IsExpired(st.invites[pick].invite, now) then Fail(st, Expired)
    else if st.invites[pick].user != from then Fail(st, WrongUser)
    else if gcid !in st.gcs then Fail(st, NotFound)
    else
      var prev := st.gcs[gcid].meta;
      if !HasPerm(prev, st.local) then Fail(st, NotPermitted)
      else
        var st1 := st.(invites := st.invites - {pick});
        if from in prev.members then Fail(st1, AlreadyMember)
        else if refused then Done(st1)
        else
          var gl := AddMember(prev, from);
          Outcome(st1.(gcs := st.gcs[gcid := st.gcs[gcid].(meta := gl)]),
                  ToMembers(st, gl.members, ListMsg(gl)), Ok(()))
  }

  function SaveJoined(st: ClientState, from: UserID, list: GCMetadata, pick: InviteID): Outcome {
    if !(pick in st.invites && AcceptedFrom(st.invites[pick], list.id, from)) then Fail(st, NotFound)
    else if !HasPerm(list, from) then Fail(st, NotPermitted)
    else
      var base := st.invites[pick].invite.name;
      var alias := if NameTaken(st, list.name)
                   then Candidate(base, AliasIndex(Names(st), base, 1))
                   else "";
      Done(st.(gcs := st.gcs[list.id := GroupChat(list, alias)],
               invites := map i | i in st.invites && st.invites[i].invite.gcid != list.id :: st.invites[i]))
  }

  predicate AcceptedFrom(si: StoredInvite, gcid: GCID, from: UserID) {
    si.accepted && si.invite.gcid == gcid && si.user == from
  }

  function ListReceived(st: ClientState, from: UserID, list: GCMetadata, pick: InviteID): Outcome {
    if list.id in st.gcs then ReplaceList(st, from, list) else SaveJoined(st, from, list, pick)
  }

  function InviteReceived(st: ClientState, from: UserID, invite: Invite, pick: InviteID, now: int): Outcome {
    if invite.gcid == EMPTY_ID then Fail(st, NotFound)
    else if invite.version > MAX_SUPPORTED_VERSION then Fail(st, UnsupportedVersion)
    else if IsExpired(invite, now) then Done(st)
    else if invite.gcid in st.gcs then Fail(st, AlreadyExists)
    else Done(st.(invites := st.invites[pick := StoredInvite(invite, from, false)]))
  }

  function PartReceived(st: ClientState, from: UserID, gcid: GCID): Outcome {
    var (st', r) := RemoveFromGC(st, gcid, from, false);
    if r.Err? then Fail(st', r.error) else Done(st')
  }

  function KillReceived(st: ClientState, from: UserID, gcid: GCID): Outcome {
    if gcid !in st.gcs then Fail(st, NotFound)
    else if st.gcs[gcid].meta.members == [] || st.gcs[gcid].meta.members[0] != from then Fail(st, OnlyOwner)
    else Done(st.(gcs := st.gcs - {gcid}))
  }

  // ---------- User actions ----------

  function Create(st: ClientState, name: string, version: Version, id: GCID, isHexID: bool): Outcome {
    if isHexID || NameTaken(st, name) || id in st.gcs then Fail(st, AlreadyExists)
    else Done(st.(gcs := st.gcs[id := GroupChat(GCMetadata(id, name, 1, version, [st.local], []), "")]))
  }

  function SendInvite(st: ClientState, gcid: GCID, user: UserID, token: nat, expires: int, pick: InviteID, room: bool): Outcome {
    if user !in st.known then Fail(st, UnknownUser)
    else if gcid !in st.gcs then Fail(st, NotFound)
    else if !HasPerm(st.gcs[gcid].meta, st.local) then Fail(st, NotPermitted)
    else if !room then Fail(st, SessionRefuses)
    else
      var meta := st.gcs[gcid].meta;
      var invite := Invite(gcid, meta.name, meta.version, token, expires);
      Outcome(st.(invites := st.invites[pick := StoredInvite(invite, user, false)]),
              {Packet(st.local, user, InviteMsg(invite))}, Ok(()))
  }

  function Accept(st: ClientState, pick: InviteID, now: int): Outcome {
    if pick !in st.invites then Fail(st, NotFound)
    else
      var si := st.invites[pick];
      var st' := st.(invites := st.invites[pick := si.(accepted := true)]);
      if si.user !in st.known then Fail(st', UnknownUser)
      else if IsExpired(si.invite, now) then Fail(st', Expired)
      else Outcome(st', {Packet(st.local, si.user, JoinMsg(si.invite.gcid, si.invite.token, false))}, Ok(()))
  }

  function Decline(st: ClientState, pick: InviteID): Outcome {
    if pick !in st.invites then Fail(st, NotFound)
    else Done(st.(invites := st.invites - {pick}))
  }

  function Purge(st: ClientState, now: int): Outcome {
    Done(st.(invites := map i | i in st.invites && st.invites[i].invite.expires * NANOS > now :: st.invites[i]))
  }

  function KickUser(st: ClientState, gcid: GCID, user: UserID, live: bool): Outcome {
    var (st', r) := RemoveFromGC(st, gcid, user, true);
    if gcid !in st.gcs then Fail(st, NotFound)
    else if !live then Fail(st, SessionRefuses)
    else if r.Err? then Fail(st', r.error)
    else Outcome(st', ToMembers(st, st.gcs[gcid].meta.members, KickMsg(user, r.value)), Ok(()))
  }

  function PartFrom(st: ClientState, gcid: GCID): Outcome {
    if gcid !in st.gcs then Fail(st, NotFound)
    else if st.gcs[gcid].meta.members == [] || st.gcs[gcid].meta.members[0] == st.local then Fail(st, OnlyOwner)
    else Outcome(st.(gcs := st.gcs - {gcid}), ToMembers(st, st.gcs[gcid].meta.members, PartMsg(gcid)), Ok(()))
  }

  function KillGC(st: ClientState, gcid: GCID): Outcome {
    if gcid !in st.gcs then Fail(st, NotFound)
    else if st.gcs[gcid].meta.members == [] || st.gcs[gcid].meta.members[0] != st.local then Fail(st, OnlyOwner)
    else Outcome(st.(gcs := st.gcs - {gcid}), ToMembers(st, st.gcs[gcid].meta.members, KillMsg(gcid)), Ok(()))
  }

  /** The last step of a local update: tell the members of the new list. */
  function Announce(st: ClientState, r: (ClientState, Result<GCMetadata>), wrap: GCMetadata -> Payload): Outcome {
    if r.1.Err? then Fail(r.0, r.1.error)
    else Outcome(r.0, ToMembers(st, r.1.value.members, wrap(r.1.value)), Ok(()))
  }

  function UpgradeGC(st: ClientState, gcid: GCID, v: Version): Outcome {
    if v > MAX_SUPPORTED_VERSION then Fail(st, UnsupportedVersion)
    else Announce(st, MaybeUpdate(st, gcid, st.local, gl => SetVersion(gl, v)), gl => UpgradeMsg(gl))
  }

  function ChangeAdmins(st: ClientState, gcid: GCID, admins: seq<UserID>): Outcome {
    var known := st.known;
    Announce(st, MaybeUpdate(st, gcid, st.local, gl => SetAdmins(gl, admins, known)), gl => AdminsMsg(gl))
  }

  function ChangeOwner(st: ClientState, gcid: GCID, user: UserID): Outcome {
    Announce(st, MaybeUpdate(st, gcid, st.local, gl => SetOwner(gl, user)), gl => AdminsMsg(gl))
  }

  function SetAlias(st: ClientState, gcid: GCID, alias: string): Outcome {
    if alias == "" then Fail(st, EmptyName)
    else if gcid !in st.gcs then Fail(st, NotFound)
    else if exists g :: g in st.gcs && g != gcid && st.gcs[g].Name() == alias then Fail(st, AlreadyExists)
    else Done(st.(gcs := st.gcs[gcid := st.gcs[gcid].(alias := alias)]))
  }

  function Received(st: ClientState, from: UserID, p: Payload, pick: InviteID, now: int): Outcome {
    match p
    case InviteMsg(invite) => InviteReceived(st, from, invite, pick, now)
    case JoinMsg(gcid, token, refused) => JoinReceived(st, from, gcid, token, refused, pick, now)
    case ListMsg(list) => ListReceived(st, from, list, pick)
    case KickMsg(_, list) => ReplaceList(st, from, list)
    case UpgradeMsg(list) => ReplaceList(st, from, list)
    case AdminsMsg(list) => ReplaceList(st, from, list)
    case PartMsg(gcid) => PartReceived(st, from, gcid)
    case KillMsg(gcid) => KillReceived(st, from, gcid)
  }

  function Step(st: ClientState, ev: Event): Outcome {
    match ev
    case NewGC(name, version, id, isHexID) => Create(st, name, version, id, isHexID)
    case InviteUser(gcid, user, token, expires, pick, room) => SendInvite(st, gcid, user, token, expires, pick, room)
    case AcceptInvite(pick, now) => Accept(st, pick, now)
    case DeclineInvite(pick) => Decline(st, pick)
    case PurgeInvites(now) => Purge(st, now)
    case Kick(gcid, user, live) => KickUser(st, gcid, user, live)
    case Part(gcid) => PartFrom(st, gcid)
    case Kill(gcid) => KillGC(st, gcid)
    case Upgrade(gcid, v) => UpgradeGC(st, gcid, v)
    case ModifyAdmins(gcid, admins) => ChangeAdmins(st, gcid, admins)
    case ModifyOwner(gcid, user) => ChangeOwner(st, gcid, user)
    case Alias(gcid, alias) => SetAlias(st, gcid, alias)
    case KnownChanged(users) => Done(st.(known := users))
    case Receive(from, p, pick, now) => Received(st, from, p, pick, now)
  }

  /**
   What the random draws and the invite lookup guarantee: fresh invite ids, a
   token no stored invite to the chat has, and a lookup that finds an invite when
   there is one.
   */
  predicate Enabled(st: ClientState, ev: Event) {
    match ev
    case InviteUser(gcid, _, token, _, pick, _) =>
      && pick !in st.invites
      && !exists i :: i in st.invites && st.invites[i].invite.gcid == gcid && st.invites[i].invite.token == token
    case Receive(_, InviteMsg(_), pick, _) => pick !in st.invites
    case Receive(_, JoinMsg(gcid, token, _), pick, _) =>
      (exists i :: i in st.invites && st.invites[i].invite.gcid == gcid && st.invites[i].invite.token == token)
      ==> pick in st.invites && st.invites[pick].invite.gcid == gcid && st.invites[pick].invite.token == token
    case Receive(from, ListMsg(list), pick, _) =>
      (exists i :: i in st.invites && AcceptedFrom(st.invites[i], list.id, from))
      ==> pick in st.invites && AcceptedFrom(st.invites[pick], list.id, from)
    case _ => true
  }

  // ---------- What one step does to one stored list ----------

  datatype Option<+T> = None | Some(value: T)

  function Lookup(st: ClientState, g: GCID): Option<GCMetadata> {
    if g in st.gcs then Some(st.gcs[g].meta) else None
  }

  /** The list a local administrator's action on g makes out of the stored one, if it is let through. */
  function LocalList(st: ClientState, ev: Event, g: GCID): Result<GCMetadata>
    requires g in st.gcs
  {
    var b := st.gcs[g].meta;
    match ev
    case Kick(gcid, u, live) => if gcid == g && live && HasPerm(b, st.local) then RemoveMember(b, u, true) else Err(NotFound)
    case Receive(from, JoinMsg(gcid, _, false), _, _) =>
      if gcid == g && HasPerm(b, st.local) && from !in b.members then Ok(AddMember(b, from)) else Err(NotFound)
    case Upgrade(gcid, v) => if gcid == g then Checked(b, SetVersion(b, v), st.local) else Err(NotFound)
    case ModifyAdmins(gcid, xs) => if gcid == g then Checked(b, SetAdmins(b, xs, st.known), st.local) else Err(NotFound)
    case ModifyOwner(gcid, u) => if gcid == g then Checked(b, SetOwner(b, u), st.local) else Err(NotFound)
    case _ => Err(NotFound)
  }

  function Checked(prev: GCMetadata, r: Result<GCMetadata>, updater: UserID): Result<GCMetadata> {
    if r.Err? then r else CheckUpdate(prev, r.value, updater)
  }

  /** The stored lists keep their keys. */
  predicate Keyed(st: ClientState) {
    forall g :: g in st.gcs ==> st.gcs[g].meta.id == g
  }

  /** Every way one step can change the list stored for g. */
  predicate Explained(st: ClientState, ev: Event, g: GCID, a: Option<GCMetadata>) {
    var b := Lookup(st, g);
    || a == b
    || (b.None? && ev.NewGC? && ev.id == g && a == Some(GCMetadata(g, ev.name, 1, ev.version, [st.local], [])))
    || (b.None? && ev.Receive? && ev.payload.ListMsg? && ev.payload.list.id == g &&
        HasPerm(ev.payload.list, ev.from) && a == Some(ev.payload.list))
    || (b.Some? && ev.Receive? && ev.payload.CarriesList() && ev.payload.list.id == g &&
        CheckUpdate(b.value, ev.payload.list, ev.from).Ok? && a == Replaced(st, ev.payload.list))
    || (b.Some? && ev.Receive? && ev.payload == PartMsg(g) &&
        RemoveMember(b.value, ev.from, false).Ok? && a == Some(RemoveMember(b.value, ev.from, false).value))
    || (b.Some? && ev.Receive? && ev.payload == KillMsg(g) &&
        b.value.members != [] && b.value.members[0] == ev.from && a == None)
    || (b.Some? && ev == Part(g) && b.value.members != [] && b.value.members[0] != st.local && a == None)
    || (b.Some? && ev == Kill(g) && b.value.members != [] && b.value.members[0] == st.local && a == None)
    || (b.Some? && LocalList(st, ev, g).Ok? &&
        a == (if ev.Kick? || ev.Receive? then Some(LocalList(st, ev, g).value)
              else Replaced(st, LocalList(st, ev, g).value)))
  }

  /** A replacement that drops the local client deletes the chat. */
  function Replaced(st: ClientState, list: GCMetadata): Option<GCMetadata> {
    if st.local in list.members then Some(list) else None
  }

  lemma StepExplained(st: ClientState, ev: Event, g: GCID)
    ensures Explained(st, ev, g, Lookup(Step(st, ev).st, g))
  {
    hide Explained, Lookup, Step;
    if ev.Receive? { ReceiveExplained(st, ev, g); } else { ActionExplained(st, ev, g); }
  }

  lemma ActionExplained(st: ClientState, ev: Event, g: GCID)
    requires !ev.Receive?
    ensures Explained(st, ev, g, Lookup(Step(st, ev).st, g))
  {}

  lemma ReceiveExplained(st: ClientState, ev: Event, g: GCID)
    requires ev.Receive?
    ensures Explained(st, ev, g, Lookup(Step(st, ev).st, g))
  {}

  /** Only a local administrator's action sends a list, and what it sends is the new list. */
  lemma StepSends(st: ClientState, ev: Event, p: Packet)
    requires Keyed(st)
    requires p in Step(st, ev).out
    ensures p.from == st.local && (p.to != st.local || p.payload.InviteMsg? || p.payload.JoinMsg?)
    ensures p.payload.CarriesList() ==>
              var g := p.payload.list.id;
              && p.to != st.local
              && g in st.gcs
              && LocalList(st, ev, g) == Ok(p.payload.list)
              && HasPerm(st.gcs[g].meta, st.local)
    ensures p.payload.PartMsg? ==>
              var g := p.payload.gcid;
              ev == Part(g) && g in st.gcs && st.gcs[g].meta.members != [] && st.gcs[g].meta.members[0] != st.local
  {
  }

  lemma StepKeepsKeys(st: ClientState, ev: Event)
    requires Keyed(st)
    ensures Keyed(Step(st, ev).st)
    ensures Step(st, ev).st.local == st.local
  {
  }
}
