/**
 What every event does to one client: when it goes through, which list is stored or deleted then, what
 else changes, and who is told what.
 */
module GroupEffects {
  import opened GroupList
  import opened GroupClient
  import opened Decimal

  // ---------- Rules, in plain terms ----------

  predicate Owns(gl: GCMetadata, u: UserID) { gl.members != [] && gl.members[0] == u }

  /** The owner administers lists of version 0 and 1, extra administrators those of version 1. */
  predicate Administers(gl: GCMetadata, u: UserID) {
    (gl.version <= 1 && Owns(gl, u)) || (gl.version == 1 && u in gl.extraAdmins)
  }

  /** What a list that takes another one's place must be like. */
  predicate Follows(prev: GCMetadata, next: GCMetadata, updater: UserID) {
    && prev.members != [] && next.members != []
    && prev.generation <= next.generation && prev.version <= next.version && prev.name == next.name
    && (prev.members[0] == next.members[0] || Owns(prev, updater))
    && Administers(prev, updater)
  }

  /** t is s without its first u, all else in place. */
  ghost predicate LessOne(s: seq<UserID>, t: seq<UserID>, u: UserID) {
    exists i :: 0 <= i < |s| && s[i] == u && u !in s[..i] && t == s[..i] + s[i + 1..]
  }

  ghost predicate LessOneIfIn(s: seq<UserID>, t: seq<UserID>, u: UserID) {
    if u in s then LessOne(s, t, u) else t == s
  }

  /** The list after a member is taken off, at this generation. */
  ghost predicate TakenOff(b: GCMetadata, l: GCMetadata, u: UserID, generation: Generation) {
    && LessOne(b.members, l.members, u) && LessOneIfIn(b.extraAdmins, l.extraAdmins, u)
    && l.id == b.id && l.name == b.name && l.version == b.version && l.generation == generation
  }

  function Next(g: Generation): Generation { if g == 0xFFFF_FFFF_FFFF_FFFF then 0 else g + 1 }

  /** The step stores l for the chat and changes nothing else. */
  predicate StoresList(st: ClientState, st': ClientState, g: GCID, l: GCMetadata) {
    g in st.gcs && st' == st.(gcs := st.gcs[g := GroupChat(l, st.gcs[g].alias)])
  }

  /** The step deletes the chat and changes nothing else. */
  predicate Deletes(st: ClientState, st': ClientState, g: GCID) {
    g in st.gcs && st' == st.(gcs := map h | h in st.gcs && h != g :: st.gcs[h])
  }

  /** The list replaces the stored one, or ends it for a client it does not list. */
  predicate Replaces(st: ClientState, st': ClientState, g: GCID, l: GCMetadata) {
    if st.local in l.members then StoresList(st, st', g, l) else Deletes(st, st', g)
  }

  /** Exactly the users that are others and known get the message. */
  ghost predicate Tells(st: ClientState, out: set<Packet>, users: seq<UserID>, p: Payload) {
    forall q :: q in out <==> q.from == st.local && q.payload == p && q.to in users && q.to != st.local && q.to in st.known
  }

  /** A step that fails and leaves everything as it was. */
  predicate Refuses(st: ClientState, o: Outcome) { o.result.Err? && o.st == st && o.out == {} }

  lemma PermIs(gl: GCMetadata, u: UserID)
    ensures HasPerm(gl, u) <==> Administers(gl, u)
  {}

  lemma CheckIs(prev: GCMetadata, next: GCMetadata, updater: UserID)
    ensures CheckUpdate(prev, next, updater) == Ok(next) <==> Follows(prev, next, updater)
    ensures CheckUpdate(prev, next, updater).Ok? <==> Follows(prev, next, updater)
  {
    PermIs(prev, updater);
  }

  lemma WithoutIs(s: seq<UserID>, u: UserID)
    ensures u in s ==> LessOne(s, Without(s, u), u)
    ensures LessOneIfIn(s, Without(s, u), u)
  {
    WithoutSplits(s, u);
    if u in s { assert s[IndexOf(s, u)] == u; }
  }

  /** Taking one member off leaves one copy less; the only copy is gone, and all others stay. */
  lemma LessOneMeans(s: seq<UserID>, t: seq<UserID>, u: UserID)
    requires LessOne(s, t, u)
    ensures multiset(s) == multiset(t) + multiset{u}
    ensures NoDup(s) ==> u !in t && NoDup(t) && forall x :: x in t <==> x in s && x != u
  {
    var i :| 0 <= i < |s| && s[i] == u && u !in s[..i] && t == s[..i] + s[i + 1..];
    MultisetLess(s, i);
    hide NoDup;
    if NoDup(s) { NoDupLess(s, i); }
  }

  lemma MultisetLess(s: seq<UserID>, i: nat)
    requires i < |s|
    ensures multiset(s) == multiset(s[..i] + s[i + 1..]) + multiset{s[i]}
  {
    assert s == s[..i] + [s[i]] + s[i + 1..];
  }

  lemma NoDupLess(s: seq<UserID>, i: nat)
    requires NoDup(s) && i < |s|
    ensures var t := s[..i] + s[i + 1..]; NoDup(t) && forall x :: x in t <==> x in s && x != s[i]
  {
    var t := s[..i] + s[i + 1..];
    forall x | x in s && x != s[i] ensures x in t {
      var k :| 0 <= k < |s| && s[k] == x;
      assert t[if k < i then k else k - 1] == x;
    }
  }

  lemma RemoveIs(b: GCMetadata, u: UserID, asAdmin: bool)
    ensures var r := RemoveMember(b, u, asAdmin);
            && (r.Ok? <==> u in b.members && b.members[0] != u)
            && (r.Ok? ==> TakenOff(b, r.value, u, if asAdmin then Next(b.generation) else b.generation))
  {
    WithoutIs(b.members, u);
    WithoutIs(b.extraAdmins, u);
  }

  // ---------- Messages about a held chat ----------

  /** A part message takes its sender off, unless it owns the chat or is not in it. */
  lemma PartTakesOff(st: ClientState, from: UserID, g: GCID, pick: InviteID, now: int)
    ensures var o := Step(st, Receive(from, PartMsg(g), pick, now));
            if g in st.gcs && from in st.gcs[g].meta.members && st.gcs[g].meta.members[0] != from then
              && o.result.Ok? && o.out == {} && g in o.st.gcs
              && var b, l := st.gcs[g].meta, o.st.gcs[g].meta;
                 StoresList(st, o.st, g, l) && TakenOff(b, l, from, b.generation)
            else Refuses(st, o)
  {
    hide RemoveMember;
    if g in st.gcs { RemoveIs(st.gcs[g].meta, from, false); }
  }

  /** A received list takes the place of the stored one exactly when it may. */
  lemma ListReplaces(st: ClientState, from: UserID, p: Payload, pick: InviteID, now: int)
    requires p.CarriesList() && (p.ListMsg? ==> p.list.id in st.gcs)
    ensures var o, g := Step(st, Receive(from, p, pick, now)), p.list.id;
            if g in st.gcs && Follows(st.gcs[g].meta, p.list, from) then
              o.result.Ok? && o.out == {} && Replaces(st, o.st, g, p.list)
            else Refuses(st, o)
  {
    hide CheckUpdate, HasPerm;
    if p.list.id in st.gcs { CheckIs(st.gcs[p.list.id].meta, p.list, from); }
  }

  /** A kill from the owner deletes the chat, any other is refused. */
  lemma KillMessageDeletes(st: ClientState, from: UserID, g: GCID, pick: InviteID, now: int)
    ensures var o := Step(st, Receive(from, KillMsg(g), pick, now));
            if g in st.gcs && Owns(st.gcs[g].meta, from) then o.result.Ok? && o.out == {} && Deletes(st, o.st, g)
            else Refuses(st, o)
  {}

  // ---------- An administrator's actions ----------

  /** A kick takes the member off, one generation on, and tells those who were members. */
  lemma KickTakesOff(st: ClientState, g: GCID, u: UserID, live: bool)
    ensures var o := Step(st, Kick(g, u, live));
            if g in st.gcs && live && Administers(st.gcs[g].meta, st.local) && u in st.gcs[g].meta.members &&
               st.gcs[g].meta.members[0] != u
            then
              && o.result.Ok? && g in o.st.gcs
              && var b, l := st.gcs[g].meta, o.st.gcs[g].meta;
                 && StoresList(st, o.st, g, l) && TakenOff(b, l, u, Next(b.generation))
                 && Tells(st, o.out, b.members, KickMsg(u, l))
            else Refuses(st, o)
  {
    hide RemoveMember, HasPerm;
    if g in st.gcs {
      RemoveIs(st.gcs[g].meta, u, true);
      PermIs(st.gcs[g].meta, st.local);
    }
  }

  /** What an administrator's update needs besides its own checks: room in the generation, and permission. */
  predicate MayUpdate(st: ClientState, g: GCID) {
    && g in st.gcs && st.gcs[g].meta.members != [] && st.gcs[g].meta.generation < 0xFFFF_FFFF_FFFF_FFFF
    && Administers(st.gcs[g].meta, st.local)
  }

  /** An upgrade sets the version, one generation on, and tells the members. */
  lemma UpgradeSets(st: ClientState, g: GCID, v: Version)
    ensures var o := Step(st, Upgrade(g, v));
            if MayUpdate(st, g) && v <= 1 && st.gcs[g].meta.version < v then
              && o.result.Ok?
              && var b := st.gcs[g].meta; var l := b.(version := v, generation := b.generation + 1);
                 Replaces(st, o.st, g, l) && Tells(st, o.out, l.members, UpgradeMsg(l))
            else Refuses(st, o)
  {
    if g in st.gcs {
      var b := st.gcs[g].meta;
      CheckIs(b, b.(version := v, generation := Bump(b.generation)), st.local);
    }
  }

  /** An administrator change sets exactly the named ones, all of them known members of a chat of version 1. */
  lemma AdminsSet(st: ClientState, g: GCID, admins: seq<UserID>)
    ensures var o := Step(st, ModifyAdmins(g, admins));
            if MayUpdate(st, g) && st.gcs[g].meta.version == 1 &&
               forall u :: u in admins ==> u in st.gcs[g].meta.members && u in st.known
            then
              && o.result.Ok?
              && var b := st.gcs[g].meta; var l := b.(extraAdmins := admins, generation := b.generation + 1);
                 Replaces(st, o.st, g, l) && Tells(st, o.out, l.members, AdminsMsg(l))
            else Refuses(st, o)
  {
    if g in st.gcs {
      var b := st.gcs[g].meta;
      CheckIs(b, b.(extraAdmins := admins, generation := Bump(b.generation)), st.local);
    }
  }

  /** The owner and the member change places, and the member is no extra administrator any more. */
  ghost predicate HandedOver(b: GCMetadata, l: GCMetadata, u: UserID) {
    && |l.members| == |b.members| && l.members != [] && l.members[0] == u
    && (exists i :: 0 < i < |b.members| && b.members[i] == u && u !in b.members[..i] && l.members[i] == b.members[0] &&
                    forall k :: 0 < k < |b.members| && k != i ==> l.members[k] == b.members[k])
    && LessOneIfIn(b.extraAdmins, l.extraAdmins, u)
    && l.id == b.id && l.name == b.name && l.version == b.version && l.generation == b.generation + 1
  }

  /** Only the owner hands a chat of version 1 over, to another member. */
  lemma OwnerHandsOver(st: ClientState, g: GCID, u: UserID)
    ensures var o := Step(st, ModifyOwner(g, u));
            if MayUpdate(st, g) && st.gcs[g].meta.version == 1 && Owns(st.gcs[g].meta, st.local) &&
               u in st.gcs[g].meta.members && u != st.local
            then
              && o.result.Ok? && g in o.st.gcs
              && var b, l := st.gcs[g].meta, o.st.gcs[g].meta;
                 StoresList(st, o.st, g, l) && HandedOver(b, l, u) && Tells(st, o.out, l.members, AdminsMsg(l))
            else Refuses(st, o)
  {
    if g in st.gcs {
      var b := st.gcs[g].meta;
      var r := SetOwner(b, u);
      if r.Ok? {
        CheckIs(b, r.value, st.local);
        WithoutIs(b.extraAdmins, u);
        var i := IndexOf(b.members, u);
        assert b.members[i] == u;
        if i > 0 { assert r.value.members[i] == b.members[0]; }
      }
    }
  }

  /** A member that does not own the chat leaves it and tells the others. */
  lemma PartLeaves(st: ClientState, g: GCID)
    ensures var o := Step(st, Part(g));
            if g in st.gcs && st.gcs[g].meta.members != [] && !Owns(st.gcs[g].meta, st.local) then
              o.result.Ok? && Deletes(st, o.st, g) && Tells(st, o.out, st.gcs[g].meta.members, PartMsg(g))
            else Refuses(st, o)
  {}

  /** The owner ends the chat and tells the others. */
  lemma KillDeletes(st: ClientState, g: GCID)
    ensures var o := Step(st, Kill(g));
            if g in st.gcs && Owns(st.gcs[g].meta, st.local) then
              o.result.Ok? && Deletes(st, o.st, g) && Tells(st, o.out, st.gcs[g].meta.members, KillMsg(g))
            else Refuses(st, o)
  {}

  // ---------- Invites and joining ----------

  /** The invite names the chat, bears the token, went to the user and has not expired. */
  predicate Invited(st: ClientState, pick: InviteID, g: GCID, token: nat, user: UserID, now: int) {
    && pick in st.invites
    && var si := st.invites[pick];
       si.invite.gcid == g && si.invite.token == token && si.user == user && si.invite.expires * 1_000_000_000 >= now
  }

  /** No stored invite but this one is touched. */
  predicate UsesUp(invites: map<InviteID, StoredInvite>, invites': map<InviteID, StoredInvite>, pick: InviteID) {
    invites' == map i | i in invites && i != pick :: invites[i]
  }

  /**
   A join with an invite to a chat the client administers uses the invite up; unless the user refuses or
   is in already, it comes last in the members, one generation on, and all members get the list.
   */
  lemma JoinAdds(st: ClientState, from: UserID, g: GCID, token: nat, refused: bool, pick: InviteID, now: int)
    ensures var o := Step(st, Receive(from, JoinMsg(g, token, refused), pick, now));
            if Invited(st, pick, g, token, from, now) && g in st.gcs && Administers(st.gcs[g].meta, st.local) then
              var b := st.gcs[g].meta;
              && UsesUp(st.invites, o.st.invites, pick) && o.st.local == st.local && o.st.known == st.known
              && (o.result.Ok? <==> from !in b.members)
              && if from in b.members || refused then o.st.gcs == st.gcs && o.out == {}
                 else
                   var l := b.(members := b.members + [from], generation := Next(b.generation));
                   o.st.gcs == st.gcs[g := GroupChat(l, st.gcs[g].alias)] && Tells(st, o.out, l.members, ListMsg(l))
            else Refuses(st, o)
  {
    hide HasPerm;
    if g in st.gcs { PermIs(st.gcs[g].meta, st.local); }
  }

  predicate ShowsName(st: ClientState, name: string) {
    exists g :: g in st.gcs && (if st.gcs[g].alias != "" then st.gcs[g].alias else st.gcs[g].meta.name) == name
  }

  /** The alias a new chat is shown under, with the number in it when there is one. */
  ghost predicate FreeAlias(st: ClientState, name: string, base: string, alias: string) {
    if !ShowsName(st, name) then alias == ""
    else
      && alias != "" && !ShowsName(st, alias)
      && exists i: nat :: 0 < i <= |st.gcs| + 1 && alias == base + "_" + Digits(i) &&
                          forall k :: 0 < k < i ==> ShowsName(st, base + "_" + Digits(k))
  }

  /**
   The first list of a chat, from the sender of an accepted invite who administers it, is stored under a
   name no held chat shows, and every invite to the chat is deleted.
   */
  lemma FirstListStores(st: ClientState, from: UserID, list: GCMetadata, pick: InviteID, now: int)
    requires list.id !in st.gcs
    ensures var o := Step(st, Receive(from, ListMsg(list), pick, now));
            if pick in st.invites && st.invites[pick].accepted && st.invites[pick].invite.gcid == list.id &&
               st.invites[pick].user == from && Administers(list, from)
            then
              && o.result.Ok? && o.out == {} && o.st.local == st.local && o.st.known == st.known && list.id in o.st.gcs
              && o.st.gcs == st.gcs[list.id := GroupChat(list, o.st.gcs[list.id].alias)]
              && FreeAlias(st, list.name, st.invites[pick].invite.name, o.st.gcs[list.id].alias)
              && o.st.invites == map i | i in st.invites && st.invites[i].invite.gcid != list.id :: st.invites[i]
            else Refuses(st, o)
  {
    hide HasPerm, AliasIndex, Digits, FreeAlias;
    PermIs(list, from);
    if pick in st.invites { AliasIsFree(st, list.name, st.invites[pick].invite.name); }
  }

  lemma ShownIs(st: ClientState, name: string)
    ensures NameTaken(st, name) <==> ShowsName(st, name)
    ensures name in Names(st) <==> ShowsName(st, name)
  {}

  lemma AliasIsFree(st: ClientState, name: string, base: string)
    ensures FreeAlias(st, name, base,
                      if NameTaken(st, name) then Candidate(base, AliasIndex(Names(st), base, 1)) else "")
  {
    hide ShowsName, NameTaken, Names;
    ShownIs(st, name);
    if NameTaken(st, name) {
      var i := AliasIndex(Names(st), base, 1);
      AliasIndexIsFirstFree(Names(st), base, 1);
      NamesFew(st);
      ShownIs(st, Candidate(base, i));
      forall k | 0 < k < i ensures ShowsName(st, base + "_" + Digits(k)) {
        ShownIs(st, Candidate(base, k));
      }
    }
  }

  lemma NamesFew(st: ClientState)
    ensures |Names(st)| <= |st.gcs|
  {
    ImageFew(st, st.gcs.Keys);
    assert Names(st) == set g | g in st.gcs.Keys && g in st.gcs :: st.gcs[g].Name();
  }

  lemma {:induction false} ImageFew(st: ClientState, keys: set<GCID>)
    ensures |set g | g in keys && g in st.gcs :: st.gcs[g].Name()| <= |keys|
  {
    if keys != {} {
      var k :| k in keys;
      ImageFew(st, keys - {k});
      var all, rest := set g | g in keys && g in st.gcs :: st.gcs[g].Name(), set g | g in keys - {k} && g in st.gcs :: st.gcs[g].Name();
      assert all <= if k in st.gcs then rest + {st.gcs[k].Name()} else rest;
      Subset(all, if k in st.gcs then rest + {st.gcs[k].Name()} else rest);
    }
  }

  lemma Subset(a: set<string>, b: set<string>)
    requires a <= b
    ensures |a| <= |b|
  {
    assert b == a + (b - a);
  }

  /** An administrator invites a known user: the invite is stored and sent to that user alone. */
  lemma InviteSends(st: ClientState, g: GCID, user: UserID, token: nat, expires: int, pick: InviteID, room: bool)
    ensures var o := Step(st, InviteUser(g, user, token, expires, pick, room));
            if user in st.known && g in st.gcs && Administers(st.gcs[g].meta, st.local) && room then
              var b := st.gcs[g].meta; var invite := Invite(g, b.name, b.version, token, expires);
              && o.result.Ok? && o.st == st.(invites := st.invites[pick := StoredInvite(invite, user, false)])
              && o.out == {Packet(st.local, user, InviteMsg(invite))}
            else Refuses(st, o)
  {
    hide HasPerm;
    if g in st.gcs { PermIs(st.gcs[g].meta, st.local); }
  }

  /** A received invite is stored, not accepted, unless it is malformed, too new, expired or to a held chat. */
  lemma InviteMessageStores(st: ClientState, from: UserID, invite: Invite, pick: InviteID, now: int)
    ensures var o := Step(st, Receive(from, InviteMsg(invite), pick, now));
            if invite.gcid == 0 || invite.version > 1 then Refuses(st, o)
            else if invite.expires * 1_000_000_000 < now then o.result.Ok? && o.st == st && o.out == {}
            else if invite.gcid in st.gcs then Refuses(st, o)
            else o.result.Ok? && o.out == {} && o.st == st.(invites := st.invites[pick := StoredInvite(invite, from, false)])
  {}

  /** Accepting marks the invite, and sends the join to its sender if it is known and the invite has not expired. */
  lemma AcceptJoins(st: ClientState, pick: InviteID, now: int)
    ensures var o := Step(st, AcceptInvite(pick, now));
            if pick !in st.invites then Refuses(st, o)
            else
              var si := st.invites[pick];
              && o.st == st.(invites := st.invites[pick := si.(accepted := true)])
              && (o.result.Ok? <==> si.user in st.known && si.invite.expires * 1_000_000_000 >= now)
              && o.out == if o.result.Ok? then {Packet(st.local, si.user, JoinMsg(si.invite.gcid, si.invite.token, false))} else {}
  {}

  /** A chat is created with the local client alone in it, under a name no held chat shows. */
  lemma CreateStores(st: ClientState, name: string, version: Version, id: GCID, isHexID: bool)
    ensures var o := Step(st, NewGC(name, version, id, isHexID));
            if !isHexID && !ShowsName(st, name) && id !in st.gcs then
              o.result.Ok? && o.out == {} &&
              o.st == st.(gcs := st.gcs[id := GroupChat(GCMetadata(id, name, 1, version, [st.local], []), "")])
            else Refuses(st, o)
  {
    hide NameTaken, ShowsName;
    ShownIs(st, name);
  }

  /** An alias is set exactly when it is not empty and no other chat shows it. */
  lemma AliasSets(st: ClientState, g: GCID, alias: string)
    ensures var o := Step(st, Alias(g, alias));
            if alias != "" && g in st.gcs &&
               forall h :: h in st.gcs && h != g ==> (if st.gcs[h].alias != "" then st.gcs[h].alias else st.gcs[h].meta.name) != alias
            then o.result.Ok? && o.out == {} && o.st == st.(gcs := st.gcs[g := GroupChat(st.gcs[g].meta, alias)])
            else Refuses(st, o)
  {}

  /** Declining deletes the invite, and purging those that do not expire later than now; nothing else changes. */
  lemma InvitesGo(st: ClientState, pick: InviteID, now: int)
    ensures var o := Step(st, DeclineInvite(pick));
            if pick in st.invites then
              o.result.Ok? && o.out == {} && o.st.(invites := st.invites) == st && UsesUp(st.invites, o.st.invites, pick)
            else Refuses(st, o)
    ensures var o := Step(st, PurgeInvites(now));
            && o.result.Ok? && o.out == {} && o.st.(invites := st.invites) == st
            && forall i :: (i in o.st.invites <==> i in st.invites && st.invites[i].invite.expires * 1_000_000_000 > now) &&
                           (i in o.st.invites ==> o.st.invites[i] == st.invites[i])
  {}
}
