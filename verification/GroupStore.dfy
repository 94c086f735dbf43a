/**
 The client object: its stored group chats and invites are fields that the
 handlers look up, change and save. Every method is proved against the step
 function of GroupClient.
 */
module GroupStore {
  import opened GroupList
  import opened GroupClient

  class Client {
    const local: UserID
    var gcs: map<GCID, GroupChat>
    var invites: map<InviteID, StoredInvite>
    var known: set<UserID>

    constructor (local: UserID)
      ensures State() == ClientState(local, map[], map[], {})
    {
      this.local := local;
      gcs, invites, known := map[], map[], {};
    }

    ghost function State(): ClientState
      reads this
    {
      ClientState(local, gcs, invites, known)
    }

    // ---------- Lookups ----------

    /** Whether some chat shows this name. */
    method GCIDByName(name: string) returns (found: bool)
      ensures found == NameTaken(State(), name)
    {
      found := false;
      var left := gcs.Keys;
      while left != {} && !found
        invariant left <= gcs.Keys
        invariant forall g :: g in gcs && g !in left ==> gcs[g].Name() != name || found
        invariant found ==> NameTaken(State(), name)
        decreases |left|
      {
        var g :| g in left;
        left := left - {g};
        if gcs[g].Name() == name {
          found := true;
        }
      }
    }

    /** Some stored invite to the chat with the token; records are visited in no particular order. */
    method FindGCInvite(gcid: GCID, token: nat) returns (found: bool, pick: InviteID)
      ensures found ==> pick in invites && invites[pick].invite.gcid == gcid && invites[pick].invite.token == token
      ensures !found ==> forall i :: i in invites ==> !(invites[i].invite.gcid == gcid && invites[i].invite.token == token)
    {
      found, pick := false, 0;
      var left := invites.Keys;
      while left != {} && !found
        invariant left <= invites.Keys
        invariant found ==> pick in invites && invites[pick].invite.gcid == gcid && invites[pick].invite.token == token
        invariant !found ==> forall i :: i in invites && i !in left ==>
                               !(invites[i].invite.gcid == gcid && invites[i].invite.token == token)
        decreases |left|
      {
        var i :| i in left;
        left := left - {i};
        if invites[i].invite.gcid == gcid && invites[i].invite.token == token {
          found, pick := true, i;
        }
      }
    }

    /** Some accepted invite to the chat from the user. */
    method FindAcceptedGCInvite(gcid: GCID, from: UserID) returns (found: bool, pick: InviteID)
      ensures found ==> pick in invites && AcceptedFrom(invites[pick], gcid, from)
      ensures !found ==> forall i :: i in invites ==> !AcceptedFrom(invites[i], gcid, from)
    {
      found, pick := false, 0;
      var left := invites.Keys;
      while left != {} && !found
        invariant left <= invites.Keys
        invariant found ==> pick in invites && AcceptedFrom(invites[pick], gcid, from)
        invariant !found ==> forall i :: i in invites && i !in left ==> !AcceptedFrom(invites[i], gcid, from)
        decreases |left|
      {
        var i :| i in left;
        left := left - {i};
        if AcceptedFrom(invites[i], gcid, from) {
          found, pick := true, i;
        }
      }
    }

    method SendToGCMembers(members: seq<UserID>, p: Payload) returns (out: set<Packet>)
      ensures out == ToMembers(State(), members, p)
    {
      out := {};
      for k := 0 to |members|
        invariant out == ToMembers(State(), members[..k], p)
      {
        if members[k] != local && members[k] in known {
          out := out + {Packet(local, members[k], p)};
        }
        assert members[..k + 1] == members[..k] + [members[k]];
      }
      assert members[..|members|] == members;
    }

    // ---------- Updates through the guard ----------

    method MaybeUpdateGCFunc(gcid: GCID, updater: UserID, f: GCMetadata -> Result<GCMetadata>)
      returns (r: Result<GCMetadata>)
      modifies this`gcs
      ensures (State(), r) == MaybeUpdate(old(State()), gcid, updater, f)
    {
      if gcid !in gcs { return Err(NotFound); }
      var gc := gcs[gcid];
      if |gc.meta.members| == 0 { return Err(NoMembers); }
      var made := f(gc.meta);
      if made.Err? { return made; }
      var next := made.value;
      if next.generation < gc.meta.generation { return Err(Backtrack); }
      if next.version < gc.meta.version { return Err(Downgrade); }
      if next.name != gc.meta.name { return Err(Renamed); }
      if |next.members| == 0 { return Err(NoMembers); }
      if gc.meta.members[0] != next.members[0] && gc.meta.members[0] != updater { return Err(OnlyOwner); }
      if !HasPerm(gc.meta, updater) { return Err(NotPermitted); }
      if local !in next.members {
        gcs := gcs - {gcid};
      } else {
        gcs := gcs[gcid := GroupChat(next, gc.alias)];
      }
      return made;
    }

    method HandleNewList(from: UserID, list: GCMetadata) returns (r: Result<()>)
      modifies this`gcs
      ensures Outcome(State(), {}, r) == ReplaceList(old(State()), from, list)
    {
      var u := MaybeUpdateGCFunc(list.id, from, _ => Ok(list));
      r := if u.Err? then Err(u.error) else Ok(());
    }

    method UpgradeGC(gcid: GCID, version: Version) returns (out: set<Packet>, r: Result<()>)
      modifies this`gcs
      ensures Outcome(State(), out, r) == GroupClient.UpgradeGC(old(State()), gcid, version)
    {
      if version > MAX_SUPPORTED_VERSION { return {}, Err(UnsupportedVersion); }
      var u := MaybeUpdateGCFunc(gcid, local,
        (gl: GCMetadata) => if gl.version >= version then Err(Downgrade)
              else Ok(gl.(version := version, generation := Bump(gl.generation))));
      if u.Err? { return {}, Err(u.error); }
      out := SendToGCMembers(u.value.members, UpgradeMsg(u.value));
      r := Ok(());
    }

    method ModifyGCAdmins(gcid: GCID, admins: seq<UserID>) returns (out: set<Packet>, r: Result<()>)
      modifies this`gcs
      ensures Outcome(State(), out, r) == ChangeAdmins(old(State()), gcid, admins)
    {
      var users := known;
      var u := MaybeUpdateGCFunc(gcid, local, gl => SetAdmins(gl, admins, users));
      if u.Err? { return {}, Err(u.error); }
      out := SendToGCMembers(u.value.members, AdminsMsg(u.value));
      r := Ok(());
    }

    method ModifyGCOwner(gcid: GCID, newOwner: UserID) returns (out: set<Packet>, r: Result<()>)
      modifies this`gcs
      ensures Outcome(State(), out, r) == ChangeOwner(old(State()), gcid, newOwner)
    {
      var u := MaybeUpdateGCFunc(gcid, local, gl => SetOwner(gl, newOwner));
      if u.Err? { return {}, Err(u.error); }
      out := SendToGCMembers(u.value.members, AdminsMsg(u.value));
      r := Ok(());
    }

    // ---------- Removing members ----------

    method RemoveMemberFromGC(gcid: GCID, user: UserID, asAdmin: bool) returns (r: Result<GCMetadata>)
      modifies this`gcs
      ensures (State(), r) == RemoveFromGC(old(State()), gcid, user, asAdmin)
    {
      if gcid !in gcs { return Err(NotFound); }
      var gc := gcs[gcid];
      var meta := gc.meta;
      if asAdmin && !HasPerm(meta, local) { return Err(NotPermitted); }
      var newMembers: seq<UserID> := [];
      for i := 0 to |meta.members|
        invariant newMembers == []
        invariant forall j :: 0 <= j < i ==> meta.members[j] != user
      {
        if meta.members[i] == user {
          if i == 0 { return Err(CannotRemoveOwner); }
          newMembers := meta.members[..i] + meta.members[i + 1..];
          WithoutAt(meta.members, user, i);
          break;
        }
      }
      if |newMembers| == 0 { return Err(NotMember); }
      WithoutSplits(meta.extraAdmins, user);
      if user in meta.extraAdmins {
        var k := IndexOf(meta.extraAdmins, user);
        meta := meta.(extraAdmins := meta.extraAdmins[..k] + meta.extraAdmins[k + 1..]);
      }
      meta := meta.(members := newMembers);
      if asAdmin {
        meta := meta.(generation := Bump(meta.generation));
      }
      gcs := gcs[gcid := GroupChat(meta, gc.alias)];
      return Ok(meta);
    }

    method GCKick(gcid: GCID, user: UserID, live: bool) returns (out: set<Packet>, r: Result<()>)
      modifies this`gcs
      ensures Outcome(State(), out, r) == KickUser(old(State()), gcid, user, live)
    {
      if gcid !in gcs { return {}, Err(NotFound); }
      if !live { return {}, Err(SessionRefuses); }
      var oldMembers := gcs[gcid].meta.members;
      var u := RemoveMemberFromGC(gcid, user, true);
      if u.Err? { return {}, Err(u.error); }
      out := SendToGCMembers(oldMembers, KickMsg(user, u.value));
      r := Ok(());
    }

    method HandleGCPart(from: UserID, gcid: GCID) returns (r: Result<()>)
      modifies this`gcs
      ensures Outcome(State(), {}, r) == PartReceived(old(State()), from, gcid)
    {
      var u := RemoveMemberFromGC(gcid, from, false);
      r := if u.Err? then Err(u.error) else Ok(());
    }

    method PartFromGC(gcid: GCID) returns (out: set<Packet>, r: Result<()>)
      modifies this`gcs
      ensures Outcome(State(), out, r) == PartFrom(old(State()), gcid)
    {
      if gcid !in gcs { return {}, Err(NotFound); }
      var meta := gcs[gcid].meta;
      if |meta.members| == 0 || meta.members[0] == local { return {}, Err(OnlyOwner); }
      gcs := gcs - {gcid};
      out := SendToGCMembers(meta.members, PartMsg(gcid));
      r := Ok(());
    }

    method KillGroupChat(gcid: GCID) returns (out: set<Packet>, r: Result<()>)
      modifies this`gcs
      ensures Outcome(State(), out, r) == KillGC(old(State()), gcid)
    {
      if gcid !in gcs { return {}, Err(NotFound); }
      var meta := gcs[gcid].meta;
      if |meta.members| == 0 || meta.members[0] != local { return {}, Err(OnlyOwner); }
      gcs := gcs - {gcid};
      out := SendToGCMembers(meta.members, KillMsg(gcid));
      r := Ok(());
    }

    method HandleGCKill(from: UserID, gcid: GCID) returns (r: Result<()>)
      modifies this`gcs
      ensures Outcome(State(), {}, r) == KillReceived(old(State()), from, gcid)
    {
      if gcid !in gcs { return Err(NotFound); }
      var meta := gcs[gcid].meta;
      if |meta.members| == 0 || meta.members[0] != from { return Err(OnlyOwner); }
      gcs := gcs - {gcid};
      return Ok(());
    }

    // ---------- Invites and joining ----------

    method InviteToGroupChat(gcid: GCID, user: UserID, token: nat, expires: int, drawn: InviteID,
                             room: bool)
      returns (out: set<Packet>, r: Result<()>)
      modifies this`invites
      ensures Outcome(State(), out, r) == SendInvite(old(State()), gcid, user, token, expires, drawn, room)
    {
      if user !in known { return {}, Err(UnknownUser); }
      if gcid !in gcs { return {}, Err(NotFound); }
      var meta := gcs[gcid].meta;
      if !HasPerm(meta, local) { return {}, Err(NotPermitted); }
      if !room { return {}, Err(SessionRefuses); }
      var invite := Invite(gcid, meta.name, meta.version, token, expires);
      invites := invites[drawn := StoredInvite(invite, user, false)];
      return {Packet(local, user, InviteMsg(invite))}, Ok(());
    }

    method HandleGCInvite(from: UserID, invite: Invite, now: int, drawn: InviteID) returns (r: Result<()>)
      modifies this`invites
      ensures Outcome(State(), {}, r) == InviteReceived(old(State()), from, invite, drawn, now)
    {
      if invite.gcid == EMPTY_ID { return Err(NotFound); }
      if invite.version > MAX_SUPPORTED_VERSION { return Err(UnsupportedVersion); }
      if IsExpired(invite, now) { return Ok(()); }
      if invite.gcid in gcs { return Err(AlreadyExists); }
      invites := invites[drawn := StoredInvite(invite, from, false)];
      return Ok(());
    }

    method AcceptGroupChatInvite(pick: InviteID, now: int) returns (out: set<Packet>, r: Result<()>)
      modifies this`invites
      ensures Outcome(State(), out, r) == Accept(old(State()), pick, now)
    {
      if pick !in invites { return {}, Err(NotFound); }
      var si := invites[pick];
      invites := invites[pick := StoredInvite(si.invite, si.user, true)];
      if si.user !in known { return {}, Err(UnknownUser); }
      if IsExpired(si.invite, now) { return {}, Err(Expired); }
      return {Packet(local, si.user, JoinMsg(si.invite.gcid, si.invite.token, false))}, Ok(());
    }

    method DeclineGroupChatInvite(pick: InviteID) returns (r: Result<()>)
      modifies this`invites
      ensures Outcome(State(), {}, r) == Decline(old(State()), pick)
    {
      if pick !in invites { return Err(NotFound); }
      invites := invites - {pick};
      return Ok(());
    }

    method RemoveExpiredGCInvites(now: int)
      modifies this`invites
      ensures Outcome(State(), {}, Ok(())) == Purge(old(State()), now)
    {
      var left := invites.Keys;
      while left != {}
        invariant left <= old(invites).Keys
        invariant forall i :: i in invites <==>
                    i in old(invites) && (i in left || old(invites)[i].invite.expires * NANOS > now)
        invariant forall i :: i in invites ==> invites[i] == old(invites)[i]
        decreases |left|
      {
        var i :| i in left;
        left := left - {i};
        if !(invites[i].invite.expires * NANOS > now) {
          invites := invites - {i};
        }
      }
      assert invites == Purge(old(State()), now).st.invites;
    }

    method DelAllInvitesToGC(gcid: GCID)
      modifies this`invites
      ensures invites == map i | i in old(invites) && old(invites)[i].invite.gcid != gcid :: old(invites)[i]
    {
      var left := invites.Keys;
      while left != {}
        invariant left <= old(invites).Keys
        invariant forall i :: i in invites <==> i in old(invites) && (i in left || old(invites)[i].invite.gcid != gcid)
        invariant forall i :: i in invites ==> invites[i] == old(invites)[i]
        decreases |left|
      {
        var i :| i in left;
        left := left - {i};
        if invites[i].invite.gcid == gcid {
          invites := invites - {i};
        }
      }
    }

    method HandleGCJoin(from: UserID, gcid: GCID, token: nat, refused: bool, now: int)
      returns (out: set<Packet>, r: Result<()>, pick: InviteID)
      modifies this`gcs, this`invites
      ensures Enabled(old(State()), Receive(from, JoinMsg(gcid, token, refused), pick, now))
      ensures Outcome(State(), out, r) == JoinReceived(old(State()), from, gcid, token, refused, pick, now)
    {
      var found;
      found, pick := FindGCInvite(gcid, token);
      if !found { return {}, Err(NotFound), pick; }
      var sent := invites[pick];
      if IsExpired(sent.invite, now) { return {}, Err(Expired), pick; }
      if sent.user != from { return {}, Err(WrongUser), pick; }
      if gcid !in gcs { return {}, Err(NotFound), pick; }
      var gc := gcs[gcid];
      if !HasPerm(gc.meta, local) { return {}, Err(NotPermitted), pick; }
      invites := invites - {pick};
      if from in gc.meta.members { return {}, Err(AlreadyMember), pick; }
      if refused { return {}, Ok(()), pick; }
      var meta := gc.meta.(members := gc.meta.members + [from], generation := Bump(gc.meta.generation));
      gcs := gcs[gcid := GroupChat(meta, gc.alias)];
      out := SendToGCMembers(meta.members, ListMsg(meta));
      r := Ok(());
    }

    /** The first list after asking to join; a taken name gets a numbered alias. */
    method SaveJoinedGC(from: UserID, list: GCMetadata) returns (r: Result<()>, pick: InviteID)
      requires list.id !in gcs
      modifies this`gcs, this`invites
      ensures Enabled(old(State()), Receive(from, ListMsg(list), pick, 0))
      ensures Outcome(State(), {}, r) == SaveJoined(old(State()), from, list, pick)
    {
      var found;
      found, pick := FindAcceptedGCInvite(list.id, from);
      if !found { return Err(NotFound), pick; }
      var base := invites[pick].invite.name;
      if !HasPerm(list, from) { return Err(NotPermitted), pick; }
      ghost var was := State();
      DelAllInvitesToGC(list.id);
      SameNames(was, State(), list.name);
      var alias := FreeAlias(list.name, base);
      gcs := gcs[list.id := GroupChat(list, alias)];
      r := Ok(());
    }

    /** No alias for a name no chat shows; else the first candidate that no chat shows. */
    method FreeAlias(name: string, base: string) returns (alias: string)
      ensures alias == if NameTaken(State(), name) then Candidate(base, AliasIndex(Names(State()), base, 1)) else ""
    {
      alias := "";
      var taken := GCIDByName(name);
      var i := 1;
      ghost var last := AliasIndex(Names(State()), base, 1);
      AliasIndexIsFirstFree(Names(State()), base, 1);
      while taken
        invariant 1 <= i <= last + 1
        invariant i == 1 ==> alias == "" && taken == NameTaken(State(), name)
        invariant i > 1 ==> alias == Candidate(base, i - 1) && taken == (i <= last) && NameTaken(State(), name)
        decreases last + 1 - i
      {
        alias := Candidate(base, i);
        taken := GCIDByName(alias);
        assert alias in Names(State()) <==> NameTaken(State(), alias);
        i := i + 1;
      }
    }

    method HandleGCList(from: UserID, list: GCMetadata) returns (r: Result<()>, pick: InviteID)
      modifies this`gcs, this`invites
      ensures Enabled(old(State()), Receive(from, ListMsg(list), pick, 0)) || list.id in old(gcs)
      ensures Outcome(State(), {}, r) == ListReceived(old(State()), from, list, pick)
    {
      pick := 0;
      if list.id in gcs {
        r := HandleNewList(from, list);
      } else {
        r, pick := SaveJoinedGC(from, list);
      }
    }

    // ---------- Creation and aliases ----------

    method NewGroupChatVersion(name: string, version: Version, drawn: GCID, isHexID: bool) returns (r: Result<()>)
      modifies this`gcs
      ensures Outcome(State(), {}, r) == Create(old(State()), name, version, drawn, isHexID)
    {
      if isHexID { return Err(AlreadyExists); }
      var taken := GCIDByName(name);
      if taken || drawn in gcs { return Err(AlreadyExists); }
      gcs := gcs[drawn := GroupChat(GCMetadata(drawn, name, 1, version, [local], []), "")];
      return Ok(());
    }

    method AliasGC(gcid: GCID, alias: string) returns (r: Result<()>)
      modifies this`gcs
      ensures Outcome(State(), {}, r) == SetAlias(old(State()), gcid, alias)
    {
      if alias == "" { return Err(EmptyName); }
      if gcid !in gcs { return Err(NotFound); }
      var left := gcs.Keys;
      while left != {}
        invariant left <= gcs.Keys && gcs == old(gcs)
        invariant forall g :: g in gcs && g !in left && g != gcid ==> gcs[g].Name() != alias
        decreases |left|
      {
        var g :| g in left;
        left := left - {g};
        if g != gcid && gcs[g].Name() == alias { return Err(AlreadyExists); }
      }
      gcs := gcs[gcid := GroupChat(gcs[gcid].meta, alias)];
      return Ok(());
    }
  }

  lemma SameNames(st: ClientState, st': ClientState, name: string)
    requires st.gcs == st'.gcs
    ensures Names(st) == Names(st') && NameTaken(st, name) == NameTaken(st', name)
  {}

  lemma WithoutAt(s: seq<UserID>, u: UserID, i: nat)
    requires i < |s| && s[i] == u && forall j :: 0 <= j < i ==> s[j] != u
    ensures Without(s, u) == s[..i] + s[i + 1..]
  {
    WithoutSplits(s, u);
  }
}
