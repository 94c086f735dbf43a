/**
 Properties of one client over whole runs: the life of a stored group chat, the
 invites behind every member it adds, and the distinctness of display names.
 */
module GroupHistory {
  import opened GroupList
  import opened GroupClient

  /** The state after a sequence of events. */
  function After(st: ClientState, evs: seq<Event>): ClientState {
    if evs == [] then st
    else Step(After(st, evs[..|evs| - 1]), evs[|evs| - 1]).st
  }

  lemma AfterNext(st: ClientState, evs: seq<Event>, k: nat)
    requires k < |evs|
    ensures After(st, evs[..k + 1]) == Step(After(st, evs[..k]), evs[k]).st
  {
    assert evs[..k + 1][..k] == evs[..k];
  }

  // ---------- The life of one stored record ----------

  /** The owner replaces itself, by a list it sent or by a local action. */
  predicate OwnerHandsOver(st: ClientState, ev: Event, g: GCID)
    requires g in st.gcs && st.gcs[g].meta.members != []
  {
    var owner := st.gcs[g].meta.members[0];
    || (ev.Receive? && ev.payload.CarriesList() && ev.payload.list.id == g && ev.from == owner)
    || (ev.ModifyOwner? && ev.gcid == g && st.local == owner)
  }

  /** The guards of a kick and of a join, the two changes that do not go through the guard of updates. */
  predicate Admits(st: ClientState, ev: Event, g: GCID)
    requires g in st.gcs
  {
    var gl := st.gcs[g].meta;
    match ev
    case Kick(gcid, u, live) =>
      gcid == g && live && HasPerm(gl, st.local) && u in gl.members && gl.members[0] != u
    case Receive(from, JoinMsg(gcid, token, refused), pick, now) =>
      && gcid == g && !refused && pick in st.invites
      && var si := st.invites[pick];
         && si.invite.gcid == gcid && si.invite.token == token && si.user == from && !IsExpired(si.invite, now)
         && HasPerm(gl, st.local) && from !in gl.members
    case _ => false
  }

  /** A kick or a join that goes through at the largest generation. */
  predicate WrapsAt(st: ClientState, ev: Event, g: GCID)
    requires g in st.gcs
  {
    st.gcs[g].meta.generation == MAX_GENERATION && Admits(st, ev, g)
  }

  /** A kick or a join that its guards let through makes the administrator's new list, which is then stored. */
  lemma StepAdmits(st: ClientState, ev: Event, g: GCID)
    requires g in st.gcs
    requires (ev.Kick? && ev.gcid == g) || (ev.Receive? && ev.payload.JoinMsg? && ev.payload.gcid == g && !ev.payload.refused)
    ensures Step(st, ev).result.Ok? <==> Admits(st, ev, g)
    ensures Admits(st, ev, g) ==>
              LocalList(st, ev, g).Ok? && Lookup(Step(st, ev).st, g) == Some(LocalList(st, ev, g).value)
    ensures !Admits(st, ev, g) ==> Lookup(Step(st, ev).st, g) == Lookup(st, g)
  {
  }

  /** One step of a record that survives it. */
  lemma RecordStep(st: ClientState, ev: Event, g: GCID)
    requires g in st.gcs && st.gcs[g].meta.members != [] && g in Step(st, ev).st.gcs
    ensures var b, a := st.gcs[g].meta, Step(st, ev).st.gcs[g].meta;
            && a.members != [] && a.name == b.name && b.version <= a.version
            && (a.generation < b.generation <==> WrapsAt(st, ev, g))
            && (a.members[0] != b.members[0] ==> OwnerHandsOver(st, ev, g))
            && (b.version > 1 && a != b ==> ev.Receive? && ev.payload == PartMsg(g))
  {
    hide Step;
    StepExplained(st, ev, g);
    var b, a := st.gcs[g].meta, Step(st, ev).st.gcs[g].meta;
    if ev.Kick? {
      if ev.gcid == g { StepAdmits(st, ev, g); }
      WithoutSplits(b.members, ev.user);
    } else if ev.Receive? {
      if ev.payload.JoinMsg? && ev.payload.gcid == g && !ev.payload.refused { StepAdmits(st, ev, g); }
      WithoutSplits(b.members, ev.from);
    }
  }

  predicate Held(st: ClientState, evs: seq<Event>, g: GCID) {
    forall k :: 0 <= k <= |evs| ==> g in After(st, evs[..k]).gcs
  }

  /** The conditions met at step k of a run that holds g throughout. */
  predicate HandsOverAt(st: ClientState, evs: seq<Event>, g: GCID, k: nat)
    requires k < |evs|
  {
    var s := After(st, evs[..k]);
    g in s.gcs && s.gcs[g].meta.members != [] && OwnerHandsOver(s, evs[k], g)
  }

  predicate WrapsAtStep(st: ClientState, evs: seq<Event>, g: GCID, k: nat)
    requires k < |evs|
  {
    var s := After(st, evs[..k]);
    g in s.gcs && WrapsAt(s, evs[k], g)
  }

  /**
   The life of one record under any events and messages at all: its name stays,
   its version and (short of a wrap of the counter) its generation never
   decrease, it never runs out of members, only its owner changes its owner, and
   past version 1 only a parting member changes it.
   */
  lemma {:induction false} RecordLife(st: ClientState, evs: seq<Event>, g: GCID)
    requires Held(st, evs, g) && g in st.gcs && st.gcs[g].meta.members != []
    ensures g in After(st, evs).gcs
    ensures var b, a := st.gcs[g].meta, After(st, evs).gcs[g].meta;
            && a.members != [] && a.name == b.name && b.version <= a.version
            && (a.generation < b.generation ==> exists k :: 0 <= k < |evs| && WrapsAtStep(st, evs, g, k))
            && (a.members[0] != b.members[0] ==> exists k :: 0 <= k < |evs| && HandsOverAt(st, evs, g, k))
            && (b.version > 1 && a != b ==> exists k :: 0 <= k < |evs| && evs[k].Receive? && evs[k].payload == PartMsg(g))
  {
    hide Step;
    assert evs[..|evs|] == evs;
    if evs != [] {
      var n := |evs| - 1;
      var front := evs[..n];
      assert forall k :: 0 <= k <= n ==> front[..k] == evs[..k];
      RecordLife(st, front, g);
      RecordStep(After(st, front), evs[n], g);
      assert forall k :: 0 <= k < n && WrapsAtStep(st, front, g, k) ==> WrapsAtStep(st, evs, g, k);
      assert forall k :: 0 <= k < n && HandsOverAt(st, front, g, k) ==> HandsOverAt(st, evs, g, k);
      assert forall k :: 0 <= k < n ==> front[k] == evs[k];
      var b, m, a := st.gcs[g].meta, After(st, front).gcs[g].meta, After(st, evs).gcs[g].meta;
      if a.generation < b.generation && m.generation >= b.generation {
        assert WrapsAtStep(st, evs, g, n);
      }
      if a.members[0] != b.members[0] && m.members[0] == b.members[0] {
        assert HandsOverAt(st, evs, g, n);
      }
    }
  }

  /** The wrap does happen: a kick at the largest generation brings it down to zero. */
  lemma GenerationCanDrop()
    ensures var gl := GCMetadata(5, "gc", MAX_GENERATION, 1, [1, 2], []);
            var st := ClientState(1, map[5 := GroupChat(gl, "")], map[], {2});
            var st' := Step(st, Kick(5, 2, true)).st;
            5 in st'.gcs && st'.gcs[5].meta.generation == 0
  {}

  // ---------- Every added member had its own invite ----------

  predicate EnabledRun(st: ClientState, evs: seq<Event>) {
    forall k :: 0 <= k < |evs| ==> Enabled(After(st, evs[..k]), evs[k])
  }

  /** New chats get ids no stored invite mentions: they are 32 random bytes. */
  predicate FreshChatIDs(st: ClientState, evs: seq<Event>) {
    forall k, i :: 0 <= k < |evs| && evs[k].NewGC? && i in After(st, evs[..k]).invites ==>
      After(st, evs[..k]).invites[i].invite.gcid != evs[k].id
  }

  /** Step k stores an invite under this id. */
  predicate Stores(st: ClientState, evs: seq<Event>, k: nat, pick: InviteID)
    requires k < |evs|
  {
    var s := After(st, evs[..k]);
    && pick !in s.invites
    && pick in Step(s, evs[k]).st.invites
  }

  /** Step k sends this invite of the local client's and stores it under `pick`. */
  predicate Sends(st: ClientState, evs: seq<Event>, k: nat, pick: InviteID, gcid: GCID, user: UserID, expires: int)
    requires k < |evs|
  {
    var s := After(st, evs[..k]);
    && evs[k].InviteUser? && evs[k].pick == pick
    && evs[k].gcid == gcid && evs[k].user == user && evs[k].expires == expires
    && Step(s, evs[k]).result.Ok?
  }

  /** The last of the first n steps to store an invite under `pick`; n when there is none. */
  function Creator(st: ClientState, evs: seq<Event>, n: nat, pick: InviteID): (j: nat)
    requires n <= |evs|
    ensures j < n ==> Stores(st, evs, j, pick)
    ensures forall k :: 0 <= k < n && Stores(st, evs, k, pick) ==> j < n && k <= j
  {
    if n == 0 then 0
    else if Stores(st, evs, n - 1, pick) then n - 1
    else
      var j := Creator(st, evs, n - 1, pick);
      if j == n - 1 then n else j
  }

  /** Step k adds a member to a chat this client administers. */
  predicate AddsMember(st: ClientState, evs: seq<Event>, k: nat)
    requires k < |evs|
  {
    && evs[k].Receive? && evs[k].payload.JoinMsg? && !evs[k].payload.refused
    && Step(After(st, evs[..k]), evs[k]).result.Ok?
  }

  predicate Unstarted(st: ClientState) { st.gcs == map[] && st.invites == map[] }

  /** The invite stored under i after n steps has a creator, and if its chat is held it was sent from here. */
  predicate InviteOwn(st: ClientState, evs: seq<Event>, n: nat, i: InviteID)
    requires n <= |evs| && i in After(st, evs[..n]).invites
  {
    var s, j := After(st, evs[..n]), Creator(st, evs, n, i);
    && j < n
    && (s.invites[i].invite.gcid in s.gcs ==>
          Sends(st, evs, j, i, s.invites[i].invite.gcid, s.invites[i].user, s.invites[i].invite.expires))
  }

  predicate InvitesOwn(st: ClientState, evs: seq<Event>, n: nat)
    requires n <= |evs|
  {
    forall i :: i in After(st, evs[..n]).invites ==> InviteOwn(st, evs, n, i)
  }

  lemma {:induction false} InvitesOwnAlways(st: ClientState, evs: seq<Event>, n: nat)
    requires Unstarted(st) && EnabledRun(st, evs) && FreshChatIDs(st, evs) && n <= |evs|
    ensures InvitesOwn(st, evs, n)
  {
    hide Step;
    if n > 0 {
      InvitesOwnAlways(st, evs, n - 1);
      AfterNext(st, evs, n - 1);
      forall i | i in After(st, evs[..n]).invites ensures InviteOwn(st, evs, n, i) {
        InviteOwnNext(st, evs, n, i);
      }
    }
  }

  lemma InviteOwnNext(st: ClientState, evs: seq<Event>, n: nat, i: InviteID)
    requires EnabledRun(st, evs) && FreshChatIDs(st, evs) && 0 < n <= |evs| && InvitesOwn(st, evs, n - 1)
    requires i in After(st, evs[..n]).invites
    ensures InviteOwn(st, evs, n, i)
  {
    hide Step, Enabled;
    AfterNext(st, evs, n - 1);
    var s, ev := After(st, evs[..n - 1]), evs[n - 1];
    assert Enabled(s, ev);
    if i in s.invites {
      assert InviteOwn(st, evs, n - 1, i);
      assert Creator(st, evs, n, i) == Creator(st, evs, n - 1, i);
      InviteKept(s, ev, i);
    } else {
      assert Stores(st, evs, n - 1, i);
      InviteStored(s, ev, i);
    }
  }

  /** A stored invite that survives a step names the same user, chat and expiry, to a chat that was held before. */
  lemma InviteKept(s: ClientState, ev: Event, i: InviteID)
    requires i in s.invites && i in Step(s, ev).st.invites && Enabled(s, ev)
    requires ev.NewGC? ==> s.invites[i].invite.gcid != ev.id
    ensures var s' := Step(s, ev).st;
            && s'.invites[i].user == s.invites[i].user
            && s'.invites[i].invite == s.invites[i].invite
            && (s'.invites[i].invite.gcid in s'.gcs ==> s.invites[i].invite.gcid in s.gcs)
  {
    hide MaybeUpdate, SetVersion, SetAdmins, SetOwner, CheckUpdate, RemoveMember, AliasIndex, HasPerm;
    match ev
    case Upgrade(gcid, v) => UpdateKeepsInvites(s, gcid, s.local, gl => SetVersion(gl, v));
    case ModifyAdmins(gcid, admins) =>
      var known := s.known;
      UpdateKeepsInvites(s, gcid, s.local, gl => SetAdmins(gl, admins, known));
    case ModifyOwner(gcid, user) => UpdateKeepsInvites(s, gcid, s.local, gl => SetOwner(gl, user));
    case Receive(from, payload, _, _) =>
      if payload.CarriesList() { UpdateKeepsInvites(s, payload.list.id, from, _ => Ok(payload.list)); }
    case _ =>
  }

  lemma UpdateKeepsInvites(s: ClientState, gcid: GCID, updater: UserID, f: GCMetadata -> Result<GCMetadata>)
    ensures var s' := MaybeUpdate(s, gcid, updater, f).0; s'.invites == s.invites && s'.gcs.Keys <= s.gcs.Keys
  {}


  /** A new stored invite to a held chat was sent by this step. */
  lemma InviteStored(s: ClientState, ev: Event, i: InviteID)
    requires i !in s.invites && i in Step(s, ev).st.invites
    ensures var s' := Step(s, ev).st;
            s'.invites[i].invite.gcid in s'.gcs ==>
              && ev.InviteUser? && ev.pick == i && Step(s, ev).result.Ok?
              && ev.gcid == s'.invites[i].invite.gcid && ev.user == s'.invites[i].user
              && ev.expires == s'.invites[i].invite.expires
  {
  }

  /** An admitted join had its invite stored, and consumes it. */
  lemma JoinConsumes(s: ClientState, ev: Event)
    requires ev.Receive? && ev.payload.JoinMsg? && !ev.payload.refused && Step(s, ev).result.Ok?
    ensures ev.pick in s.invites && ev.pick !in Step(s, ev).st.invites
    ensures var si := s.invites[ev.pick];
            && si.user == ev.from && si.invite.gcid == ev.payload.gcid && ev.payload.gcid in s.gcs
            && si.invite.expires * NANOS >= ev.now
  {
  }

  /**
   The invite behind the member added at step k: sent earlier by this client, for
   this chat, to this very user, and not expired when the join arrived.
   */
  lemma AddedMemberWasInvited(st: ClientState, evs: seq<Event>, k: nat)
    requires Unstarted(st) && EnabledRun(st, evs) && FreshChatIDs(st, evs)
    requires k < |evs| && AddsMember(st, evs, k)
    ensures var j := Creator(st, evs, k, evs[k].pick);
            && j < k && evs[j].InviteUser?
            && Sends(st, evs, j, evs[k].pick, evs[k].payload.gcid, evs[k].from, evs[j].expires)
            && evs[j].expires * NANOS >= evs[k].now
  {
    hide Step;
    InvitesOwnAlways(st, evs, k);
    JoinConsumes(After(st, evs[..k]), evs[k]);
  }

  /** An id without an invite has none until some step stores one. */
  lemma {:induction false} CreatedAfter(st: ClientState, evs: seq<Event>, from: nat, to: nat, pick: InviteID)
    requires from <= to <= |evs|
    requires pick !in After(st, evs[..from]).invites && pick in After(st, evs[..to]).invites
    ensures from <= Creator(st, evs, to, pick) < to
  {
    hide Step;
    AfterNext(st, evs, to - 1);
    if pick in After(st, evs[..to - 1]).invites {
      CreatedAfter(st, evs, from, to - 1, pick);
    } else {
      assert Stores(st, evs, to - 1, pick);
    }
  }

  /** No invite admits two members: the later join's was created after the earlier join. */
  lemma InvitesUsedOnce(st: ClientState, evs: seq<Event>, k: nat, m: nat)
    requires Unstarted(st) && EnabledRun(st, evs) && FreshChatIDs(st, evs)
    requires k < m < |evs| && AddsMember(st, evs, k) && AddsMember(st, evs, m)
    ensures Creator(st, evs, k, evs[k].pick) != Creator(st, evs, m, evs[m].pick)
  {
    hide Step;
    AddedMemberWasInvited(st, evs, k);
    if evs[k].pick == evs[m].pick {
      JoinConsumes(After(st, evs[..k]), evs[k]);
      JoinConsumes(After(st, evs[..m]), evs[m]);
      AfterNext(st, evs, k);
      CreatedAfter(st, evs, k + 1, m, evs[m].pick);
    } else {
      AddedMemberWasInvited(st, evs, m);
    }
  }

  // ---------- Display names ----------

  predicate NamesDistinct(st: ClientState) {
    forall g, h :: g in st.gcs && h in st.gcs && g != h ==> st.gcs[g].Name() != st.gcs[h].Name()
  }

  /** The chat an event names or creates. */
  function Target(ev: Event): GCID {
    match ev
    case NewGC(_, _, id, _) => id
    case Alias(g, _) => g
    case Receive(_, ListMsg(list), _, _) => list.id
    case _ => EMPTY_ID
  }

  /** A step leaves every display name alone, or gives its target a name no other chat has. */
  lemma NameEffect(st: ClientState, ev: Event, g: GCID)
    requires Keyed(st) && g in Step(st, ev).st.gcs
    ensures var name := Step(st, ev).st.gcs[g].Name();
            || (g in st.gcs && name == st.gcs[g].Name())
            || (g == Target(ev) && forall h :: h in st.gcs && h != g ==> st.gcs[h].Name() != name)
  {
    hide Step;
    if ev.Receive? {
      ReceiveNameEffect(st, ev, g);
    } else if ev.NewGC? || ev.Alias? {
      NamingEffect(st, ev, g);
    } else if Updates(ev) {
      if ev.Upgrade? { UpgradeKeepsNames(st, ev, g); }
      if ev.ModifyAdmins? { AdminsKeepNames(st, ev, g); }
      if ev.ModifyOwner? { OwnerKeepsNames(st, ev, g); }
    } else {
      NamesUntouched(st, ev, g);
    }
  }

  lemma NamingEffect(st: ClientState, ev: Event, g: GCID)
    requires Keyed(st) && (ev.NewGC? || ev.Alias?) && g in Step(st, ev).st.gcs
    ensures var name := Step(st, ev).st.gcs[g].Name();
            || (g in st.gcs && name == st.gcs[g].Name())
            || (g == Target(ev) && forall h :: h in st.gcs && h != g ==> st.gcs[h].Name() != name)
  {}

  predicate Updates(ev: Event) { ev.Upgrade? || ev.ModifyAdmins? || ev.ModifyOwner? }

  lemma UpgradeKeepsNames(st: ClientState, ev: Event, g: GCID)
    requires ev.Upgrade? && g in Step(st, ev).st.gcs
    ensures g in st.gcs && Step(st, ev).st.gcs[g].Name() == st.gcs[g].Name()
  {}

  lemma AdminsKeepNames(st: ClientState, ev: Event, g: GCID)
    requires ev.ModifyAdmins? && g in Step(st, ev).st.gcs
    ensures g in st.gcs && Step(st, ev).st.gcs[g].Name() == st.gcs[g].Name()
  {}

  lemma OwnerKeepsNames(st: ClientState, ev: Event, g: GCID)
    requires ev.ModifyOwner? && g in Step(st, ev).st.gcs
    ensures g in st.gcs && Step(st, ev).st.gcs[g].Name() == st.gcs[g].Name()
  {}

  lemma NamesUntouched(st: ClientState, ev: Event, g: GCID)
    requires Keyed(st) && !ev.Receive? && !ev.NewGC? && !ev.Alias? && !Updates(ev) && g in Step(st, ev).st.gcs
    ensures g in st.gcs && Step(st, ev).st.gcs[g].Name() == st.gcs[g].Name()
  {}

  lemma ReceiveNameEffect(st: ClientState, ev: Event, g: GCID)
    requires Keyed(st) && ev.Receive? && g in Step(st, ev).st.gcs
    ensures var name := Step(st, ev).st.gcs[g].Name();
            || (g in st.gcs && name == st.gcs[g].Name())
            || (g == Target(ev) && forall h :: h in st.gcs && h != g ==> st.gcs[h].Name() != name)
  {
    if ev.payload.ListMsg? && ev.payload.list.id !in st.gcs && ev.pick in st.invites {
      AliasIndexIsFirstFree(Names(st), st.invites[ev.pick].invite.name, 1);
      assert forall h :: h in st.gcs ==> st.gcs[h].Name() in Names(st);
    }
  }

  lemma NamesStayDistinct(st: ClientState, ev: Event)
    requires Keyed(st) && NamesDistinct(st)
    ensures NamesDistinct(Step(st, ev).st)
  {
    hide Step;
    var st' := Step(st, ev).st;
    forall g, h | g in st'.gcs && h in st'.gcs && g != h ensures st'.gcs[g].Name() != st'.gcs[h].Name() {
      NameEffect(st, ev, g);
      NameEffect(st, ev, h);
    }
  }

  /** Over every run, no two held chats show the same name. */
  lemma {:induction false} NamesAlwaysDistinct(st: ClientState, evs: seq<Event>)
    requires Keyed(st) && NamesDistinct(st)
    ensures Keyed(After(st, evs)) && NamesDistinct(After(st, evs))
  {
    hide Step;
    if evs != [] {
      NamesAlwaysDistinct(st, evs[..|evs| - 1]);
      var s, ev := After(st, evs[..|evs| - 1]), evs[|evs| - 1];
      StepKeepsKeys(s, ev);
      NamesStayDistinct(s, ev);
    }
  }
}
