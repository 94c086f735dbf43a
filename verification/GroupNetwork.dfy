/**
 A network of clients. Every packet ever sent stays on the wire and may be
 received any number of times, in any order, or never: loss, duplication and
 reordering are all runs of this machine.
 */
module GroupNetwork {
  import opened GroupList
  import opened GroupClient

  datatype Net = Net(clients: map<UserID, ClientState>, wire: set<Packet>)
  datatype Action = Action(who: UserID, ev: Event)

  predicate Initial(n: Net) {
    && n.wire == {}
    && forall u :: u in n.clients ==> n.clients[u].local == u && n.clients[u].gcs == map[] && n.clients[u].invites == map[]
  }

  predicate CanAct(n: Net, a: Action) {
    && a.who in n.clients
    && Enabled(n.clients[a.who], a.ev)
    && (a.ev.Receive? ==> Packet(a.ev.from, a.who, a.ev.payload) in n.wire)
  }

  function Act(n: Net, a: Action): Net
    requires a.who in n.clients
  {
    var o := Step(n.clients[a.who], a.ev);
    Net(n.clients[a.who := o.st], n.wire + o.out)
  }

  predicate IsRun(n: Net, acts: seq<Action>) {
    acts == [] || (IsRun(n, acts[..|acts| - 1]) && CanAct(NetAfter(n, acts[..|acts| - 1]), acts[|acts| - 1]))
  }

  function NetAfter(n: Net, acts: seq<Action>): Net {
    if acts == [] then n
    else
      var m := NetAfter(n, acts[..|acts| - 1]);
      var a := acts[|acts| - 1];
      if a.who in m.clients then Act(m, a) else m
  }

  lemma {:induction false} RunPrefix(n: Net, acts: seq<Action>, k: nat)
    requires IsRun(n, acts) && k <= |acts|
    ensures IsRun(n, acts[..k])
  {
    if k < |acts| {
      assert acts[..|acts| - 1][..k] == acts[..k];
      RunPrefix(n, acts[..|acts| - 1], k);
    } else {
      assert acts[..k] == acts;
    }
  }

  predicate ListOnWire(n: Net, list: GCMetadata) {
    exists p :: p in n.wire && p.payload.CarriesList() && p.payload.list == list
  }

  predicate ListStored(n: Net, list: GCMetadata) {
    exists u :: u in n.clients && list.id in n.clients[u].gcs && n.clients[u].gcs[list.id].meta == list
  }

  /** Some client stores the list, or some message carries it. */
  predicate ListExists(n: Net, list: GCMetadata) { ListStored(n, list) || ListOnWire(n, list) }

  predicate Homes(n: Net) {
    forall u :: u in n.clients ==> n.clients[u].local == u && Keyed(n.clients[u])
  }

  // ---------- The shape of every list ----------

  predicate AllShaped(n: Net) {
    && Homes(n)
    && (forall u, g :: u in n.clients && g in n.clients[u].gcs ==> Shape(n.clients[u].gcs[g].meta))
    && (forall p :: p in n.wire && p.payload.CarriesList() ==> Shape(p.payload.list))
  }

  /** An administrator change is asked for with a list without repetition and without the owner. */
  predicate ProperAdmins(n: Net, a: Action)
    requires a.who in n.clients
  {
    var st := n.clients[a.who];
    a.ev.ModifyAdmins? && a.ev.gcid in st.gcs && st.gcs[a.ev.gcid].meta.members != [] ==>
      NoDup(a.ev.admins) && st.gcs[a.ev.gcid].meta.members[0] !in a.ev.admins
  }

  lemma LocalListShaped(st: ClientState, ev: Event, g: GCID)
    requires g in st.gcs && Shape(st.gcs[g].meta)
    requires ev.ModifyAdmins? && ev.gcid == g ==> NoDup(ev.admins) && st.gcs[g].meta.members[0] !in ev.admins
    ensures var r := LocalList(st, ev, g); r.Ok? ==> Shape(r.value)
  {
    var b := st.gcs[g].meta;
    match ev
    case Kick(_, u, _) => RemoveMemberKeepsShape(b, u, true);
    case Receive(from, JoinMsg(_, _, false), _, _) => if from !in b.members { AddMemberKeepsShape(b, from); }
    case ModifyAdmins(_, xs) => SetAdminsShape(b, xs, st.known);
    case ModifyOwner(_, u) => SetOwnerHandsOver(b, u);
    case _ =>
  }

  lemma ShapeStep(n: Net, a: Action)
    requires AllShaped(n) && CanAct(n, a) && ProperAdmins(n, a)
    ensures AllShaped(Act(n, a))
  {
    hide Step;
    var st, n' := n.clients[a.who], Act(n, a);
    var st' := n'.clients[a.who];
    StepKeepsKeys(st, a.ev);
    forall g | g in st'.gcs ensures Shape(st'.gcs[g].meta) {
      StepExplained(st, a.ev, g);
      if g in st.gcs {
        LocalListShaped(st, a.ev, g);
        if a.ev.Receive? { RemoveMemberKeepsShape(st.gcs[g].meta, a.ev.from, false); }
      }
    }
    forall p | p in n'.wire && p !in n.wire && p.payload.CarriesList() ensures Shape(p.payload.list) {
      StepSends(st, a.ev, p);
      LocalListShaped(st, a.ev, p.payload.list.id);
    }
  }

  predicate AllProper(n: Net, acts: seq<Action>) {
    forall k :: 0 <= k < |acts| && acts[k].who in NetAfter(n, acts[..k]).clients ==>
      ProperAdmins(NetAfter(n, acts[..k]), acts[k])
  }

  /** Over every run, every list stored or on the wire is well shaped. */
  lemma {:induction false} ShapeAlways(n: Net, acts: seq<Action>)
    requires Initial(n) && IsRun(n, acts) && AllProper(n, acts)
    ensures AllShaped(NetAfter(n, acts))
    ensures forall l :: ListExists(NetAfter(n, acts), l) ==> Shape(l)
  {
    hide Step;
    if acts != [] {
      var front := acts[..|acts| - 1];
      assert forall k :: 0 <= k < |front| ==> front[..k] == acts[..k] && front[k] == acts[k];
      ShapeAlways(n, front);
      ShapeStep(NetAfter(n, front), acts[|acts| - 1]);
    }
  }

  /** The condition is exact: an improper change that goes through leaves a misshapen list behind. */
  lemma ImproperAdminsBreakShape(n: Net, a: Action)
    requires AllShaped(n) && CanAct(n, a) && a.ev.ModifyAdmins?
    requires Step(n.clients[a.who], a.ev).result.Ok?
    ensures AllShaped(Act(n, a)) <==> ProperAdmins(n, a)
  {
    var st, g := n.clients[a.who], a.ev.gcid;
    if ProperAdmins(n, a) {
      ShapeStep(n, a);
    } else {
      SetAdminsShape(st.gcs[g].meta, a.ev.admins, st.known);
      assert g in Act(n, a).clients[a.who].gcs;
    }
  }

  // ---------- Every list was written ----------

  function Parted(n: Net, g: GCID): set<UserID> {
    set p | p in n.wire && p.payload == PartMsg(g) :: p.from
  }

  function Missing(full: seq<UserID>, part: seq<UserID>): set<UserID> {
    set u | u in full && u !in part
  }

  /** l is the list `full`, possibly without some of the users in `gone`, in the same order. */
  predicate SameBut(l: GCMetadata, full: GCMetadata, gone: set<UserID>) {
    && l.id == full.id && l.generation == full.generation && l.version == full.version && l.name == full.name
    && NoDup(full.members)
    && Missing(full.members, l.members) <= gone
    && l.members == Drop(full.members, Missing(full.members, l.members))
    && Drop(l.extraAdmins, gone) == Drop(full.extraAdmins, gone)
  }

  /** The event creates the chat, or is an administrator's action or admitted join: it makes l and stores or sends it. */
  predicate Makes(st: ClientState, ev: Event, l: GCMetadata) {
    var o := Step(st, ev);
    && (if l.id in st.gcs then LocalList(st, ev, l.id) == Ok(l) else ev.NewGC? && ev.id == l.id)
    && (Lookup(o.st, l.id) == Some(l) || exists p :: p in o.out && p.payload.CarriesList() && p.payload.list == l)
  }

  /** The k-th action wrote the list. */
  predicate Written(n: Net, acts: seq<Action>, k: nat, l: GCMetadata)
    requires 0 < k <= |acts|
  {
    var m, a := NetAfter(n, acts[..k - 1]), acts[k - 1];
    a.who in m.clients && Makes(m.clients[a.who], a.ev, l)
  }

  /** l is a list some action wrote, less users who parted. */
  ghost predicate FromWritten(n: Net, acts: seq<Action>, l: GCMetadata) {
    exists k, full :: 0 < k <= |acts| && Written(n, acts, k, full) && SameBut(l, full, Parted(NetAfter(n, acts), l.id))
  }

  ghost predicate AllWritten(n: Net, acts: seq<Action>) {
    var m := NetAfter(n, acts);
    && Homes(m)
    && (forall u, g :: u in m.clients && g in m.clients[u].gcs ==>
          NoDup(m.clients[u].gcs[g].meta.members) && FromWritten(n, acts, m.clients[u].gcs[g].meta))
    && (forall p :: p in m.wire && p.payload.CarriesList() ==>
          NoDup(p.payload.list.members) && FromWritten(n, acts, p.payload.list))
  }

  lemma MissingNone(s: seq<UserID>)
    ensures Missing(s, s) == {} && Drop(s, Missing(s, s)) == s
  {
    DropNone(s, {});
    assert Missing(s, s) == {};
  }

  lemma {:induction false} DropTwice(s: seq<UserID>, r: set<UserID>, p: set<UserID>)
    requires r <= p
    ensures Drop(Drop(s, r), p) == Drop(s, p)
  {
    if s != [] { DropTwice(s[1..], r, p); }
  }

  lemma {:induction false} DropWithout(s: seq<UserID>, u: UserID, p: set<UserID>)
    requires u in p
    ensures Drop(Without(s, u), p) == Drop(s, p)
  {
    if s != [] && s[0] != u { DropWithout(s[1..], u, p); }
  }

  lemma SameButLater(l: GCMetadata, full: GCMetadata, gone: set<UserID>, more: set<UserID>)
    requires SameBut(l, full, gone) && gone <= more
    ensures SameBut(l, full, more)
  {
    DropTwice(l.extraAdmins, gone, more);
    DropTwice(full.extraAdmins, gone, more);
  }

  lemma WrittenPrefix(n: Net, acts: seq<Action>, m: nat, k: nat, l: GCMetadata)
    requires 0 < k <= m <= |acts|
    ensures Written(n, acts[..m], k, l) == Written(n, acts, k, l)
  {
    assert acts[..m][..k - 1] == acts[..k - 1];
  }

  /** What was written stays written, and who parted has parted. */
  lemma WrittenLater(n: Net, acts: seq<Action>, l: GCMetadata)
    requires acts != [] && FromWritten(n, acts[..|acts| - 1], l)
    ensures FromWritten(n, acts, l)
  {
    hide Step, Written, SameBut;
    var m := |acts| - 1;
    var k, full :| 0 < k <= m && Written(n, acts[..m], k, full) && SameBut(l, full, Parted(NetAfter(n, acts[..m]), l.id));
    WrittenPrefix(n, acts, m, k, full);
    SameButLater(l, full, Parted(NetAfter(n, acts[..m]), l.id), Parted(NetAfter(n, acts), l.id));
  }

  lemma WrittenNow(n: Net, acts: seq<Action>, l: GCMetadata)
    requires acts != [] && Written(n, acts, |acts|, l) && NoDup(l.members)
    ensures FromWritten(n, acts, l)
  {
    hide Written;
    MissingNone(l.members);
    assert SameBut(l, l, Parted(NetAfter(n, acts), l.id));
  }

  /** Removing a user who parted from a copy. */
  lemma SameButPart(l: GCMetadata, full: GCMetadata, gone: set<UserID>, u: UserID)
    requires SameBut(l, full, gone) && u in gone && NoDup(l.members) && RemoveMember(l, u, false).Ok?
    ensures SameBut(RemoveMember(l, u, false).value, full, gone) && NoDup(RemoveMember(l, u, false).value.members)
  {
    var l' := RemoveMember(l, u, false).value;
    var r := Missing(full.members, l.members);
    WithoutNoDup(l.members, u);
    WithoutAfterDrop(full.members, r, u);
    DropMembers(full.members, r);
    DropWithout(l.extraAdmins, u, gone);
    assert Missing(full.members, l'.members) == r + {u};
  }

  lemma WrittenAfterPart(n: Net, acts: seq<Action>, l: GCMetadata, u: UserID)
    requires FromWritten(n, acts, l) && u in Parted(NetAfter(n, acts), l.id)
    requires NoDup(l.members) && RemoveMember(l, u, false).Ok?
    ensures FromWritten(n, acts, RemoveMember(l, u, false).value) && NoDup(RemoveMember(l, u, false).value.members)
  {
    hide Written, SameBut;
    var k, full :| 0 < k <= |acts| && Written(n, acts, k, full) && SameBut(l, full, Parted(NetAfter(n, acts), l.id));
    SameButPart(l, full, Parted(NetAfter(n, acts), l.id), u);
  }

  /** A local administrator's new list of a chat. */
  lemma LocalListNoDup(st: ClientState, ev: Event, g: GCID)
    requires g in st.gcs && LocalList(st, ev, g).Ok? && NoDup(st.gcs[g].meta.members) && Keyed(st)
    ensures NoDup(LocalList(st, ev, g).value.members) && LocalList(st, ev, g).value.id == g
  {
    match ev
    case Kick(_, u, _) => WithoutNoDup(st.gcs[g].meta.members, u);
    case _ =>
  }

  /** The list the last action stored for its client. */
  lemma StoredWritten(n: Net, acts: seq<Action>, g: GCID)
    requires acts != [] && IsRun(n, acts) && AllWritten(n, acts[..|acts| - 1])
    ensures var m, a := NetAfter(n, acts), acts[|acts| - 1];
            g in m.clients[a.who].gcs ==>
              NoDup(m.clients[a.who].gcs[g].meta.members) && FromWritten(n, acts, m.clients[a.who].gcs[g].meta)
  {
    hide Step, FromWritten, LocalList;
    var front, a := acts[..|acts| - 1], acts[|acts| - 1];
    var p := NetAfter(n, front);
    var st, st' := p.clients[a.who], NetAfter(n, acts).clients[a.who];
    if g in st'.gcs {
      var l := st'.gcs[g].meta;
      StepExplained(st, a.ev, g);
      StepKeepsKeys(st, a.ev);
      if Lookup(st, g) == Some(l) {
        WrittenLater(n, acts, l);
      } else if g in st.gcs && LocalList(st, a.ev, g) == Ok(l) {
        LocalListNoDup(st, a.ev, g);
        WrittenNow(n, acts, l);
      } else if a.ev.NewGC? {
        WrittenNow(n, acts, l);
      } else if a.ev.payload.CarriesList() {
        WrittenLater(n, acts, l);
      } else {
        WrittenLater(n, acts, st.gcs[g].meta);
        WrittenAfterPart(n, acts, st.gcs[g].meta, a.ev.from);
      }
    }
  }

  /** A list the last action sent. */
  lemma SentWritten(n: Net, acts: seq<Action>, q: Packet)
    requires acts != [] && IsRun(n, acts) && AllWritten(n, acts[..|acts| - 1])
    requires q in NetAfter(n, acts).wire && q !in NetAfter(n, acts[..|acts| - 1]).wire && q.payload.CarriesList()
    ensures NoDup(q.payload.list.members) && FromWritten(n, acts, q.payload.list)
  {
    hide Step, FromWritten, LocalList;
    var a, st := acts[|acts| - 1], NetAfter(n, acts[..|acts| - 1]).clients[acts[|acts| - 1].who];
    StepSends(st, a.ev, q);
    LocalListNoDup(st, a.ev, q.payload.list.id);
    WrittenNow(n, acts, q.payload.list);
  }

  /**
   Over every run, with any number of administrators and owners, every list stored or on the wire is a
   list some action wrote at that generation, in the same order, short only of users who parted.
   */
  lemma {:induction false} EveryListWasWritten(n: Net, acts: seq<Action>)
    requires Initial(n) && IsRun(n, acts)
    ensures AllWritten(n, acts)
    ensures forall l :: ListExists(NetAfter(n, acts), l) ==> FromWritten(n, acts, l)
  {
    hide Step, FromWritten;
    if acts != [] {
      var front, a := acts[..|acts| - 1], acts[|acts| - 1];
      EveryListWasWritten(n, front);
      var p, m := NetAfter(n, front), NetAfter(n, acts);
      StepKeepsKeys(p.clients[a.who], a.ev);
      forall u, g | u in m.clients && g in m.clients[u].gcs
        ensures NoDup(m.clients[u].gcs[g].meta.members) && FromWritten(n, acts, m.clients[u].gcs[g].meta)
      {
        if u == a.who { StoredWritten(n, acts, g); } else { WrittenLater(n, acts, m.clients[u].gcs[g].meta); }
      }
      forall q | q in m.wire && q.payload.CarriesList()
        ensures NoDup(q.payload.list.members) && FromWritten(n, acts, q.payload.list)
      {
        if q in p.wire { WrittenLater(n, acts, q.payload.list); } else { SentWritten(n, acts, q); }
      }
    }
  }

  // ---------- Agreement per generation ----------

  /** The same name, version and, but for the users in `gone`, members and administrators in the same order. */
  predicate AgreeBut(l: GCMetadata, l': GCMetadata, gone: set<UserID>) {
    && l.name == l'.name && l.version == l'.version
    && Drop(l.members, gone) == Drop(l'.members, gone)
    && Drop(l.extraAdmins, gone) == Drop(l'.extraAdmins, gone)
  }

  /** The list was stored or on the wire at some time of the run. */
  ghost predicate Existed(n: Net, acts: seq<Action>, l: GCMetadata) {
    exists j :: 0 <= j <= |acts| && ListExists(NetAfter(n, acts[..j]), l)
  }

  predicate OfGeneration(l: GCMetadata, g: GCID, gen: Generation) { l.id == g && l.generation == gen }

  ghost predicate ExistingAgree(n: Net, acts: seq<Action>, g: GCID, gen: Generation) {
    forall l, l' :: Existed(n, acts, l) && Existed(n, acts, l') && OfGeneration(l, g, gen) && OfGeneration(l', g, gen) ==>
      AgreeBut(l, l', Parted(NetAfter(n, acts), g))
  }

  ghost predicate WrittenAgree(n: Net, acts: seq<Action>, g: GCID, gen: Generation) {
    forall j, k, l, l' :: 0 < j <= |acts| && 0 < k <= |acts| && Written(n, acts, j, l) && Written(n, acts, k, l') &&
                          OfGeneration(l, g, gen) && OfGeneration(l', g, gen) ==>
      AgreeBut(l, l', Parted(NetAfter(n, acts), g))
  }

  lemma SameButAgrees(l: GCMetadata, full: GCMetadata, gone: set<UserID>)
    requires SameBut(l, full, gone)
    ensures AgreeBut(l, full, gone)
  {
    DropTwice(full.members, Missing(full.members, l.members), gone);
  }

  lemma {:induction false} WrittenSince(n: Net, acts: seq<Action>, j: nat, l: GCMetadata)
    requires j <= |acts| && FromWritten(n, acts[..j], l)
    ensures FromWritten(n, acts, l)
  {
    hide FromWritten;
    if j == |acts| {
      assert acts[..j] == acts;
    } else {
      assert acts[..|acts| - 1][..j] == acts[..j];
      WrittenSince(n, acts[..|acts| - 1], j, l);
      WrittenLater(n, acts, l);
    }
  }

  lemma ExistedFromWritten(n: Net, acts: seq<Action>, l: GCMetadata)
    requires Initial(n) && IsRun(n, acts) && Existed(n, acts, l)
    ensures FromWritten(n, acts, l)
  {
    hide FromWritten, ListExists;
    var j :| 0 <= j <= |acts| && ListExists(NetAfter(n, acts[..j]), l);
    RunPrefix(n, acts, j);
    EveryListWasWritten(n, acts[..j]);
    WrittenSince(n, acts, j, l);
  }

  lemma WrittenExisted(n: Net, acts: seq<Action>, k: nat, l: GCMetadata)
    requires 0 < k <= |acts| && Written(n, acts, k, l)
    ensures Existed(n, acts, l)
  {
    hide Step;
    var m, a := NetAfter(n, acts[..k - 1]), acts[k - 1];
    assert acts[..k][..k - 1] == acts[..k - 1];
    var next := NetAfter(n, acts[..k]);
    assert next == Act(m, a);
    if Lookup(next.clients[a.who], l.id) == Some(l) {
      assert ListStored(next, l);
    } else {
      var p :| p in next.wire && p.payload.CarriesList() && p.payload.list == l;
      assert ListOnWire(next, l);
    }
  }

  /**
   All lists that ever existed at a generation agree, but for users who parted, if and only if those that
   were written at it do.
   */
  lemma AgreementExact(n: Net, acts: seq<Action>, g: GCID, gen: Generation)
    requires Initial(n) && IsRun(n, acts)
    ensures ExistingAgree(n, acts, g, gen) <==> WrittenAgree(n, acts, g, gen)
  {
    hide Existed, Written, AgreeBut, SameBut;
    var gone := Parted(NetAfter(n, acts), g);
    if ExistingAgree(n, acts, g, gen) {
      forall j, k, l, l' | 0 < j <= |acts| && 0 < k <= |acts| && Written(n, acts, j, l) && Written(n, acts, k, l') &&
                           OfGeneration(l, g, gen) && OfGeneration(l', g, gen)
        ensures AgreeBut(l, l', gone)
      {
        WrittenExisted(n, acts, j, l);
        WrittenExisted(n, acts, k, l');
      }
    }
    if WrittenAgree(n, acts, g, gen) {
      forall l, l' | Existed(n, acts, l) && Existed(n, acts, l') && OfGeneration(l, g, gen) && OfGeneration(l', g, gen)
        ensures AgreeBut(l, l', gone)
      {
        ExistedFromWritten(n, acts, l);
        ExistedFromWritten(n, acts, l');
        var j, f :| 0 < j <= |acts| && Written(n, acts, j, f) && SameBut(l, f, gone);
        var k, f' :| 0 < k <= |acts| && Written(n, acts, k, f') && SameBut(l', f', gone);
        SameButOf(l, f, gone);
        SameButOf(l', f', gone);
        AgreeThrough(l, f, f', l', gone);
      }
    }
  }

  lemma SameButOf(l: GCMetadata, full: GCMetadata, gone: set<UserID>)
    requires SameBut(l, full, gone)
    ensures AgreeBut(l, full, gone) && full.id == l.id && full.generation == l.generation
  {
    SameButAgrees(l, full, gone);
  }

  lemma AgreeThrough(l: GCMetadata, f: GCMetadata, f': GCMetadata, l': GCMetadata, gone: set<UserID>)
    requires AgreeBut(l, f, gone) && AgreeBut(f, f', gone) && AgreeBut(l', f', gone)
    ensures AgreeBut(l, l', gone)
  {}

  // ---------- One writer ----------

  /** The list client o stores for g after k actions. */
  function ListAt(n: Net, acts: seq<Action>, k: nat, o: UserID, g: GCID): Option<GCMetadata>
    requires k <= |acts|
  {
    var m := NetAfter(n, acts[..k]);
    if o in m.clients then Lookup(m.clients[o], g) else None
  }

  /** The k-th action moved o's copy of g to this list's generation. */
  predicate MovedTo(n: Net, acts: seq<Action>, k: nat, o: UserID, list: GCMetadata)
    requires 0 < k <= |acts|
  {
    var b := ListAt(n, acts, k - 1, o, list.id);
    ListAt(n, acts, k, o, list.id) == Some(list) && (b.None? || b.value.generation != list.generation)
  }

  /** l agrees with the list o moved to at that generation. */
  ghost predicate Agrees(n: Net, acts: seq<Action>, o: UserID, l: GCMetadata) {
    exists k, full :: 0 < k <= |acts| && MovedTo(n, acts, k, o, full) && SameBut(l, full, Parted(NetAfter(n, acts), l.id))
  }

  /** No extra administrators are named for g, and its owner never changes. */
  predicate SingleWriter(acts: seq<Action>, g: GCID) {
    forall k :: 0 <= k < |acts| ==>
      && !(acts[k].ev.ModifyOwner? && acts[k].ev.gcid == g)
      && (acts[k].ev.ModifyAdmins? && acts[k].ev.gcid == g ==> acts[k].ev.admins == [])
  }

  /** Only one action draws the id g, and it is o's. */
  predicate OnlyCreator(acts: seq<Action>, o: UserID, g: GCID) {
    && (forall k :: 0 <= k < |acts| && acts[k].ev.NewGC? && acts[k].ev.id == g ==> acts[k].who == o)
    && (forall j, k :: 0 <= j < k < |acts| && acts[j].ev.NewGC? && acts[k].ev.NewGC? ==> acts[j].ev.id != acts[k].ev.id)
  }

  predicate Drawn(acts: seq<Action>, g: GCID) {
    exists k :: 0 <= k < |acts| && acts[k].ev.NewGC? && acts[k].ev.id == g
  }

  predicate Absent(n: Net, g: GCID) {
    && (forall u :: u in n.clients ==> g !in n.clients[u].gcs)
    && (forall p :: p in n.wire && p.payload.CarriesList() ==> p.payload.list.id != g)
  }

  /** What every list of g is like when o alone writes them. */
  predicate Owned(acts: seq<Action>, o: UserID, l: GCMetadata) {
    && l.members != [] && l.members[0] == o && NoDup(l.members) && l.extraAdmins == []
    && l.generation <= |acts|
  }

  predicate OneWriter(n: Net, acts: seq<Action>, o: UserID, g: GCID) {
    var m := NetAfter(n, acts);
    && Homes(m)
    && (!Drawn(acts, g) ==> Absent(m, g))
    && (forall u :: u in m.clients && g in m.clients[u].gcs ==> Owned(acts, o, m.clients[u].gcs[g].meta))
    && (forall p :: p in m.wire && p.payload.CarriesList() && p.payload.list.id == g ==>
          p.from == o && p.to != o && Owned(acts, o, p.payload.list))
  }

  /** A local administrator's new list for a chat that has only one. */
  lemma LocalListOwned(st: ClientState, ev: Event, g: GCID, o: UserID)
    requires g in st.gcs && LocalList(st, ev, g).Ok? && Keyed(st)
    requires var b := st.gcs[g].meta; b.members != [] && b.members[0] == o && NoDup(b.members) && b.extraAdmins == []
    requires !(ev.ModifyOwner? && ev.gcid == g) && (ev.ModifyAdmins? && ev.gcid == g ==> ev.admins == [])
    ensures st.local == o
    ensures var b, l := st.gcs[g].meta, LocalList(st, ev, g).value;
            && l.id == g && l.members != [] && l.members[0] == o && NoDup(l.members) && l.extraAdmins == []
            && l.generation == Bump(b.generation)
  {
    if ev.Kick? {
      WithoutNoDup(st.gcs[g].meta.members, ev.user);
      WithoutSplits(st.gcs[g].meta.members, ev.user);
    }
  }

  /** The actor's copy of g after the last action. */
  lemma ActorOwned(n: Net, acts: seq<Action>, o: UserID, g: GCID)
    requires acts != [] && IsRun(n, acts) && SingleWriter(acts, g) && OnlyCreator(acts, o, g)
    requires OneWriter(n, acts[..|acts| - 1], o, g)
    ensures var a, m := acts[|acts| - 1], NetAfter(n, acts);
            g in m.clients[a.who].gcs ==> Owned(acts, o, m.clients[a.who].gcs[g].meta)
  {
    hide Step, LocalList;
    var a := acts[|acts| - 1];
    var st, st' := NetAfter(n, acts[..|acts| - 1]).clients[a.who], NetAfter(n, acts).clients[a.who];
    if g in st'.gcs && Lookup(st, g) != Lookup(st', g) {
      StepExplained(st, a.ev, g);
      if g in st.gcs && LocalList(st, a.ev, g).Ok? {
        LocalListOwned(st, a.ev, g, o);
      }
      if g in st.gcs && a.ev.Receive? && a.ev.payload == PartMsg(g) {
        WithoutNoDup(st.gcs[g].meta.members, a.ev.from);
        WithoutSplits(st.gcs[g].meta.members, a.ev.from);
      }
    }
  }

  lemma {:induction false} OneWriterAlways(n: Net, acts: seq<Action>, o: UserID, g: GCID)
    requires Initial(n) && IsRun(n, acts) && SingleWriter(acts, g) && OnlyCreator(acts, o, g)
    ensures OneWriter(n, acts, o, g)
  {
    hide Step, LocalList, Owned;
    if acts != [] {
      var k := |acts| - 1;
      var front, a := acts[..k], acts[k];
      OneWriterAlways(n, front, o, g);
      var p, m := NetAfter(n, front), NetAfter(n, acts);
      StepKeepsKeys(p.clients[a.who], a.ev);
      if !Drawn(acts, g) {
        assert forall j :: 0 <= j < k ==> front[j] == acts[j];
        AbsentStep(p, a, g);
      }
      forall u | u in m.clients && g in m.clients[u].gcs ensures Owned(acts, o, m.clients[u].gcs[g].meta) {
        if u == a.who { ActorOwned(n, acts, o, g); } else { OwnedLater(acts, o, m.clients[u].gcs[g].meta); }
      }
      forall q | q in m.wire && q.payload.CarriesList() && q.payload.list.id == g
        ensures q.from == o && q.to != o && Owned(acts, o, q.payload.list)
      {
        if q in p.wire { OwnedLater(acts, o, q.payload.list); } else { SentByOwner(n, acts, o, g, q); }
      }
    }
  }

  lemma OwnedLater(acts: seq<Action>, o: UserID, l: GCMetadata)
    requires acts != [] && Owned(acts[..|acts| - 1], o, l)
    ensures Owned(acts, o, l)
  {}

  /** A list of g the last action sent. */
  lemma SentByOwner(n: Net, acts: seq<Action>, o: UserID, g: GCID, q: Packet)
    requires acts != [] && IsRun(n, acts) && SingleWriter(acts, g) && OneWriter(n, acts[..|acts| - 1], o, g)
    requires q in NetAfter(n, acts).wire && q !in NetAfter(n, acts[..|acts| - 1]).wire
    requires q.payload.CarriesList() && q.payload.list.id == g
    ensures q.from == o && q.to != o && Owned(acts, o, q.payload.list)
  {
    hide Step, LocalList;
    var a := acts[|acts| - 1];
    var st := NetAfter(n, acts[..|acts| - 1]).clients[a.who];
    StepSends(st, a.ev, q);
    LocalListOwned(st, a.ev, g, o);
  }

  lemma SentIsStored(st: ClientState, ev: Event, q: Packet)
    requires Keyed(st) && q in Step(st, ev).out && q.payload.CarriesList() && st.local in q.payload.list.members
    ensures Lookup(Step(st, ev).st, q.payload.list.id) == Some(q.payload.list)
  {
  }

  /** The one writer moves to every list that is written. */
  lemma WrittenIsMove(n: Net, acts: seq<Action>, k: nat, o: UserID, l: GCMetadata)
    requires Initial(n) && IsRun(n, acts) && SingleWriter(acts, l.id) && OnlyCreator(acts, o, l.id)
    requires 0 < k <= |acts| && Written(n, acts, k, l)
    ensures MovedTo(n, acts, k, o, l)
  {
    hide Step, LocalList, Makes;
    var front, a := acts[..k - 1], acts[k - 1];
    RunPrefix(n, acts, k);
    RunPrefix(n, acts, k - 1);
    OneWriterAlways(n, front, o, l.id);
    assert acts[..k][..k - 1] == front;
    MakesOwned(NetAfter(n, front).clients[a.who], a.ev, l, o);
  }

  /** What a client with one administrator's list of the chat makes, it stores. */
  lemma MakesOwned(st: ClientState, ev: Event, l: GCMetadata, o: UserID)
    requires Keyed(st) && Makes(st, ev, l)
    requires l.id in st.gcs ==>
               var b := st.gcs[l.id].meta; b.members != [] && b.members[0] == o && NoDup(b.members) && b.extraAdmins == []
    requires !(ev.ModifyOwner? && ev.gcid == l.id) && (ev.ModifyAdmins? && ev.gcid == l.id ==> ev.admins == [])
    ensures Lookup(Step(st, ev).st, l.id) == Some(l)
    ensures if l.id in st.gcs then st.local == o && l.generation == Bump(st.gcs[l.id].meta.generation)
            else ev.NewGC? && ev.id == l.id
  {
    hide Step, LocalList;
    if l.id in st.gcs { LocalListOwned(st, ev, l.id, o); }
    if Lookup(Step(st, ev).st, l.id) != Some(l) {
      var q :| q in Step(st, ev).out && q.payload.CarriesList() && q.payload.list == l;
      StepSends(st, ev, q);
      SentIsStored(st, ev, q);
    }
  }

  /** With one writer, every list stored or on the wire is the owner's of that generation less parted users. */
  lemma AgreementAlways(n: Net, acts: seq<Action>, o: UserID, l: GCMetadata)
    requires Initial(n) && IsRun(n, acts) && SingleWriter(acts, l.id) && OnlyCreator(acts, o, l.id)
    requires ListExists(NetAfter(n, acts), l)
    ensures Owned(acts, o, l) && Agrees(n, acts, o, l)
  {
    hide Step, Written, MovedTo, SameBut;
    OneWriterAlways(n, acts, o, l.id);
    EveryListWasWritten(n, acts);
    var gone := Parted(NetAfter(n, acts), l.id);
    var k, full :| 0 < k <= |acts| && Written(n, acts, k, full) && SameBut(l, full, gone);
    SameButOf(l, full, gone);
    WrittenIsMove(n, acts, k, o, full);
  }

  lemma AbsentStep(n: Net, a: Action, g: GCID)
    requires Homes(n) && CanAct(n, a) && Absent(n, g) && !(a.ev.NewGC? && a.ev.id == g)
    ensures Absent(Act(n, a), g)
  {
    hide Step;
    var st := n.clients[a.who];
    StepExplained(st, a.ev, g);
    forall q | q in Act(n, a).wire && q !in n.wire && q.payload.CarriesList() ensures q.payload.list.id != g {
      StepSends(st, a.ev, q);
    }
  }

  /** One action on the owner's copy: it appears only by being created, and its generation only grows. */
  lemma OwnerStep(n: Net, acts: seq<Action>, k: nat, o: UserID, g: GCID)
    requires Initial(n) && IsRun(n, acts) && SingleWriter(acts, g) && OnlyCreator(acts, o, g)
    requires k < |acts| <= MAX_GENERATION
    ensures var b, a := ListAt(n, acts, k, o, g), ListAt(n, acts, k + 1, o, g);
            && (b.None? && a.Some? ==> acts[k].ev.NewGC? && acts[k].ev.id == g)
            && (b.Some? && a.Some? ==> b.value.generation <= a.value.generation)
            && (b.Some? ==> Drawn(acts[..k], g))
  {
    hide Step;
    var front := acts[..k];
    RunPrefix(n, acts, k);
    RunPrefix(n, acts, k + 1);
    OneWriterAlways(n, front, o, g);
    assert acts[..k + 1][..k] == front;
    var p := NetAfter(n, front);
    if acts[k].who == o {
      StepExplained(p.clients[o], acts[k].ev, g);
      OwnerExplained(n, front, p, acts[k].ev, o, g, ListAt(n, acts, k + 1, o, g));
    }
  }

  lemma OwnerExplained(n: Net, front: seq<Action>, p: Net, ev: Event, o: UserID, g: GCID, a: Option<GCMetadata>)
    requires p == NetAfter(n, front) && OneWriter(n, front, o, g) && |front| < MAX_GENERATION
    requires o in p.clients && (ev.Receive? ==> Packet(ev.from, o, ev.payload) in p.wire)
    requires Explained(p.clients[o], ev, g, a)
    requires !(ev.ModifyOwner? && ev.gcid == g) && (ev.ModifyAdmins? && ev.gcid == g ==> ev.admins == [])
    ensures var b := Lookup(p.clients[o], g);
            && (b.None? && a.Some? ==> ev.NewGC? && ev.id == g)
            && (b.Some? && a.Some? ==> b.value.generation <= a.value.generation)
  {
    var st := p.clients[o];
    if g in st.gcs && LocalList(st, ev, g).Ok? {
      LocalListOwned(st, ev, g, o);
    }
  }

  /** While the counter cannot wrap, the owner's generation never goes back. */
  lemma {:induction false} OwnerMonotone(n: Net, acts: seq<Action>, i: nat, j: nat, o: UserID, g: GCID)
    requires Initial(n) && IsRun(n, acts) && SingleWriter(acts, g) && OnlyCreator(acts, o, g)
    requires i <= j <= |acts| <= MAX_GENERATION
    requires ListAt(n, acts, i, o, g).Some? && ListAt(n, acts, j, o, g).Some?
    ensures ListAt(n, acts, i, o, g).value.generation <= ListAt(n, acts, j, o, g).value.generation
    ensures i < j ==> ListAt(n, acts, j - 1, o, g).Some?
  {
    hide Step;
    if i < j {
      OwnerStep(n, acts, j - 1, o, g);
      HeldMeansDrawn(n, acts, i, o, g);
      assert ListAt(n, acts, j - 1, o, g).Some?;
      OwnerMonotone(n, acts, i, j - 1, o, g);
    }
  }

  lemma HeldMeansDrawn(n: Net, acts: seq<Action>, i: nat, o: UserID, g: GCID)
    requires Initial(n) && IsRun(n, acts) && SingleWriter(acts, g) && OnlyCreator(acts, o, g)
    requires i <= |acts| && ListAt(n, acts, i, o, g).Some?
    ensures exists m :: 0 <= m < i && acts[m].ev.NewGC? && acts[m].ev.id == g
  {
    RunPrefix(n, acts, i);
    OneWriterAlways(n, acts[..i], o, g);
    assert Drawn(acts[..i], g);
    var m :| 0 <= m < i && acts[..i][m].ev.NewGC? && acts[..i][m].ev.id == g;
    assert acts[m].ev.NewGC?;
  }

  /** The owner moves to a generation at most once. */
  lemma MovesOnce(n: Net, acts: seq<Action>, i: nat, j: nat, o: UserID, l: GCMetadata, l': GCMetadata)
    requires Initial(n) && IsRun(n, acts) && SingleWriter(acts, l.id) && OnlyCreator(acts, o, l.id)
    requires 0 < i <= j <= |acts| <= MAX_GENERATION
    requires MovedTo(n, acts, i, o, l) && MovedTo(n, acts, j, o, l')
    requires l.id == l'.id && l.generation == l'.generation
    ensures i == j && l == l'
  {
    hide Step;
    if i < j {
      OwnerMonotone(n, acts, i, j, o, l.id);
      OwnerMonotone(n, acts, i, j - 1, o, l.id);
      OwnerStep(n, acts, j - 1, o, l.id);
    }
  }

  /**
   Single-writer agreement. In a chat without extra administrators or change of
   owner, every list stored or on the wire is the owner's list of that
   generation, in the same order, short only of users who sent a part message;
   so two lists of one generation have one name, one version and, up to parted
   users, the same members.
   */
  lemma SingleWriterAgreement(n: Net, acts: seq<Action>, o: UserID, l: GCMetadata, l': GCMetadata)
    requires Initial(n) && IsRun(n, acts) && |acts| <= MAX_GENERATION
    requires SingleWriter(acts, l.id) && OnlyCreator(acts, o, l.id)
    requires ListExists(NetAfter(n, acts), l) && ListExists(NetAfter(n, acts), l')
    requires l.id == l'.id && l.generation == l'.generation
    ensures Agrees(n, acts, o, l) && l.members != [] && l.members[0] == o
    ensures l.name == l'.name && l.version == l'.version && l.extraAdmins == l'.extraAdmins == []
    ensures var gone := Parted(NetAfter(n, acts), l.id);
            Drop(l.members, gone) == Drop(l'.members, gone)
  {
    hide Step;
    AgreementAlways(n, acts, o, l);
    AgreementAlways(n, acts, o, l');
    var gone := Parted(NetAfter(n, acts), l.id);
    var i, f :| 0 < i <= |acts| && MovedTo(n, acts, i, o, f) && SameBut(l, f, gone);
    var j, f' :| 0 < j <= |acts| && MovedTo(n, acts, j, o, f') && SameBut(l', f', gone);
    if i <= j { MovesOnce(n, acts, i, j, o, f, f'); } else { MovesOnce(n, acts, j, i, o, f', f); }
    SameButAgrees(l, f, gone);
    SameButAgrees(l', f', gone);
  }

  // ---------- Two administrators ----------

  function Two(c1: ClientState, c2: ClientState, wire: set<Packet>): Net {
    Net(map[1 := c1, 2 := c2], wire)
  }

  /** Client u of two that know each other, with these stored lists and invites. */
  function Peer(u: UserID, gcs: map<GCID, GroupChat>, invites: map<InviteID, StoredInvite>): ClientState {
    ClientState(u, gcs, invites, {1, 2})
  }

  function Holding(l: GCMetadata): map<GCID, GroupChat> { map[l.id := GroupChat(l, "")] }

  function ListOf(gen: Generation, members: seq<UserID>, admins: seq<UserID>): GCMetadata {
    GCMetadata(9, "gc", gen, 1, members, admins)
  }

  const OFFER := Invite(9, "gc", 1, 5, 100)

  const START := Two(Peer(1, map[], map[]), Peer(2, map[], map[]), {})

  predicate Does(st: ClientState, ev: Event, next: ClientState, out: set<Packet>) {
    Enabled(st, ev) && Step(st, ev) == Outcome(next, out, Ok(()))
  }

  /** Client 1 creates the chat and invites client 2, which accepts. */
  lemma Invites()
    ensures var l, sent := ListOf(1, [1], []), StoredInvite(OFFER, 2, false);
            && Does(Peer(1, map[], map[]), NewGC("gc", 1, 9, false), Peer(1, Holding(l), map[]), {})
            && Does(Peer(1, Holding(l), map[]), InviteUser(9, 2, 5, 100, 0, true),
                    Peer(1, Holding(l), map[0 := sent]), {Packet(1, 2, InviteMsg(OFFER))})
    ensures var got := StoredInvite(OFFER, 1, false);
            && Does(Peer(2, map[], map[]), Receive(1, InviteMsg(OFFER), 0, 0), Peer(2, map[], map[0 := got]), {})
            && Does(Peer(2, map[], map[0 := got]), AcceptInvite(0, 0),
                    Peer(2, map[], map[0 := got.(accepted := true)]), {Packet(2, 1, JoinMsg(9, 5, false))})
  {}

  /** Client 1 admits client 2, which stores its first list. */
  lemma Joins()
    ensures var l := ListOf(2, [1, 2], []);
            && Does(Peer(1, Holding(ListOf(1, [1], [])), map[0 := StoredInvite(OFFER, 2, false)]),
                    Receive(2, JoinMsg(9, 5, false), 0, 0), Peer(1, Holding(l), map[]), {Packet(1, 2, ListMsg(l))})
            && Does(Peer(2, map[], map[0 := StoredInvite(OFFER, 1, true)]), Receive(1, ListMsg(l), 0, 0),
                    Peer(2, Holding(l), map[]), {})
  {
    assert [1] + [2] == [1, 2];
  }

  /** Client 1 names client 2 an administrator. */
  lemma NamesAdmin()
    ensures var l, l' := ListOf(2, [1, 2], []), ListOf(3, [1, 2], [2]);
            && Does(Peer(1, Holding(l), map[]), ModifyAdmins(9, [2]), Peer(1, Holding(l'), map[]), {Packet(1, 2, AdminsMsg(l'))})
            && Does(Peer(2, Holding(l), map[]), Receive(1, AdminsMsg(l'), 0, 0), Peer(2, Holding(l'), map[]), {})
  {}

  /** Client 1 removes client 2. */
  lemma Removes()
    ensures var l, l' := ListOf(3, [1, 2], [2]), ListOf(4, [1], []);
            Does(Peer(1, Holding(l), map[]), Kick(9, 2, true), Peer(1, Holding(l'), map[]), {Packet(1, 2, KickMsg(2, l'))})
  {
    assert Without([1, 2], 2) == [1] && Without([2], 2) == [];
  }

  /** At the same time client 2 renounces the administration. */
  lemma Renounces()
    ensures var l, l' := ListOf(3, [1, 2], [2]), ListOf(4, [1, 2], []);
            Does(Peer(2, Holding(l), map[]), ModifyAdmins(9, []), Peer(2, Holding(l'), map[]), {Packet(2, 1, AdminsMsg(l'))})
  {}

  lemma RunExtends(n: Net, acts: seq<Action>, a: Action)
    requires IsRun(n, acts) && CanAct(NetAfter(n, acts), a)
    ensures IsRun(n, acts + [a]) && NetAfter(n, acts + [a]) == Act(NetAfter(n, acts), a)
  {
    assert (acts + [a])[..|acts|] == acts;
  }

  /** The run reaches a net of the two clients with these messages on the wire. */
  predicate Reaches(acts: seq<Action>, c1: ClientState, c2: ClientState, wire: set<Packet>) {
    IsRun(START, acts) && NetAfter(START, acts) == Two(c1, c2, wire)
  }

  lemma FirstActs(acts: seq<Action>, c1: ClientState, c2: ClientState, wire: set<Packet>, ev: Event,
                  next: ClientState, out: set<Packet>, acts': seq<Action>, wire': set<Packet>)
    requires Reaches(acts, c1, c2, wire) && Does(c1, ev, next, out)
    requires acts' == acts + [Action(1, ev)] && wire' == wire + out
    requires ev.Receive? ==> Packet(ev.from, 1, ev.payload) in wire
    ensures Reaches(acts', next, c2, wire')
  {
    hide Step, Enabled;
    RunExtends(START, acts, Action(1, ev));
  }

  lemma SecondActs(acts: seq<Action>, c1: ClientState, c2: ClientState, wire: set<Packet>, ev: Event,
                   next: ClientState, out: set<Packet>, acts': seq<Action>, wire': set<Packet>)
    requires Reaches(acts, c1, c2, wire) && Does(c2, ev, next, out)
    requires acts' == acts + [Action(2, ev)] && wire' == wire + out
    requires ev.Receive? ==> Packet(ev.from, 2, ev.payload) in wire
    ensures Reaches(acts', c1, next, wire')
  {
    hide Step, Enabled;
    RunExtends(START, acts, Action(2, ev));
  }

  lemma StartReached()
    ensures Reaches([], Peer(1, map[], map[]), Peer(2, map[], map[]), {}) && Initial(START)
  {}

  const JOINING := [
    Action(1, NewGC("gc", 1, 9, false)),
    Action(1, InviteUser(9, 2, 5, 100, 0, true)),
    Action(2, Receive(1, InviteMsg(OFFER), 0, 0)),
    Action(2, AcceptInvite(0, 0)),
    Action(1, Receive(2, JoinMsg(9, 5, false), 0, 0)),
    Action(2, Receive(1, ListMsg(ListOf(2, [1, 2], [])), 0, 0))]

  lemma BothHold()
    ensures var l := ListOf(2, [1, 2], []);
            Reaches(JOINING, Peer(1, Holding(l), map[]), Peer(2, Holding(l), map[]),
                    {Packet(1, 2, InviteMsg(OFFER)), Packet(2, 1, JoinMsg(9, 5, false)), Packet(1, 2, ListMsg(l))})
  {
    hide Does, Reaches, Peer, Holding, ListOf;
    var none1, none2 := Peer(1, map[], map[]), Peer(2, map[], map[]);
    var l1, l2 := ListOf(1, [1], []), ListOf(2, [1, 2], []);
    var held, full1, full2 := Peer(1, Holding(l1), map[]), Peer(1, Holding(l2), map[]), Peer(2, Holding(l2), map[]);
    var sent, got := StoredInvite(OFFER, 2, false), StoredInvite(OFFER, 1, false);
    var offering := Peer(1, Holding(l1), map[0 := sent]);
    var offered, joining := Peer(2, map[], map[0 := got]), Peer(2, map[], map[0 := got.(accepted := true)]);
    var p, q, r := Packet(1, 2, InviteMsg(OFFER)), Packet(2, 1, JoinMsg(9, 5, false)), Packet(1, 2, ListMsg(l2));
    Invites();
    Joins();
    StartReached();
    var a := JOINING;
    FirstActs([], none1, none2, {}, a[0].ev, held, {}, a[..1], {});
    FirstActs(a[..1], held, none2, {}, a[1].ev, offering, {p}, a[..2], {p});
    SecondActs(a[..2], offering, none2, {p}, a[2].ev, offered, {}, a[..3], {p});
    SecondActs(a[..3], offering, offered, {p}, a[3].ev, joining, {q}, a[..4], {p, q});
    FirstActs(a[..4], offering, joining, {p, q}, a[4].ev, full1, {r}, a[..5], {p, q, r});
    SecondActs(a[..5], full1, joining, {p, q, r}, a[5].ev, full2, {}, a, {p, q, r});
  }

  const DIVIDING := [
    Action(1, ModifyAdmins(9, [2])),
    Action(2, Receive(1, AdminsMsg(ListOf(3, [1, 2], [2])), 0, 0)),
    Action(1, Kick(9, 2, true)),
    Action(2, ModifyAdmins(9, []))]

  lemma BothDivide() returns (wire: set<Packet>)
    ensures Reaches(JOINING + DIVIDING, Peer(1, Holding(ListOf(4, [1], [])), map[]),
                    Peer(2, Holding(ListOf(4, [1, 2], [])), map[]), wire)
    ensures forall p :: p in wire ==> !p.payload.PartMsg?
  {
    hide Does, Reaches, Peer, Holding, ListOf;
    var l2, l3, one, two := ListOf(2, [1, 2], []), ListOf(3, [1, 2], [2]), ListOf(4, [1], []), ListOf(4, [1, 2], []);
    var w := {Packet(1, 2, InviteMsg(OFFER)), Packet(2, 1, JoinMsg(9, 5, false)), Packet(1, 2, ListMsg(l2))};
    var p, q, r := Packet(1, 2, AdminsMsg(l3)), Packet(1, 2, KickMsg(2, one)), Packet(2, 1, AdminsMsg(two));
    var a2, b2, a3, b3 := Peer(1, Holding(l2), map[]), Peer(2, Holding(l2), map[]), Peer(1, Holding(l3), map[]), Peer(2, Holding(l3), map[]);
    var a4, b4 := Peer(1, Holding(one), map[]), Peer(2, Holding(two), map[]);
    BothHold();
    NamesAdmin();
    Removes();
    Renounces();
    var j, d := JOINING, DIVIDING;
    wire := w + {p} + {q} + {r};
    FirstActs(j, a2, b2, w, d[0].ev, a3, {p}, j + d[..1], w + {p});
    SecondActs(j + d[..1], a3, b2, w + {p}, d[1].ev, b3, {}, j + d[..2], w + {p});
    FirstActs(j + d[..2], a3, b3, w + {p}, d[2].ev, a4, {q}, j + d[..3], w + {p} + {q});
    SecondActs(j + d[..3], a4, b3, w + {p} + {q}, d[3].ev, b4, {r}, j + d, wire);
  }

  /** With a second administrator agreement fails: two lists of one generation have different members. */
  lemma TwoAdminsDisagree() returns (acts: seq<Action>, l: GCMetadata, l': GCMetadata)
    ensures Initial(START) && IsRun(START, acts)
    ensures ListStored(NetAfter(START, acts), l) && ListStored(NetAfter(START, acts), l')
    ensures OfGeneration(l, 9, 4) && OfGeneration(l', 9, 4) && Parted(NetAfter(START, acts), 9) == {}
    ensures l.members == [1] && l'.members == [1, 2]
    ensures !ExistingAgree(START, acts, 9, 4) && !WrittenAgree(START, acts, 9, 4)
  {
    hide NetAfter, IsRun;
    acts, l, l' := JOINING + DIVIDING, ListOf(4, [1], []), ListOf(4, [1, 2], []);
    var wire := BothDivide();
    StartReached();
    var c1, c2 := Peer(1, Holding(l), map[]), Peer(2, Holding(l'), map[]);
    BothStored(c1, c2, wire, l, l');
    assert acts[..|acts|] == acts;
    assert Existed(START, acts, l) && Existed(START, acts, l');
    DropNone([1], {});
    DropNone([1, 2], {});
    AgreementExact(START, acts, 9, 4);
  }

  lemma BothStored(c1: ClientState, c2: ClientState, wire: set<Packet>, l: GCMetadata, l': GCMetadata)
    requires Lookup(c1, l.id) == Some(l) && Lookup(c2, l'.id) == Some(l')
    ensures ListStored(Two(c1, c2, wire), l) && ListStored(Two(c1, c2, wire), l')
  {
    var n := Two(c1, c2, wire);
    assert 1 in n.clients && 2 in n.clients;
  }
}
