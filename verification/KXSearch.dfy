/**
 Searching for a user one has no keys with: known users are asked, users they name are met and asked in
 turn. Handlers and the actions that follow a key exchange run one at a time.
 */
module KXSearch {

  type UserID = nat

  /** A user was asked about a target. */
  datatype Query = Query(target: UserID, to: UserID)

  /** After a key exchange with the user, ask it about the target. */
  datatype Action = Action(user: UserID, target: UserID)

  datatype MediateRequest = MediateRequest(mediator: UserID, target: UserID)

  /**
   The users known, the users recorded as queried in each search, the actions stored, and what was sent
   so far: queries and requests to mediate.
   */
  datatype State = State(known: set<UserID>, searches: map<UserID, seq<UserID>>, actions: seq<Action>,
                         sent: seq<Query>, requests: seq<MediateRequest>)

  datatype Event =
    | Start(target: UserID, postFrom: UserID, newRef: bool)
    | Reply(from: UserID, target: UserID, ids: seq<UserID>, recentMIs: set<UserID>)
    | CompleteKX(user: UserID)

  function Queried(s: State, target: UserID): seq<UserID> {
    if target in s.searches then s.searches[target] else []
  }

  /** The queries of a search with one more; a query of the same user is replaced. */
  function Recorded(queries: seq<UserID>, to: UserID): (r: seq<UserID>)
    ensures forall uid :: uid in r <==> uid in queries || uid == to
  {
    if to in queries then queries else queries + [to]
  }

  /** Records the query, then sends it if the user is known. */
  function SendQuery(s: State, target: UserID, to: UserID): State {
    s.(searches := s.searches[target := Recorded(Queried(s, target), to)],
       sent := if to in s.known then s.sent + [Query(target, to)] else s.sent)
  }

  /** One id of a reply: ask a known user, or be introduced to an unknown one and ask it afterwards. */
  function Candidate(me: UserID, s: State, e: Event, queried: seq<UserID>, mis: set<UserID>, uid: UserID): (State, set<UserID>)
    requires e.Reply?
  {
    if uid == me || uid in queried then (s, mis)
    else if uid in s.known then (SendQuery(s, e.target, uid), mis)
    else if uid in mis then (s, mis)
    else
      var action := Action(uid, e.target);
      (s.(actions := if action in s.actions then s.actions else s.actions + [action],
          requests := s.requests + [MediateRequest(e.from, uid)]), mis + {uid})
  }

  function Candidates(me: UserID, s: State, e: Event, queried: seq<UserID>, mis: set<UserID>, ids: seq<UserID>): State
    requires e.Reply?
    decreases |ids|
  {
    if ids == [] then s
    else
      var (next, mis') := Candidate(me, s, e, queried, mis, ids[0]);
      Candidates(me, next, e, queried, mis', ids[1..])
  }

  /** The reply of a user that was asked, about a target still unknown. */
  predicate Expected(s: State, e: Event): (b: bool)
    ensures b ==> e.Reply?
  {
    e.Reply? && e.ids != [] && e.target in s.searches && e.from in s.searches[e.target] && e.target !in s.known
  }

  predicate Starts(me: UserID, s: State, e: Event): (b: bool)
    ensures b ==> e.Start?
  {
    e.Start? && e.target !in s.known && e.target != me && (e.newRef || e.postFrom !in Queried(s, e.target))
  }

  function TakeAction(s: State, a: Action): State {
    if a.target in s.known || a.target !in s.searches then s else SendQuery(s, a.target, a.user)
  }

  function TakeActions(s: State, actions: seq<Action>): State
    decreases |actions|
  {
    if actions == [] then s else TakeActions(TakeAction(s, actions[0]), actions[1..])
  }

  function Of(actions: seq<Action>, user: UserID): (r: seq<Action>)
    ensures forall a :: a in r <==> a in actions && a.user == user
  {
    if actions == [] then []
    else (if actions[0].user == user then [actions[0]] else []) + Of(actions[1..], user)
  }

  function NotOf(actions: seq<Action>, user: UserID): (r: seq<Action>)
    ensures forall a :: a in r <==> a in actions && a.user != user
  {
    if actions == [] then []
    else (if actions[0].user != user then [actions[0]] else []) + NotOf(actions[1..], user)
  }

  /** The user is known, the search for it is over, and its actions are taken and forgotten. */
  function Met(s: State, user: UserID): State {
    TakeActions(s.(known := s.known + {user}, searches := s.searches - {user}, actions := NotOf(s.actions, user)),
                Of(s.actions, user))
  }

  function Step(me: UserID, s: State, e: Event): State {
    match e
    case Start(target, postFrom, _) => if Starts(me, s, e) then SendQuery(s, target, postFrom) else s
    case Reply(from, target, ids, recentMIs) =>
      if Expected(s, e) then Candidates(me, s, e, s.searches[target], recentMIs, ids) else s
    case CompleteKX(user) => Met(s, user)
  }

  function After(me: UserID, s: State, run: seq<Event>): State {
    if run == [] then s else Step(me, After(me, s, run[..|run| - 1]), run[|run| - 1])
  }

  // ---------- Nobody is asked twice ----------

  predicate NoDup<T(==)>(q: seq<T>) {
    forall i, j :: 0 <= i < j < |q| ==> q[i] != q[j]
  }

  /** Who was asked is known and recorded while the search goes on; who has an action stored is not known. */
  predicate Valid(s: State) {
    && (forall q :: q in s.sent ==> q.to in s.known && (q.target in s.known || q.to in Queried(s, q.target)))
    && (forall a :: a in s.actions ==> a.user !in s.known)
    && NoDup(s.actions)
  }

  /** A reply's id that is asked at once. */
  predicate Asked(me: UserID, s: State, queried: seq<UserID>, uid: UserID) {
    uid != me && uid !in queried && uid in s.known
  }

  /**
   What asks a user again: a search started anew with a relayer already asked, or a reply that names a
   user to be asked twice.
   */
  predicate Repeats(me: UserID, s: State, e: Event) {
    || (Starts(me, s, e) && e.postFrom in s.known && Query(e.target, e.postFrom) in s.sent)
    || (Expected(s, e) && NamesTwice(me, s, s.searches[e.target], e.ids))
  }

  predicate NamesTwice(me: UserID, s: State, queried: seq<UserID>, ids: seq<UserID>) {
    ids != [] && ((Asked(me, s, queried, ids[0]) && ids[0] in ids[1..]) || NamesTwice(me, s, queried, ids[1..]))
  }

  /** The queries a reply leads to. */
  function QueriesFor(me: UserID, s: State, target: UserID, queried: seq<UserID>, ids: seq<UserID>): seq<Query> {
    if ids == [] then []
    else (if Asked(me, s, queried, ids[0]) then [Query(target, ids[0])] else []) +
         QueriesFor(me, s, target, queried, ids[1..])
  }

  lemma {:induction false} QueryForID(me: UserID, s: State, target: UserID, queried: seq<UserID>, ids: seq<UserID>, q: Query)
    ensures q in QueriesFor(me, s, target, queried, ids) <==>
            q.target == target && q.to in ids && Asked(me, s, queried, q.to)
  {
    hide Asked;
    if ids != [] { QueryForID(me, s, target, queried, ids[1..], q); }
  }

  lemma NoDupCons<T>(x: T, q: seq<T>)
    ensures NoDup([x] + q) <==> NoDup(q) && x !in q
  {
    if NoDup([x] + q) {
      forall i, j | 0 <= i < j < |q| ensures q[i] != q[j] { assert ([x] + q)[i + 1] != ([x] + q)[j + 1]; }
      forall i | 0 <= i < |q| ensures q[i] != x { assert ([x] + q)[0] != ([x] + q)[i + 1]; }
    }
  }

  lemma {:induction false} QueriesForNoDup(me: UserID, s: State, target: UserID, queried: seq<UserID>, ids: seq<UserID>)
    ensures NoDup(QueriesFor(me, s, target, queried, ids)) <==> !NamesTwice(me, s, queried, ids)
  {
    hide NoDup, Asked;
    if ids != [] {
      var rest := QueriesFor(me, s, target, queried, ids[1..]);
      QueriesForNoDup(me, s, target, queried, ids[1..]);
      QueryForID(me, s, target, queried, ids[1..], Query(target, ids[0]));
      NoDupCons(Query(target, ids[0]), rest);
      assert [] + rest == rest;
    } else {
      NoneTwice<Query>();
    }
  }

  lemma NoneTwice<T>()
    ensures NoDup<T>([])
  {}

  lemma NoDupConcat<T>(p: seq<T>, q: seq<T>)
    ensures NoDup(p + q) <==> NoDup(p) && NoDup(q) && forall x :: x in p ==> x !in q
  {
    var r := p + q;
    if NoDup(r) {
      forall i, j | 0 <= i < j < |p| ensures p[i] != p[j] { assert r[i] != r[j]; }
      forall i, j | 0 <= i < j < |q| ensures q[i] != q[j] { assert r[|p| + i] != r[|p| + j]; }
      forall x | x in p ensures x !in q {
        var i :| 0 <= i < |p| && p[i] == x;
        forall j | 0 <= j < |q| ensures q[j] != x { assert r[i] != r[|p| + j]; }
      }
    }
    if NoDup(p) && NoDup(q) && forall x :: x in p ==> x !in q {
      forall i, j | 0 <= i < j < |r| ensures r[i] != r[j] {
        if i < |p| <= j { assert r[i] in p && r[j] in q; }
      }
    }
  }

  /** What a reply changes besides the searches: the queries sent, and actions for users not known. */
  lemma {:induction false} CandidatesSend(me: UserID, s: State, e: Event, queried: seq<UserID>, mis: set<UserID>, ids: seq<UserID>)
    requires e.Reply? && Valid(s) && e.target !in s.known
    ensures var next := Candidates(me, s, e, queried, mis, ids);
            && Valid(next) && next.known == s.known
            && next.sent == s.sent + QueriesFor(me, s, e.target, queried, ids)
    decreases |ids|
  {
    hide Valid, Candidate, Asked;
    if ids != [] {
      var (next, mis') := Candidate(me, s, e, queried, mis, ids[0]);
      CandidateValid(me, s, e, queried, mis, ids[0]);
      CandidatesSend(me, next, e, queried, mis', ids[1..]);
      SameAsked(me, s, next, e.target, queried, ids[1..]);
    }
  }

  lemma {:induction false} SameAsked(me: UserID, s: State, next: State, target: UserID, queried: seq<UserID>, ids: seq<UserID>)
    requires next.known == s.known
    ensures QueriesFor(me, s, target, queried, ids) == QueriesFor(me, next, target, queried, ids)
  {
    if ids != [] { SameAsked(me, s, next, target, queried, ids[1..]); }
  }

  lemma CandidateValid(me: UserID, s: State, e: Event, queried: seq<UserID>, mis: set<UserID>, uid: UserID)
    requires e.Reply? && Valid(s) && e.target !in s.known
    ensures var next := Candidate(me, s, e, queried, mis, uid).0;
            && Valid(next) && next.known == s.known
            && next.sent == s.sent + if Asked(me, s, queried, uid) then [Query(e.target, uid)] else []
  {}

  lemma SendQueryValid(s: State, target: UserID, to: UserID)
    requires Valid(s) && target !in s.known
    ensures Valid(SendQuery(s, target, to))
  {}

  /** The queries of the actions taken, in order. */
  function QueriesOf(s: State, actions: seq<Action>): seq<Query> {
    if actions == [] then []
    else
      var a := actions[0];
      (if a.target in s.known || a.target !in s.searches then [] else [Query(a.target, a.user)]) + QueriesOf(s, actions[1..])
  }

  lemma {:induction false} QueryOfAction(s: State, actions: seq<Action>, q: Query)
    requires q in QueriesOf(s, actions)
    ensures Action(q.to, q.target) in actions
  {
    if q in QueriesOf(s, actions[1..]) { QueryOfAction(s, actions[1..], q); }
  }

  lemma {:induction false} QueriesOfNoDup(s: State, actions: seq<Action>)
    requires NoDup(actions)
    ensures NoDup(QueriesOf(s, actions))
  {
    if actions != [] {
      assert actions == [actions[0]] + actions[1..];
      NoDupCons(actions[0], actions[1..]);
      QueriesOfNoDup(s, actions[1..]);
      var a := actions[0];
      NoDupCons(Query(a.target, a.user), QueriesOf(s, actions[1..]));
      if Query(a.target, a.user) in QueriesOf(s, actions[1..]) { QueryOfAction(s, actions[1..], Query(a.target, a.user)); }
    }
  }

  lemma {:induction false} TakeActionsSend(s: State, actions: seq<Action>)
    requires Valid(s) && forall a :: a in actions ==> a.user in s.known
    ensures var next := TakeActions(s, actions);
            && Valid(next) && next.known == s.known && next.searches.Keys == s.searches.Keys
            && next.sent == s.sent + QueriesOf(s, actions)
    decreases |actions|
  {
    hide Valid, TakeAction;
    if actions != [] {
      var a := actions[0];
      var next := TakeAction(s, a);
      TakeActionValid(s, a);
      TakeActionsSend(next, actions[1..]);
      SameActions(s, next, actions[1..]);
    }
  }

  lemma TakeActionValid(s: State, a: Action)
    requires Valid(s) && a.user in s.known
    ensures var next := TakeAction(s, a);
            && Valid(next) && next.known == s.known && next.searches.Keys == s.searches.Keys
            && next.sent == s.sent + if a.target in s.known || a.target !in s.searches then [] else [Query(a.target, a.user)]
  {}

  lemma {:induction false} SameActions(s: State, next: State, actions: seq<Action>)
    requires next.known == s.known && next.searches.Keys == s.searches.Keys
    ensures QueriesOf(s, actions) == QueriesOf(next, actions)
  {
    if actions != [] { SameActions(s, next, actions[1..]); }
  }

  lemma {:induction false} OfSplits(actions: seq<Action>, user: UserID)
    requires NoDup(actions)
    ensures NoDup(Of(actions, user)) && NoDup(NotOf(actions, user))
  {
    if actions != [] {
      assert actions == [actions[0]] + actions[1..];
      NoDupCons(actions[0], actions[1..]);
      OfSplits(actions[1..], user);
      NoDupCons(actions[0], Of(actions[1..], user));
      NoDupCons(actions[0], NotOf(actions[1..], user));
    }
  }

  /** A key exchange asks a user at most once, and only one not asked before. */
  lemma MetOnce(s: State, user: UserID)
    requires Valid(s) && NoDup(s.sent)
    ensures Valid(Met(s, user)) && NoDup(Met(s, user).sent)
  {
    var actions := Of(s.actions, user);
    var now := s.(known := s.known + {user}, searches := s.searches - {user}, actions := NotOf(s.actions, user));
    MetValid(s, user);
    hide Valid, TakeActions;
    OfSplits(s.actions, user);
    TakeActionsSend(now, actions);
    QueriesOfNoDup(now, actions);
    NoDupConcat(s.sent, QueriesOf(now, actions));
    forall q | q in s.sent ensures q !in QueriesOf(now, actions) {
      if q in QueriesOf(now, actions) {
        QueryOfAction(now, actions, q);
        SentWasKnown(s, q);
        ActionUnknown(s, Action(q.to, q.target));
      }
    }
  }

  lemma SentWasKnown(s: State, q: Query)
    requires Valid(s) && q in s.sent
    ensures q.to in s.known
  {}

  lemma ActionUnknown(s: State, a: Action)
    requires Valid(s) && a in s.actions
    ensures a.user !in s.known
  {}

  lemma MetValid(s: State, user: UserID)
    requires Valid(s)
    ensures Valid(s.(known := s.known + {user}, searches := s.searches - {user}, actions := NotOf(s.actions, user)))
  {
    hide NoDup;
    OfSplits(s.actions, user);
  }

  /** A step asks a user a second time about a target just when it is a repeat. */
  lemma StepOnce(me: UserID, s: State, e: Event)
    requires Valid(s) && NoDup(s.sent)
    ensures Valid(Step(me, s, e)) && (NoDup(Step(me, s, e).sent) <==> !Repeats(me, s, e))
  {
    hide Valid;
    match e
    case Start(target, postFrom, _) =>
      if Starts(me, s, e) {
        SendQueryValid(s, target, postFrom);
        NoDupConcat(s.sent, [Query(target, postFrom)]);
      }
    case Reply(from, target, ids, recentMIs) =>
      if Expected(s, e) {
        var queried := s.searches[target];
        CandidatesSend(me, s, e, queried, recentMIs, ids);
        QueriesForNoDup(me, s, target, queried, ids);
        NoDupConcat(s.sent, QueriesFor(me, s, target, queried, ids));
        forall q | q in s.sent ensures q !in QueriesFor(me, s, target, queried, ids) {
          SentWasQueried(s, q);
          QueryForID(me, s, target, queried, ids, q);
        }
      }
    case CompleteKX(user) =>
      MetOnce(s, user);
  }

  lemma SentWasQueried(s: State, q: Query)
    requires Valid(s) && q in s.sent
    ensures q.target in s.known || q.to in Queried(s, q.target)
  {}

  ghost predicate NeverRepeats(me: UserID, s: State, run: seq<Event>) {
    forall i :: 0 <= i < |run| ==> !Repeats(me, After(me, s, run[..i]), run[i])
  }

  /** Nothing sent, nothing stored. */
  predicate Fresh(s: State) {
    s.sent == [] && s.actions == []
  }

  lemma {:induction false} AskedOnce(me: UserID, s: State, run: seq<Event>)
    requires Fresh(s) && NeverRepeats(me, s, run)
    ensures Valid(After(me, s, run)) && NoDup(After(me, s, run).sent)
  {
    if run != [] {
      var before := run[..|run| - 1];
      forall i | 0 <= i < |before| ensures !Repeats(me, After(me, s, before[..i]), before[i]) {
        assert before[..i] == run[..i];
      }
      AskedOnce(me, s, before);
      StepOnce(me, After(me, s, before), run[|run| - 1]);
    }
  }

  // ---------- The search stops ----------

  function Recipients(sent: seq<Query>, target: UserID): (r: seq<UserID>)
    ensures forall uid :: uid in r <==> Query(target, uid) in sent
  {
    if sent == [] then []
    else (if sent[0].target == target then [sent[0].to] else []) + Recipients(sent[1..], target)
  }

  lemma {:induction false} RecipientsNoDup(sent: seq<Query>, target: UserID)
    requires NoDup(sent)
    ensures NoDup(Recipients(sent, target))
  {
    if sent != [] {
      assert sent == [sent[0]] + sent[1..];
      NoDupCons(sent[0], sent[1..]);
      RecipientsNoDup(sent[1..], target);
      NoDupCons(sent[0].to, Recipients(sent[1..], target));
      assert [] + Recipients(sent[1..], target) == Recipients(sent[1..], target);
    }
  }

  lemma {:induction false} NoDupWithin<T>(q: seq<T>, all: set<T>)
    requires NoDup(q) && forall x :: x in q ==> x in all
    ensures |q| <= |all|
  {
    if q != [] {
      assert q == [q[0]] + q[1..];
      NoDupCons(q[0], q[1..]);
      NoDupWithin(q[1..], all - {q[0]});
    }
  }

  /** The users of a run: those known at its start and those a key exchange completes with. */
  ghost predicate Within(s: State, run: seq<Event>, users: set<UserID>) {
    s.known <= users && forall i :: 0 <= i < |run| && run[i].CompleteKX? ==> run[i].user in users
  }

  /** Whoever is asked is one of the users of the run, whatever its length, and leaves one fewer to ask. */
  lemma SearchStops(me: UserID, s: State, run: seq<Event>, target: UserID, users: set<UserID>)
    requires Fresh(s) && NeverRepeats(me, s, run) && Within(s, run, users)
    ensures var asked := Recipients(After(me, s, run).sent, target);
            |asked| <= |users| && |users - set uid | uid in asked| == |users| - |asked|
  {
    var now := After(me, s, run);
    var r := Recipients(now.sent, target);
    AskedOnce(me, s, run);
    RecipientsNoDup(now.sent, target);
    SentToKnown(now, target);
    KnownWithin(me, s, run, users);
    NoDupWithin(r, users);
    NoDupIsSet(r);
  }

  lemma {:induction false} TakeActionsKeep(s: State, actions: seq<Action>)
    ensures TakeActions(s, actions).known == s.known && TakeActions(s, actions).requests == s.requests
    decreases |actions|
  {
    if actions != [] { TakeActionsKeep(TakeAction(s, actions[0]), actions[1..]); }
  }

  lemma {:induction false} CandidatesKeep(me: UserID, s: State, e: Event, queried: seq<UserID>, mis: set<UserID>, ids: seq<UserID>)
    requires e.Reply?
    ensures Candidates(me, s, e, queried, mis, ids).known == s.known
    decreases |ids|
  {
    if ids != [] {
      var (next, mis') := Candidate(me, s, e, queried, mis, ids[0]);
      CandidatesKeep(me, next, e, queried, mis', ids[1..]);
    }
  }

  lemma {:induction false} KnownWithin(me: UserID, s: State, run: seq<Event>, users: set<UserID>)
    requires Within(s, run, users)
    ensures After(me, s, run).known <= users
  {
    if run != [] {
      var before, e := After(me, s, run[..|run| - 1]), run[|run| - 1];
      KnownWithin(me, s, run[..|run| - 1], users);
      match e
      case Reply(_, target, ids, recentMIs) =>
        if Expected(before, e) { CandidatesKeep(me, before, e, before.searches[target], recentMIs, ids); }
      case CompleteKX(user) =>
        TakeActionsKeep(before.(known := before.known + {user}, searches := before.searches - {user},
                                actions := NotOf(before.actions, user)), Of(before.actions, user));
      case _ =>
    }
  }

  function Distinct(ids: seq<UserID>): set<UserID> { set uid | uid in ids }

  /** How many users the replies of a run name, each counted once for a reply. */
  function Named(run: seq<Event>): nat {
    if run == [] then 0
    else
      var e := run[|run| - 1];
      Named(run[..|run| - 1]) + if e.Reply? then |Distinct(e.ids)| else 0
  }

  lemma {:induction false} CandidatesRequest(me: UserID, s: State, e: Event, queried: seq<UserID>, mis: set<UserID>, ids: seq<UserID>)
    requires e.Reply?
    ensures |Candidates(me, s, e, queried, mis, ids).requests| <= |s.requests| + |Distinct(ids) - mis|
    decreases |ids|
  {
    if ids != [] {
      var uid := ids[0];
      var (next, mis') := Candidate(me, s, e, queried, mis, uid);
      CandidatesRequest(me, next, e, queried, mis', ids[1..]);
      var all, rest := Distinct(ids), Distinct(ids[1..]);
      assert all == rest + {uid};
      if next.requests != s.requests {
        assert all - mis == (rest - mis') + {uid};
      } else {
        Smaller(rest - mis', all - mis);
      }
    }
  }

  lemma Smaller<T>(a: set<T>, b: set<T>)
    requires a <= b
    ensures |a| <= |b|
  {
    if a != {} {
      var x :| x in a;
      Smaller(a - {x}, b - {x});
    }
  }

  /** Every introduction asked for answers to a reply that named the user: once for each reply. */
  lemma {:induction false} IntroductionsBounded(me: UserID, s: State, run: seq<Event>)
    ensures |After(me, s, run).requests| <= |s.requests| + Named(run)
  {
    if run != [] {
      var before, e := After(me, s, run[..|run| - 1]), run[|run| - 1];
      IntroductionsBounded(me, s, run[..|run| - 1]);
      match e
      case Reply(_, target, ids, recentMIs) =>
        if Expected(before, e) {
          CandidatesRequest(me, before, e, before.searches[target], recentMIs, ids);
          Smaller(Distinct(ids) - recentMIs, Distinct(ids));
        }
      case CompleteKX(user) =>
        TakeActionsKeep(before.(known := before.known + {user}, searches := before.searches - {user},
                                actions := NotOf(before.actions, user)), Of(before.actions, user));
      case _ =>
    }
  }

  lemma SentToKnown(s: State, target: UserID)
    requires Valid(s)
    ensures forall uid :: uid in Recipients(s.sent, target) ==> uid in s.known
  {}

  lemma {:induction false} NoDupIsSet<T>(q: seq<T>)
    requires NoDup(q)
    ensures |set x | x in q| == |q|
  {
    if q != [] {
      assert q == [q[0]] + q[1..];
      NoDupCons(q[0], q[1..]);
      NoDupIsSet(q[1..]);
      assert (set x | x in q) == (set x | x in q[1..]) + {q[0]};
    }
  }

  // ---------- The search goes on ----------

  /** A user a reply names that has to be met first. */
  predicate Introduced(me: UserID, s: State, queried: seq<UserID>, mis: set<UserID>, ids: seq<UserID>, uid: UserID) {
    uid in ids && uid != me && uid !in queried && uid !in s.known && uid !in mis
  }

  /** Exactly those get an action about the target stored, and a request to the replier made. */
  lemma {:induction false} CandidatesIntroduce(me: UserID, s: State, e: Event, queried: seq<UserID>, mis: set<UserID>, ids: seq<UserID>)
    requires e.Reply?
    ensures var next := Candidates(me, s, e, queried, mis, ids);
            && (forall a :: a in next.actions <==>
                  a in s.actions || (a.target == e.target && Introduced(me, s, queried, mis, ids, a.user)))
            && (forall r :: r in next.requests <==>
                  r in s.requests || (r.mediator == e.from && Introduced(me, s, queried, mis, ids, r.target)))
            && next.searches.Keys <= s.searches.Keys + {e.target} && s.searches.Keys <= next.searches.Keys
    decreases |ids|
  {
    if ids != [] {
      var (next, mis') := Candidate(me, s, e, queried, mis, ids[0]);
      CandidatesIntroduce(me, next, e, queried, mis', ids[1..]);
    }
  }

  /**
   An expected reply asks at once every user it names that is known, and stores for every other one, not
   asked before and not being introduced, the action about its target and a request to its sender.
   */
  lemma ReplyAsksOrIntroduces(me: UserID, s: State, e: Event)
    requires Valid(s) && Expected(s, e)
    ensures var next, queried := Step(me, s, e), s.searches[e.target];
            && (forall uid :: uid in e.ids && uid != me && uid !in queried && uid in s.known ==>
                  Query(e.target, uid) in next.sent)
            && (forall a :: a in next.actions <==>
                  a in s.actions || (a.target == e.target && Introduced(me, s, queried, e.recentMIs, e.ids, a.user)))
            && (forall r :: r in next.requests <==>
                  r in s.requests || (r.mediator == e.from && Introduced(me, s, queried, e.recentMIs, e.ids, r.target)))
  {
    hide Valid;
    var queried := s.searches[e.target];
    CandidatesIntroduce(me, s, e, queried, e.recentMIs, e.ids);
    CandidatesSend(me, s, e, queried, e.recentMIs, e.ids);
    forall uid | uid in e.ids && uid != me && uid !in queried && uid in s.known
      ensures Query(e.target, uid) in Step(me, s, e).sent
    {
      QueryForID(me, s, e.target, queried, e.ids, Query(e.target, uid));
    }
  }

  /** A search starts about a stranger, with a relayer not asked yet or a new reference; the relayer is asked. */
  lemma StartAsks(me: UserID, s: State, target: UserID, postFrom: UserID, newRef: bool)
    ensures var next := Step(me, s, Start(target, postFrom, newRef));
            if target !in s.known && target != me &&
               (newRef || !(target in s.searches && postFrom in s.searches[target]))
            then
              && target in next.searches && postFrom in next.searches[target]
              && (postFrom in s.known ==> next.sent == s.sent + [Query(target, postFrom)])
              && next.known == s.known && next.actions == s.actions && next.requests == s.requests
            else next == s
  {}

  lemma {:induction false} TakeActionsAsk(s: State, actions: seq<Action>, a: Action)
    requires a in actions && a.user in s.known && a.target !in s.known && a.target in s.searches
    ensures Query(a.target, a.user) in TakeActions(s, actions).sent
    decreases |actions|
  {
    if actions[0] == a {
      var next := TakeAction(s, a);
      TakeActionsGrow(next, actions[1..]);
      assert next.sent[|s.sent|] == Query(a.target, a.user) == TakeActions(s, actions).sent[|s.sent|];
    } else {
      assert a in actions[1..];
      TakeActionsAsk(TakeAction(s, actions[0]), actions[1..], a);
    }
  }

  lemma {:induction false} TakeActionsGrow(s: State, actions: seq<Action>)
    ensures s.sent <= TakeActions(s, actions).sent && s.searches.Keys == TakeActions(s, actions).searches.Keys
    ensures TakeActions(s, actions).actions == s.actions
    decreases |actions|
  {
    if actions != [] {
      TakeActionsGrow(TakeAction(s, actions[0]), actions[1..]);
    }
  }

  /** When the key exchange with a user completes, it is asked about every target that waited for it. */
  lemma MetIsAsked(s: State, user: UserID, target: UserID)
    requires Action(user, target) in s.actions && target != user && target !in s.known && target in s.searches
    ensures Query(target, user) in Met(s, user).sent
  {
    TakeActionsAsk(s.(known := s.known + {user}, searches := s.searches - {user}, actions := NotOf(s.actions, user)),
                   Of(s.actions, user), Action(user, target));
  }

  lemma AfterNext(me: UserID, s: State, run: seq<Event>, i: nat)
    requires i < |run|
    ensures After(me, s, run[..i + 1]) == Step(me, After(me, s, run[..i]), run[i])
  {
    assert run[..i + 1][..i] == run[..i];
  }

  /** A step drops an action only when its user is met, and a search only when its target is. */
  lemma StepKeeps(me: UserID, s: State, e: Event, a: Action)
    ensures var next := Step(me, s, e);
            && (a in s.actions && e != CompleteKX(a.user) ==> a in next.actions)
            && (a.target in s.searches && a.target !in next.known ==> a.target in next.searches && a.target !in s.known)
  {
    hide Candidates, TakeActions;
    match e
    case Reply(_, target, ids, recentMIs) =>
      if Expected(s, e) {
        CandidatesIntroduce(me, s, e, s.searches[target], recentMIs, ids);
        CandidatesKeep(me, s, e, s.searches[target], recentMIs, ids);
      }
    case CompleteKX(user) =>
      var now := s.(known := s.known + {user}, searches := s.searches - {user}, actions := NotOf(s.actions, user));
      TakeActionsGrow(now, Of(s.actions, user));
      TakeActionsKeep(now, Of(s.actions, user));
    case _ =>
  }

  lemma {:induction false} ActionWaits(me: UserID, s: State, run: seq<Event>, i: nat, n: nat, a: Action)
    requires i <= n <= |run| && a in After(me, s, run[..i]).actions && a.target in After(me, s, run[..i]).searches
    requires forall j :: i <= j < n ==> run[j] != CompleteKX(a.user)
    requires a.target !in After(me, s, run[..n]).known
    ensures a in After(me, s, run[..n]).actions && a.target in After(me, s, run[..n]).searches
  {
    hide Step;
    if i < n {
      AfterNext(me, s, run, n - 1);
      StepKeeps(me, After(me, s, run[..n - 1]), run[n - 1], a);
      KnownGrows(me, After(me, s, run[..n - 1]), run[n - 1]);
      ActionWaits(me, s, run, i, n - 1, a);
    }
  }

  lemma KnownGrows(me: UserID, s: State, e: Event)
    ensures s.known <= Step(me, s, e).known
  {
    hide Candidates, TakeActions;
    match e
    case Reply(_, target, ids, recentMIs) =>
      if Expected(s, e) { CandidatesKeep(me, s, e, s.searches[target], recentMIs, ids); }
    case CompleteKX(user) =>
      TakeActionsKeep(s.(known := s.known + {user}, searches := s.searches - {user}, actions := NotOf(s.actions, user)),
                      Of(s.actions, user));
    case _ =>
  }

  /**
   Whoever an expected reply names is asked: at once if known, else when its key exchange completes, if
   the target is a stranger still.
   */
  lemma NamedIsAsked(me: UserID, s: State, run: seq<Event>, i: nat, n: nat, uid: UserID)
    requires i < n < |run| && Expected(After(me, s, run[..i]), run[i])
    requires var now := After(me, s, run[..i]);
             Introduced(me, now, now.searches[run[i].target], run[i].recentMIs, run[i].ids, uid)
    requires run[n] == CompleteKX(uid) && forall j :: i < j < n ==> run[j] != CompleteKX(uid)
    requires uid != run[i].target && run[i].target !in After(me, s, run[..n]).known
    ensures Query(run[i].target, uid) in After(me, s, run[..n + 1]).sent
  {
    var now, e := After(me, s, run[..i]), run[i];
    AfterNext(me, s, run, i);
    AfterNext(me, s, run, n);
    CandidatesIntroduce(me, now, e, now.searches[e.target], e.recentMIs, e.ids);
    hide Candidates, TakeActions;
    ActionWaits(me, s, run, i + 1, n, Action(uid, e.target));
    MetIsAsked(After(me, s, run[..n]), uid, e.target);
  }

  // ---------- The client ----------

  datatype Option<+T> = None | Some(value: T)

  /** A reference of a search: the id of a post, unless it is of a type not known or malformed. */
  datatype Ref = Post(pid: nat) | Other

  /** A relayer's copy of a post: it cannot be read, names no author, or names one. */
  datatype Copy = Unreadable | Anonymous | By(author: UserID)

  /** What the client stored of posts: who relayed one, and the relayers' copies. */
  datatype Posts = Posts(relayers: nat -> seq<UserID>, copy: (UserID, nat) -> Copy)

  const EMPTY_ID: UserID := 0

  datatype Sought = Failed | Undetermined | Found(target: UserID)

  /** The author named by the first reference with one; a copy that cannot be read ends the search for it. */
  function Target(posts: Posts, refs: seq<Ref>): Sought {
    if refs == [] then Undetermined
    else
      var before, ref := Target(posts, refs[..|refs| - 1]), refs[|refs| - 1];
      NextTarget(posts, before, ref)
  }

  function NextTarget(posts: Posts, before: Sought, ref: Ref): Sought {
    if !before.Undetermined? || ref.Other? || posts.relayers(ref.pid) == [] then before
    else match posts.copy(posts.relayers(ref.pid)[0], ref.pid)
      case Unreadable => Failed
      case Anonymous => Undetermined
      case By(author) => if author == EMPTY_ID then Undetermined else Found(author)
  }

  /** A reference that says nothing of the target: no post, no copy of it, or one that names nobody. */
  predicate Silent(posts: Posts, ref: Ref) {
    ref.Other? || posts.relayers(ref.pid) == [] ||
    var c := posts.copy(posts.relayers(ref.pid)[0], ref.pid); c.Anonymous? || (c.By? && c.author == EMPTY_ID)
  }

  /** The target is the author named by the first reference that is not silent, if its copy can be read. */
  lemma {:induction false} TargetIsFirst(posts: Posts, refs: seq<Ref>)
    ensures match Target(posts, refs)
            case Undetermined => forall i :: 0 <= i < |refs| ==> Silent(posts, refs[i])
            case Found(t) =>
              exists i :: 0 <= i < |refs| && !Silent(posts, refs[i]) && (forall k :: 0 <= k < i ==> Silent(posts, refs[k])) &&
                          posts.copy(posts.relayers(refs[i].pid)[0], refs[i].pid) == By(t)
            case Failed =>
              exists i :: 0 <= i < |refs| && !Silent(posts, refs[i]) && (forall k :: 0 <= k < i ==> Silent(posts, refs[k])) &&
                          posts.copy(posts.relayers(refs[i].pid)[0], refs[i].pid) == Unreadable
  {
    if refs != [] {
      var n := |refs| - 1;
      TargetIsFirst(posts, refs[..n]);
      assert forall k :: 0 <= k < n ==> refs[..n][k] == refs[k];
      assert !Silent(posts, refs[n]) || Silent(posts, refs[n]);
    }
  }

  predicate Relays(posts: Posts, refs: seq<Ref>, uid: UserID) {
    exists ref :: ref in refs && ref.Post? && uid in posts.relayers(ref.pid)
  }

  class Client {
    const me: UserID
    var known: set<UserID>
    var searches: map<UserID, seq<UserID>>
    var actions: seq<Action>
    var sent: seq<Query>
    var requests: seq<MediateRequest>

    constructor (me: UserID, known: set<UserID>)
      ensures this.me == me && Now() == State(known, map[], [], [], [])
    {
      this.me, this.known, searches, actions, sent, requests := me, known, map[], [], [], [];
    }

    function Now(): State
      reads this
    {
      State(known, searches, actions, sent, requests)
    }

    method SendKXSearchQuery(target: UserID, to: UserID)
      modifies this`searches, this`sent
      ensures Now() == SendQuery(old(Now()), target, to)
    {
      var queries := if target in searches then searches[target] else [];
      searches := searches[target := Recorded(queries, to)];
      if to !in known { return; }
      sent := sent + [Query(target, to)];
    }

    method KXSearchPostAuthor(target: UserID, postFrom: UserID, newRef: bool) returns (ok: bool)
      modifies this`searches, this`sent
      ensures Now() == Step(me, old(Now()), Start(target, postFrom, newRef))
      ensures ok == Starts(me, old(Now()), Start(target, postFrom, newRef))
    {
      if target in known || target == me { return false; }
      var alreadyQueried := target in searches && postFrom in searches[target];
      if !newRef && alreadyQueried { return false; }
      SendKXSearchQuery(target, postFrom);
      return true;
    }

    /** The ids a search is answered with: the target if it is known, else everyone a post came from. */
    method HandleKXSearch(posts: Posts, refs: seq<Ref>) returns (answer: Option<seq<UserID>>)
      ensures answer.Some? <==> Target(posts, refs).Found?
      ensures answer.Some? ==>
                var target := Target(posts, refs).target;
                && NoDup(answer.value)
                && if target in known then answer.value == [target]
                   else forall uid :: uid in answer.value <==> Relays(posts, refs, uid)
    {
      var target := Undetermined;
      var allRelayers: set<UserID> := {};
      for i := 0 to |refs|
        invariant target == Target(posts, refs[..i]) && !target.Failed?
        invariant forall uid :: uid in allRelayers <==> Relays(posts, refs[..i], uid)
      {
        RelaysNext(posts, refs, i);
        if refs[i].Post? {
          var relayers := posts.relayers(refs[i].pid);
          allRelayers := allRelayers + set uid | uid in relayers;
          if relayers != [] && target.Undetermined? {
            match posts.copy(relayers[0], refs[i].pid) {
              case Unreadable =>
                FailedStays(posts, refs, i + 1);
                return None;
              case By(author) =>
                if author != EMPTY_ID { target := Found(author); }
              case Anonymous =>
            }
          }
        }
      }
      assert refs[..|refs|] == refs;
      if target.Undetermined? { return None; }
      if target.target in known { return Some([target.target]); }
      var ids: seq<UserID> := [];
      var left := allRelayers;
      while left != {}
        invariant NoDup(ids) && left <= allRelayers
        invariant forall uid :: uid in ids <==> uid in allRelayers - left
        decreases left
      {
        var uid :| uid in left;
        assert uid !in ids;
        NoDupConcat(ids, [uid]);
        ids, left := ids + [uid], left - {uid};
      }
      return Some(ids);
    }

    method HandleKXSearchReply(from: UserID, target: UserID, ids: seq<UserID>, recentMIs: set<UserID>)
      modifies this`searches, this`actions, this`sent, this`requests
      ensures Now() == Step(me, old(Now()), Reply(from, target, ids, recentMIs))
    {
      if ids == [] || target !in searches || from !in searches[target] || target in known { return; }
      ghost var e, queried, start := Reply(from, target, ids, recentMIs), searches[target], Now();
      var alreadyQueried: set<UserID> := set uid | uid in searches[target];
      var alreadyMIng := recentMIs;
      for i := 0 to |ids|
        invariant known == old(known)
        invariant Candidates(me, start, e, queried, recentMIs, ids) ==
                  Candidates(me, Now(), e, queried, alreadyMIng, ids[i..])
      {
        assert ids[i..][1..] == ids[i + 1..];
        var uid := ids[i];
        if uid == me || uid in alreadyQueried { continue; }
        if uid in known {
          SendKXSearchQuery(target, uid);
          continue;
        }
        if uid in alreadyMIng { continue; }
        var action := Action(uid, target);
        if action !in actions { actions := actions + [action]; }
        requests := requests + [MediateRequest(from, uid)];
        alreadyMIng := alreadyMIng + {uid};
      }
    }

    /** Adds the user of a completed key exchange and takes the actions that waited for it. */
    method CompleteKX(user: UserID)
      modifies this`known, this`searches, this`actions, this`sent
      ensures Now() == Step(me, old(Now()), Event.CompleteKX(user))
    {
      hide SendQuery, Of, NotOf;
      var postKXActions := Of(actions, user);
      known, searches, actions := known + {user}, searches - {user}, NotOf(actions, user);
      ghost var start := Now();
      for i := 0 to |postKXActions|
        invariant known == start.known && actions == start.actions && requests == start.requests
        invariant TakeActions(start, postKXActions) == TakeActions(Now(), postKXActions[i..])
      {
        assert postKXActions[i..][1..] == postKXActions[i + 1..];
        var act := postKXActions[i];
        if act.target in known || act.target !in searches { continue; }
        SendKXSearchQuery(act.target, user);
      }
    }
  }

  lemma RelaysNext(posts: Posts, refs: seq<Ref>, i: nat)
    requires i < |refs|
    ensures Target(posts, refs[..i + 1]) == NextTarget(posts, Target(posts, refs[..i]), refs[i])
    ensures forall uid :: Relays(posts, refs[..i + 1], uid) <==>
                          Relays(posts, refs[..i], uid) || (refs[i].Post? && uid in posts.relayers(refs[i].pid))
  {
    assert refs[..i + 1] == refs[..i] + [refs[i]];
    assert refs[..i + 1][..i] == refs[..i];
  }

  lemma {:induction false} FailedStays(posts: Posts, refs: seq<Ref>, i: nat)
    requires i <= |refs| && Target(posts, refs[..i]).Failed?
    ensures Target(posts, refs).Failed?
  {
    if i < |refs| {
      assert refs[..|refs| - 1][..i] == refs[..i];
      FailedStays(posts, refs[..|refs| - 1], i);
    } else {
      assert refs[..i] == refs;
    }
  }
}
