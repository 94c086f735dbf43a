/**
 Asking known users to introduce unknown ones: when a request is made on the client's own initiative, how
 far two of them are apart and how many a member of a GC gets.
 */
module MediateID {

  type UserID = nat

  datatype Option<+T> = None | Some(value: T)

  const WORD32: nat := 0x1_0000_0000

  datatype Config = Config(me: UserID, recentThreshold: nat, maxRequests: nat)

  /** Who asked: a user of the client, a first GC list, or a message to a GC with an unknown member. */
  datatype Cause = Manual | FirstList | GCMessage

  datatype LogEntry = Requested(cause: Cause, mediator: UserID, target: UserID) | Met(user: UserID)

  datatype Unkxd = Unkxd(miRequests: nat, addedToGC: Option<nat>)

  datatype Pair = Pair(mediator: UserID, target: UserID)

  /**
   The clock, the users known, those with a key exchange under way, the date of each stored request,
   what is stored of unknown users, and the requests made.
   */
  datatype State = State(now: nat, known: set<UserID>, kxs: set<UserID>, requests: map<Pair, nat>,
                         unkxd: map<UserID, Unkxd>, log: seq<LogEntry>)

  datatype Event =
    | Tick(d: nat)
    | StartKX(user: UserID)
    | EndKX(user: UserID)
    | CompleteKX(user: UserID)
    | RequestManually(mediator: UserID, target: UserID)
    | GetFirstList(from: UserID, members: seq<UserID>)
    | AddToGC(user: UserID)
    | SendToGC(owner: UserID, missing: seq<UserID>)
    | Remove(mediator: UserID, target: UserID)
    | ClearOld(expiry: nat)

  // ---------- Requests ----------

  /** A request stored at that time or later. */
  predicate StoredSince(requests: map<Pair, nat>, target: UserID, t: int) {
    exists p :: p in requests && p.target == target && requests[p] >= t
  }

  predicate HasRecent(cfg: Config, s: State, target: UserID) {
    StoredSince(s.requests, target, s.now - cfg.recentThreshold)
  }

  function Info(s: State, user: UserID): Unkxd {
    if user in s.unkxd then s.unkxd[user] else Unkxd(0, None)
  }

  /** A stored counter has 32 bits. */
  function CountedUp(u: Unkxd): Unkxd {
    u.(miRequests := (u.miRequests + 1) % WORD32)
  }

  predicate MayRequest(cfg: Config, s: State, mediator: UserID, target: UserID) {
    target !in s.known && mediator in s.known && target !in s.kxs && !HasRecent(cfg, s, target)
  }

  function MaybeRequest(cfg: Config, s: State, cause: Cause, mediator: UserID, target: UserID): State {
    if !MayRequest(cfg, s, mediator, target) then s
    else s.(unkxd := s.unkxd[target := CountedUp(Info(s, target))],
            requests := s.requests[Pair(mediator, target) := s.now],
            log := s.log + [Requested(cause, mediator, target)])
  }

  function MaybeRequestAll(cfg: Config, s: State, cause: Cause, mediator: UserID, targets: seq<UserID>): State {
    if targets == [] then s
    else MaybeRequest(cfg, MaybeRequestAll(cfg, s, cause, mediator, targets[..|targets| - 1]), cause, mediator, targets[|targets| - 1])
  }

  /** The members of a list but for the local client. */
  function Others(me: UserID, members: seq<UserID>): (r: seq<UserID>)
    ensures me !in r
  {
    if members == [] then []
    else Others(me, members[..|members| - 1]) + if members[|members| - 1] == me then [] else [members[|members| - 1]]
  }

  // ---------- A message to a GC ----------

  /** Whether the requests for the user, or its joining not long ago, speak against another one. */
  predicate SkipsMI(cfg: Config, s: State, user: UserID) {
    && user in s.unkxd
    && (|| s.unkxd[user].miRequests >= cfg.maxRequests
        || (s.unkxd[user].addedToGC.Some? && s.now - s.unkxd[user].addedToGC.value < cfg.recentThreshold))
  }

  /** At the limit the counter goes one past it, so that the user is warned once. */
  function Examined(cfg: Config, s: State, user: UserID): State {
    if user in s.unkxd && s.unkxd[user].miRequests == cfg.maxRequests
    then s.(unkxd := s.unkxd[user := CountedUp(s.unkxd[user])])
    else s
  }

  function ExaminedAll(cfg: Config, s: State, users: seq<UserID>): State {
    if users == [] then s
    else Examined(cfg, ExaminedAll(cfg, s, users[..|users| - 1]), users[|users| - 1])
  }

  predicate Wanted(cfg: Config, s: State, owner: UserID, user: UserID) {
    owner != cfg.me && user !in s.kxs && !HasRecent(cfg, s, user) && !SkipsMI(cfg, s, user)
  }

  /** The members for which a request is to be made. */
  function WantedOf(cfg: Config, s: State, owner: UserID, users: seq<UserID>): seq<UserID> {
    if users == [] then []
    else
      var before := users[..|users| - 1];
      WantedOf(cfg, s, owner, before) +
      if Wanted(cfg, ExaminedAll(cfg, s, before), owner, users[|users| - 1]) then [users[|users| - 1]] else []
  }

  function Sent(cfg: Config, s: State, owner: UserID, missing: seq<UserID>): State {
    MaybeRequestAll(cfg, ExaminedAll(cfg, s, missing), GCMessage, owner, WantedOf(cfg, s, owner, missing))
  }

  function Step(cfg: Config, s: State, e: Event): State {
    match e
    case Tick(d) => s.(now := s.now + d)
    case StartKX(user) => s.(kxs := s.kxs + {user})
    case EndKX(user) => s.(kxs := s.kxs - {user})
    case CompleteKX(user) =>
      s.(known := s.known + {user}, unkxd := s.unkxd - {user}, log := s.log + [Met(user)])
    case RequestManually(mediator, target) =>
      if mediator !in s.known || target in s.known then s
      else s.(requests := s.requests[Pair(mediator, target) := s.now],
              log := s.log + [Requested(Manual, mediator, target)])
    case GetFirstList(from, members) => MaybeRequestAll(cfg, s, FirstList, from, Others(cfg.me, members))
    case AddToGC(user) =>
      if Info(s, user).addedToGC.Some? then s
      else s.(unkxd := s.unkxd[user := Info(s, user).(addedToGC := Some(s.now))])
    case SendToGC(owner, missing) => Sent(cfg, s, owner, missing)
    case Remove(mediator, target) => s.(requests := s.requests - {Pair(mediator, target)})
    case ClearOld(expiry) =>
      s.(requests := map p | p in s.requests && s.requests[p] >= s.now - expiry :: s.requests[p])
  }

  function After(cfg: Config, s: State, run: seq<Event>): State {
    if run == [] then s else Step(cfg, After(cfg, s, run[..|run| - 1]), run[|run| - 1])
  }

  function At(cfg: Config, s: State, run: seq<Event>, i: nat): State
    requires i <= |run|
  {
    After(cfg, s, run[..i])
  }

  lemma AtNext(cfg: Config, s: State, run: seq<Event>, i: nat)
    requires i < |run|
    ensures At(cfg, s, run, i + 1) == Step(cfg, At(cfg, s, run, i), run[i])
  {
    assert run[..i + 1][..i] == run[..i];
  }

  // ---------- How far apart ----------

  /** How often a request for the target was made on the client's own initiative. */
  function Autos(log: seq<LogEntry>, target: UserID): nat {
    if log == [] then 0
    else
      var e := log[|log| - 1];
      Autos(log[..|log| - 1], target) + if e.Requested? && e.cause != Manual && e.target == target then 1 else 0
  }

  predicate AutoRequests(cfg: Config, s: State, e: Event, target: UserID) {
    Autos(Step(cfg, s, e).log, target) > Autos(s.log, target)
  }

  lemma AutosAppend(log: seq<LogEntry>, e: LogEntry, target: UserID)
    ensures Autos(log + [e], target) ==
            Autos(log, target) + if e.Requested? && e.cause != Manual && e.target == target then 1 else 0
  {}

  lemma StoresNow(requests: map<Pair, nat>, p: Pair, now: nat, target: UserID, t: int)
    requires t <= now
    ensures StoredSince(requests, target, t) || p.target == target ==> StoredSince(requests[p := now], target, t)
  {
    var next := requests[p := now];
    if StoredSince(requests, target, t) {
      var q :| q in requests && q.target == target && requests[q] >= t;
      assert q in next && next[q] >= t;
    }
    if p.target == target { assert p in next && next[p] >= t; }
  }

  /** One request: it is stored, and it is made only when none is recent. */
  lemma RequestStores(cfg: Config, s: State, cause: Cause, mediator: UserID, t: UserID, target: UserID, since: int)
    requires cause != Manual && since <= s.now
    ensures var next := MaybeRequest(cfg, s, cause, mediator, t);
            && next.now == s.now && next.kxs == s.kxs && next.known == s.known
            && (StoredSince(s.requests, target, since) ==> StoredSince(next.requests, target, since))
            && (if t == target && MayRequest(cfg, s, mediator, target)
                then Autos(next.log, target) == Autos(s.log, target) + 1 && StoredSince(next.requests, target, since)
                else Autos(next.log, target) == Autos(s.log, target))
  {
    hide StoredSince, MayRequest, Autos, Info;
    AutosAppend(s.log, Requested(cause, mediator, t), target);
    StoresNow(s.requests, Pair(mediator, t), s.now, target, since);
  }

  /** Of a round of requests at most one is for the target, and none when one is recent. */
  lemma {:induction false} RoundStores(cfg: Config, s: State, cause: Cause, mediator: UserID, targets: seq<UserID>, target: UserID, since: int)
    requires cause != Manual && since <= s.now
    ensures var next := MaybeRequestAll(cfg, s, cause, mediator, targets);
            && next.now == s.now && next.kxs == s.kxs && next.known == s.known
            && (StoredSince(s.requests, target, since) ==> StoredSince(next.requests, target, since))
            && (HasRecent(cfg, s, target) ==> Autos(next.log, target) == Autos(s.log, target))
            && Autos(s.log, target) <= Autos(next.log, target) <= Autos(s.log, target) + 1
            && (Autos(next.log, target) > Autos(s.log, target) ==> StoredSince(next.requests, target, since))
  {
    hide StoredSince, MaybeRequest;
    if targets != [] {
      var n := |targets| - 1;
      var before := MaybeRequestAll(cfg, s, cause, mediator, targets[..n]);
      RoundStores(cfg, s, cause, mediator, targets[..n], target, since);
      RoundStores(cfg, s, cause, mediator, targets[..n], target, s.now - cfg.recentThreshold);
      RequestStores(cfg, before, cause, mediator, targets[n], target, since);
      RequestStores(cfg, before, cause, mediator, targets[n], target, s.now - cfg.recentThreshold);
    }
  }

  lemma {:induction false} ExaminedKeeps(cfg: Config, s: State, users: seq<UserID>)
    ensures var next := ExaminedAll(cfg, s, users); next == s.(unkxd := next.unkxd)
  {
    if users != [] { ExaminedKeeps(cfg, s, users[..|users| - 1]); }
  }

  /** Steps that drop a stored request for the target before it is old. */
  predicate Forgets(cfg: Config, e: Event, target: UserID) {
    (e.Remove? && e.target == target) || (e.ClearOld? && e.expiry < cfg.recentThreshold)
  }

  /** A request stays stored, at least until it is old enough for another. */
  lemma StoredStays(cfg: Config, s: State, e: Event, target: UserID, since: nat)
    requires since <= s.now && !Forgets(cfg, e, target)
    requires StoredSince(s.requests, target, since) || since < s.now - cfg.recentThreshold
    ensures var next := Step(cfg, s, e);
            next.now >= s.now && (StoredSince(next.requests, target, since) || since < next.now - cfg.recentThreshold)
  {
    hide MaybeRequestAll, ExaminedAll, WantedOf;
    match e
    case RequestManually(mediator, t) => StoresNow(s.requests, Pair(mediator, t), s.now, target, since);
    case GetFirstList(from, members) => RoundStores(cfg, s, FirstList, from, Others(cfg.me, members), target, since);
    case SendToGC(owner, missing) =>
      ExaminedKeeps(cfg, s, missing);
      RoundStores(cfg, ExaminedAll(cfg, s, missing), GCMessage, owner, WantedOf(cfg, s, owner, missing), target, since);
    case Remove(mediator, t) =>
      if p :| p in s.requests && p.target == target && s.requests[p] >= since {
        assert p in (s.requests - {Pair(mediator, t)});
      }
    case ClearOld(expiry) =>
      if p :| p in s.requests && p.target == target && s.requests[p] >= since {
        assert s.requests[p] >= s.now - expiry ==> p in Step(cfg, s, e).requests;
      }
    case _ =>
  }

  /** A step that requests on its own leaves the request stored, and finds none recent. */
  lemma AutoRequestNeeds(cfg: Config, s: State, e: Event, target: UserID)
    requires AutoRequests(cfg, s, e, target)
    ensures !HasRecent(cfg, s, target) && StoredSince(Step(cfg, s, e).requests, target, s.now) && Step(cfg, s, e).now == s.now
  {
    hide MaybeRequestAll, ExaminedAll, WantedOf, StoredSince;
    match e
    case CompleteKX(user) => AutosAppend(s.log, Met(user), target);
    case RequestManually(mediator, t) => AutosAppend(s.log, Requested(Manual, mediator, t), target);
    case GetFirstList(from, members) => RoundStores(cfg, s, FirstList, from, Others(cfg.me, members), target, s.now);
    case SendToGC(owner, missing) =>
      ExaminedKeeps(cfg, s, missing);
      RoundStores(cfg, ExaminedAll(cfg, s, missing), GCMessage, owner, WantedOf(cfg, s, owner, missing), target, s.now);
    case _ =>
  }

  lemma {:induction false} StoredUntil(cfg: Config, s: State, run: seq<Event>, i: nat, n: nat, target: UserID)
    requires i < n <= |run| && AutoRequests(cfg, At(cfg, s, run, i), run[i], target)
    requires forall k :: i < k < n ==> !Forgets(cfg, run[k], target)
    ensures var t, now := At(cfg, s, run, i).now, At(cfg, s, run, n);
            t <= now.now && (StoredSince(now.requests, target, t) || t < now.now - cfg.recentThreshold)
  {
    hide StoredSince, Step, AutoRequests, At;
    AtNext(cfg, s, run, n - 1);
    if i == n - 1 {
      AutoRequestNeeds(cfg, At(cfg, s, run, i), run[i], target);
    } else {
      StoredUntil(cfg, s, run, i, n - 1, target);
      StoredStays(cfg, At(cfg, s, run, n - 1), run[n - 1], target, At(cfg, s, run, i).now);
    }
  }

  /** Two requests for one target on the client's own initiative are further apart than the threshold. */
  lemma RequestsApart(cfg: Config, s: State, run: seq<Event>, i: nat, j: nat, target: UserID)
    requires i < j < |run|
    requires AutoRequests(cfg, At(cfg, s, run, i), run[i], target) && AutoRequests(cfg, At(cfg, s, run, j), run[j], target)
    requires forall k :: i < k < j ==> !Forgets(cfg, run[k], target)
    ensures At(cfg, s, run, i).now + cfg.recentThreshold < At(cfg, s, run, j).now
  {
    hide Step, AutoRequests, At;
    StoredUntil(cfg, s, run, i, j, target);
    AutoRequestNeeds(cfg, At(cfg, s, run, j), run[j], target);
  }

  // ---------- How many ----------

  /** The requests made for the sake of GC messages since the last key exchange with the target. */
  function SendsSince(log: seq<LogEntry>, target: UserID): nat {
    if log == [] then 0
    else
      var e := log[|log| - 1];
      if e == Met(target) then 0
      else SendsSince(log[..|log| - 1], target) + if e.Requested? && e.cause == GCMessage && e.target == target then 1 else 0
  }

  lemma SendsAppend(log: seq<LogEntry>, e: LogEntry, target: UserID)
    ensures SendsSince(log + [e], target) ==
            if e == Met(target) then 0
            else SendsSince(log, target) + if e.Requested? && e.cause == GCMessage && e.target == target then 1 else 0
  {}

  /** The counter counts at least these requests, and they stay within the limit. */
  predicate Counted(cfg: Config, s: State, target: UserID) {
    SendsSince(s.log, target) <= Info(s, target).miRequests && SendsSince(s.log, target) <= cfg.maxRequests
  }

  /** The counter is not at its largest value. */
  predicate HasRoom(s: State, target: UserID) {
    Info(s, target).miRequests < WORD32 - 2
  }

  lemma RequestCounts(cfg: Config, s: State, cause: Cause, mediator: UserID, t: UserID, target: UserID)
    requires cause != Manual && Info(s, target).miRequests < WORD32 - 1
    ensures var next := MaybeRequest(cfg, s, cause, mediator, t); var d := Autos(next.log, target) - Autos(s.log, target);
            && (d == 0 || (d == 1 && t == target))
            && Info(next, target).miRequests == Info(s, target).miRequests + d
            && SendsSince(next.log, target) == SendsSince(s.log, target) + if cause == GCMessage then d else 0
  {
    hide MayRequest;
    AutosAppend(s.log, Requested(cause, mediator, t), target);
    SendsAppend(s.log, Requested(cause, mediator, t), target);
  }

  /** A round of requests counts what it makes for the target: at most one, and none it was not asked for. */
  lemma {:induction false} RoundCounts(cfg: Config, s: State, cause: Cause, mediator: UserID, targets: seq<UserID>, target: UserID)
    requires cause != Manual && Info(s, target).miRequests < WORD32 - 1
    ensures var next := MaybeRequestAll(cfg, s, cause, mediator, targets); var d := Autos(next.log, target) - Autos(s.log, target);
            && (d == 0 || (d == 1 && target in targets))
            && Info(next, target).miRequests == Info(s, target).miRequests + d
            && SendsSince(next.log, target) == SendsSince(s.log, target) + if cause == GCMessage then d else 0
  {
    hide MaybeRequest, Info, Autos, SendsSince;
    RoundStores(cfg, s, cause, mediator, targets, target, s.now);
    if targets != [] {
      var n := |targets| - 1;
      var before := MaybeRequestAll(cfg, s, cause, mediator, targets[..n]);
      RoundCounts(cfg, s, cause, mediator, targets[..n], target);
      RoundStores(cfg, s, cause, mediator, targets[..n], target, s.now);
      if Autos(before.log, target) > Autos(s.log, target) {
        StoredIsRecent(cfg, before, target, s.now);
        RequestStores(cfg, before, cause, mediator, targets[n], target, s.now);
        NoRequestWhenRecent(cfg, before, cause, mediator, targets[n], target);
      } else {
        RequestCounts(cfg, before, cause, mediator, targets[n], target);
      }
    }
  }

  lemma StoredIsRecent(cfg: Config, s: State, target: UserID, t: nat)
    requires StoredSince(s.requests, target, t) && t == s.now
    ensures HasRecent(cfg, s, target)
  {}

  lemma NoRequestWhenRecent(cfg: Config, s: State, cause: Cause, mediator: UserID, t: UserID, target: UserID)
    requires HasRecent(cfg, s, target)
    ensures var next := MaybeRequest(cfg, s, cause, mediator, t);
            Info(next, target) == Info(s, target) && SendsSince(next.log, target) == SendsSince(s.log, target)
  {
    hide HasRecent;
    SendsAppend(s.log, Requested(cause, mediator, t), target);
  }

  /** Looking at the members changes the counter only at the limit, and by one. */
  lemma {:induction false} ExaminedCounts(cfg: Config, s: State, users: seq<UserID>, target: UserID)
    requires Info(s, target).miRequests < WORD32 - 2
    ensures var was, now := Info(s, target).miRequests, Info(ExaminedAll(cfg, s, users), target).miRequests;
            now == was || (now == was + 1 && was == cfg.maxRequests)
  {
    if users != [] { ExaminedCounts(cfg, s, users[..|users| - 1], target); }
  }

  /** A member is asked for only below the limit. */
  lemma {:induction false} WantedBelowLimit(cfg: Config, s: State, owner: UserID, users: seq<UserID>, target: UserID)
    requires Info(s, target).miRequests < WORD32 - 2 && cfg.maxRequests > 0
    ensures target in WantedOf(cfg, s, owner, users) ==> Info(s, target).miRequests < cfg.maxRequests
  {
    if users != [] {
      var before := users[..|users| - 1];
      WantedBelowLimit(cfg, s, owner, before, target);
      ExaminedCounts(cfg, s, before, target);
    }
  }

  /** A message to a GC requests only below the limit, and counts. */
  lemma SentCounted(cfg: Config, s: State, owner: UserID, missing: seq<UserID>, target: UserID)
    requires cfg.maxRequests > 0 && Counted(cfg, s, target) && HasRoom(s, target)
    ensures Counted(cfg, Sent(cfg, s, owner, missing), target)
    ensures Info(Sent(cfg, s, owner, missing), target).miRequests <=
            if Info(s, target).miRequests <= cfg.maxRequests then cfg.maxRequests + 1 else Info(s, target).miRequests
  {
    hide Info, ExaminedAll, WantedOf, MaybeRequestAll, SendsSince;
    var seen := ExaminedAll(cfg, s, missing);
    ExaminedKeeps(cfg, s, missing);
    ExaminedCounts(cfg, s, missing, target);
    WantedBelowLimit(cfg, s, owner, missing, target);
    RoundCounts(cfg, seen, GCMessage, owner, WantedOf(cfg, s, owner, missing), target);
  }

  lemma StepCounted(cfg: Config, s: State, e: Event, target: UserID)
    requires cfg.maxRequests > 0 && Counted(cfg, s, target) && HasRoom(s, target)
    ensures Counted(cfg, Step(cfg, s, e), target)
  {
    hide Sent, MaybeRequestAll, SendsSince, Autos;
    match e
    case CompleteKX(user) => SendsAppend(s.log, Met(user), target);
    case RequestManually(mediator, t) => SendsAppend(s.log, Requested(Manual, mediator, t), target);
    case GetFirstList(from, members) => RoundCounts(cfg, s, FirstList, from, Others(cfg.me, members), target);
    case SendToGC(owner, missing) => SentCounted(cfg, s, owner, missing, target);
    case _ =>
  }

  /**
   Messages to GCs make no more requests for a target between two key exchanges than the limit, while the
   counter does not come near its largest value.
   */
  lemma {:induction false} SendsWithinLimit(cfg: Config, s: State, run: seq<Event>, n: nat, target: UserID)
    requires cfg.maxRequests > 0 && s.log == [] && n <= |run|
    requires forall i :: 0 <= i < n ==> HasRoom(At(cfg, s, run, i), target)
    ensures Counted(cfg, At(cfg, s, run, n), target)
  {
    hide Step, Counted, HasRoom, At;
    if n > 0 {
      SendsWithinLimit(cfg, s, run, n - 1, target);
      AtNext(cfg, s, run, n - 1);
      StepCounted(cfg, At(cfg, s, run, n - 1), run[n - 1], target);
    } else {
      CountedAtStart(cfg, s, run, target);
    }
  }

  lemma CountedAtStart(cfg: Config, s: State, run: seq<Event>, target: UserID)
    requires s.log == []
    ensures Counted(cfg, At(cfg, s, run, 0), target)
  {}

  /** When only such messages count, the counter stops one past the limit, and the limit always holds. */
  lemma {:induction false} SendsWithinLimitAlone(cfg: Config, s: State, run: seq<Event>, n: nat, target: UserID)
    requires 0 < cfg.maxRequests < WORD32 - 3 && s.log == [] && n <= |run|
    requires Info(s, target).miRequests <= cfg.maxRequests + 1
    requires forall i :: 0 <= i < n ==> !run[i].GetFirstList?
    ensures Counted(cfg, At(cfg, s, run, n), target)
    ensures Info(At(cfg, s, run, n), target).miRequests <= cfg.maxRequests + 1
  {
    hide Step, Counted, At, Info;
    if n > 0 {
      SendsWithinLimitAlone(cfg, s, run, n - 1, target);
      AtNext(cfg, s, run, n - 1);
      StepCounted(cfg, At(cfg, s, run, n - 1), run[n - 1], target);
      CounterStops(cfg, At(cfg, s, run, n - 1), run[n - 1], target);
    } else {
      CountedAtStart(cfg, s, run, target);
      AtStart(cfg, s, run);
    }
  }

  lemma AtStart(cfg: Config, s: State, run: seq<Event>)
    ensures At(cfg, s, run, 0) == s
  {}

  lemma CounterStops(cfg: Config, s: State, e: Event, target: UserID)
    requires 0 < cfg.maxRequests < WORD32 - 3 && Counted(cfg, s, target) && !e.GetFirstList?
    requires Info(s, target).miRequests <= cfg.maxRequests + 1
    ensures Info(Step(cfg, s, e), target).miRequests <= cfg.maxRequests + 1
  {
    hide Sent;
    if e.SendToGC? { SentCounted(cfg, s, e.owner, e.missing, target); }
  }

  // ---------- Who is asked for ----------

  /** The client knows no way to the target, nor is it getting one, and the mediator can be asked. */
  predicate Reachable(cfg: Config, s: State, mediator: UserID, target: UserID) {
    && mediator in s.known && target !in s.known && target !in s.kxs
    && !exists p :: p in s.requests && p.target == target && s.now <= s.requests[p] + cfg.recentThreshold
  }

  lemma MayRequestIs(cfg: Config, s: State, mediator: UserID, target: UserID)
    ensures MayRequest(cfg, s, mediator, target) <==> Reachable(cfg, s, mediator, target)
  {}

  /** A request is stored with its date, counted and logged; otherwise nothing changes. */
  lemma RequestSets(cfg: Config, s: State, cause: Cause, mediator: UserID, target: UserID)
    ensures var next := MaybeRequest(cfg, s, cause, mediator, target);
            if Reachable(cfg, s, mediator, target) then
              var was := if target in s.unkxd then s.unkxd[target] else Unkxd(0, None);
              && next.requests == s.requests[Pair(mediator, target) := s.now]
              && next.log == s.log + [Requested(cause, mediator, target)]
              && next.unkxd == s.unkxd[target := Unkxd((was.miRequests + 1) % 0x1_0000_0000, was.addedToGC)]
              && next.now == s.now && next.known == s.known && next.kxs == s.kxs
            else next == s
  {
    MayRequestIs(cfg, s, mediator, target);
  }

  /** A request about another user changes nothing about the target. */
  lemma OthersApart(cfg: Config, s: State, cause: Cause, mediator: UserID, t: UserID, target: UserID)
    requires t != target || !MayRequest(cfg, s, mediator, t)
    ensures var next := MaybeRequest(cfg, s, cause, mediator, t);
            HasRecent(cfg, next, target) <==> HasRecent(cfg, s, target)
  {
    var next := MaybeRequest(cfg, s, cause, mediator, t);
    if p :| p in s.requests && p.target == target && s.requests[p] >= s.now - cfg.recentThreshold {
      assert p in next.requests && next.requests[p] == s.requests[p];
    }
  }

  /** A round of requests asks for a target exactly once if it is in it and can be asked for, else never. */
  lemma {:induction false} RoundAsks(cfg: Config, s: State, cause: Cause, mediator: UserID, targets: seq<UserID>, target: UserID)
    requires cause != Manual
    ensures var next := MaybeRequestAll(cfg, s, cause, mediator, targets);
            && Autos(next.log, target) == Autos(s.log, target) +
               (if target in targets && MayRequest(cfg, s, mediator, target) then 1 else 0)
            && (Autos(next.log, target) == Autos(s.log, target) ==> (HasRecent(cfg, next, target) <==> HasRecent(cfg, s, target)))
  {
    hide MaybeRequest, Autos, HasRecent;
    if targets != [] {
      var n := |targets| - 1;
      var before := MaybeRequestAll(cfg, s, cause, mediator, targets[..n]);
      RoundAsks(cfg, s, cause, mediator, targets[..n], target);
      RoundStores(cfg, s, cause, mediator, targets[..n], target, s.now);
      RequestStores(cfg, before, cause, mediator, targets[n], target, s.now);
      if Autos(before.log, target) > Autos(s.log, target) { StoredIsRecent(cfg, before, target, s.now); }
      if targets[n] != target || !MayRequest(cfg, before, mediator, targets[n]) {
        OthersApart(cfg, before, cause, mediator, targets[n], target);
      }
      assert target in targets <==> target in targets[..n] || target == targets[n];
    }
  }

  /** A first list asks once for each of its members that can be asked for, the local client apart. */
  lemma FirstListAsks(cfg: Config, s: State, from: UserID, members: seq<UserID>, target: UserID)
    ensures Autos(Step(cfg, s, GetFirstList(from, members)).log, target) == Autos(s.log, target) +
            if target in members && target != cfg.me && Reachable(cfg, s, from, target) then 1 else 0
  {
    hide MaybeRequestAll, MayRequest, Reachable;
    RoundAsks(cfg, s, FirstList, from, Others(cfg.me, members), target);
    MayRequestIs(cfg, s, from, target);
    OthersAre(cfg.me, members, target);
  }

  lemma {:induction false} OthersAre(me: UserID, members: seq<UserID>, target: UserID)
    ensures target in Others(me, members) <==> target in members && target != me
  {
    if members != [] {
      OthersAre(me, members[..|members| - 1], target);
      assert members == members[..|members| - 1] + [members[|members| - 1]];
    }
  }

  /** Asked for often enough, or added to the chat not long ago. */
  predicate LeftAlone(cfg: Config, s: State, user: UserID) {
    && user in s.unkxd
    && (|| s.unkxd[user].miRequests >= cfg.maxRequests
        || (s.unkxd[user].addedToGC.Some? && s.now < s.unkxd[user].addedToGC.value + cfg.recentThreshold))
  }

  lemma SkipsIs(cfg: Config, s: State, user: UserID)
    ensures SkipsMI(cfg, s, user) <==> LeftAlone(cfg, s, user)
  {}

  /** Looking at the members counts those at the limit up once, so that they are warned once, and no others. */
  lemma {:induction false} ExaminedSkips(cfg: Config, s: State, users: seq<UserID>, target: UserID)
    requires cfg.maxRequests < WORD32 - 1
    ensures var next := ExaminedAll(cfg, s, users);
            && (SkipsMI(cfg, next, target) <==> SkipsMI(cfg, s, target))
            && (target in next.unkxd <==> target in s.unkxd)
            && (target in s.unkxd ==>
                  var was, now := s.unkxd[target], next.unkxd[target];
                  now == if target in users && was.miRequests == cfg.maxRequests then was.(miRequests := cfg.maxRequests + 1) else was)
  {
    if users != [] {
      ExaminedSkips(cfg, s, users[..|users| - 1], target);
      ExaminedKeeps(cfg, s, users[..|users| - 1]);
    }
  }

  lemma {:induction false} WantedIs(cfg: Config, s: State, owner: UserID, users: seq<UserID>, target: UserID)
    requires cfg.maxRequests < WORD32 - 1
    ensures target in WantedOf(cfg, s, owner, users) <==> target in users && Wanted(cfg, s, owner, target)
  {
    hide SkipsMI;
    if users != [] {
      var before := users[..|users| - 1];
      WantedIs(cfg, s, owner, before, target);
      ExaminedKeeps(cfg, s, before);
      ExaminedSkips(cfg, s, before, target);
      assert users == before + [users[|users| - 1]];
    }
  }

  /**
   A message to a GC asks its owner once for each missing member that can be asked for and is not left
   alone, unless the local client owns the GC; and for nobody else.
   */
  lemma SendAsks(cfg: Config, s: State, owner: UserID, missing: seq<UserID>, target: UserID)
    requires cfg.maxRequests < WORD32 - 1
    ensures Autos(Step(cfg, s, SendToGC(owner, missing)).log, target) == Autos(s.log, target) +
            if target in missing && owner != cfg.me && Reachable(cfg, s, owner, target) && !LeftAlone(cfg, s, target) then 1 else 0
  {
    hide MaybeRequestAll, WantedOf, ExaminedAll, LeftAlone, SkipsMI, Autos, Reachable, HasRecent;
    var seen := ExaminedAll(cfg, s, missing);
    ExaminedKeeps(cfg, s, missing);
    WantedIs(cfg, s, owner, missing, target);
    RoundAsks(cfg, seen, GCMessage, owner, WantedOf(cfg, s, owner, missing), target);
    MayRequestIs(cfg, s, owner, target);
    SkipsIs(cfg, s, target);
    SameRecent(cfg, s, seen, target);
  }

  lemma SameRecent(cfg: Config, s: State, s': State, target: UserID)
    requires s'.requests == s.requests && s'.now == s.now
    ensures HasRecent(cfg, s', target) <==> HasRecent(cfg, s, target)
  {}

  /** A completed key exchange forgets what was stored of the user, so that it can be asked for from the start. */
  lemma OtherStepsSet(cfg: Config, s: State, user: UserID, mediator: UserID, expiry: nat)
    ensures var next := Step(cfg, s, CompleteKX(user));
            user in next.known && user !in next.unkxd && next.requests == s.requests && next.now == s.now &&
            forall other :: other in s.unkxd && other != user ==> other in next.unkxd && next.unkxd[other] == s.unkxd[other]
    ensures var next := Step(cfg, s, AddToGC(user));
            && user in next.unkxd && next.unkxd[user].addedToGC.Some? && next == s.(unkxd := next.unkxd)
            && (user in s.unkxd && s.unkxd[user].addedToGC.Some? ==> next.unkxd == s.unkxd)
            && (user in s.unkxd ==> next.unkxd[user].miRequests == s.unkxd[user].miRequests)
            && (user in s.unkxd && s.unkxd[user].addedToGC.None? ==> next.unkxd[user].addedToGC == Some(s.now))
            && (user !in s.unkxd ==> next.unkxd[user] == Unkxd(0, Some(s.now)))
    ensures var next := Step(cfg, s, Remove(mediator, user));
            next == s.(requests := next.requests) &&
            forall p :: p in next.requests <==> p in s.requests && p != Pair(mediator, user)
    ensures var next := Step(cfg, s, ClearOld(expiry));
            next == s.(requests := next.requests) &&
            forall p :: (p in next.requests <==> p in s.requests && s.now <= s.requests[p] + expiry) &&
                        (p in next.requests ==> next.requests[p] == s.requests[p])
    ensures var next := Step(cfg, s, RequestManually(mediator, user));
            if mediator in s.known && user !in s.known then
              next == s.(requests := s.requests[Pair(mediator, user) := s.now], log := s.log + [Requested(Manual, mediator, user)])
            else next == s
  {}

  // ---------- The client ----------

  /** What is found out about a member the client has no keys with. */
  datatype MissingKX = MissingKX(uid: UserID, hasKX: bool, hasMI: bool, skipMI: bool)

  class Client {
    const cfg: Config
    var now: nat
    var known: set<UserID>
    var kxs: set<UserID>
    var requests: map<Pair, nat>
    var unkxd: map<UserID, Unkxd>
    var log: seq<LogEntry>

    constructor (cfg: Config, now: nat, known: set<UserID>)
      ensures this.cfg == cfg && Now() == State(now, known, {}, map[], map[], [])
    {
      this.cfg, this.now, this.known, kxs, requests, unkxd, log := cfg, now, known, {}, map[], map[], [];
    }

    function Now(): State
      reads this
    {
      State(now, known, kxs, requests, unkxd, log)
    }

    method RequestMediateIdentity(mediator: UserID, target: UserID) returns (ok: bool)
      modifies this`requests, this`log
      ensures Now() == Step(cfg, old(Now()), RequestManually(mediator, target))
    {
      if mediator !in known || target in known { return false; }
      requests := requests[Pair(mediator, target) := now];
      log := log + [Requested(Manual, mediator, target)];
      return true;
    }

    method MaybeRequestMediateID(cause: Cause, mediator: UserID, target: UserID) returns (requested: bool)
      modifies this`requests, this`unkxd, this`log
      ensures Now() == MaybeRequest(cfg, old(Now()), cause, mediator, target)
      ensures requested == MayRequest(cfg, old(Now()), mediator, target)
    {
      if target in known || mediator !in known || target in kxs { return false; }
      if HasRecent(cfg, Now(), target) { return false; }
      var unkx := Unkxd(0, None);
      if target in unkxd { unkx := unkxd[target]; }
      unkxd := unkxd[target := CountedUp(unkx)];
      requests := requests[Pair(mediator, target) := now];
      log := log + [Requested(cause, mediator, target)];
      return true;
    }

    /** Asks the sender of a first GC list for each of the other members. */
    method HandleFirstList(from: UserID, members: seq<UserID>)
      modifies this`requests, this`unkxd, this`log
      ensures Now() == Step(cfg, old(Now()), GetFirstList(from, members))
    {
      hide MaybeRequest;
      ghost var start := Now();
      for i := 0 to |members|
        invariant Now() == MaybeRequestAll(cfg, start, FirstList, from, Others(cfg.me, members[..i]))
      {
        assert members[..i + 1][..i] == members[..i];
        ghost var before := Others(cfg.me, members[..i]);
        assert before + [] == before;
        if members[i] == cfg.me { continue; }
        assert (before + [members[i]])[..|before|] == before;
        var _ := MaybeRequestMediateID(FirstList, from, members[i]);
      }
      assert members[..|members|] == members;
    }

    /** One member: what is known of it, and its counter, one higher when it is at the limit. */
    method Examine(uid: UserID) returns (m: MissingKX)
      modifies this`unkxd
      ensures Now() == Examined(cfg, old(Now()), uid)
      ensures m == MissingKX(uid, uid in kxs, old(HasRecent(cfg, Now(), uid)), old(SkipsMI(cfg, Now(), uid)))
    {
      m := MissingKX(uid, uid in kxs, HasRecent(cfg, Now(), uid), false);
      if uid in unkxd {
        var unkx := unkxd[uid];
        if unkx.miRequests >= cfg.maxRequests {
          m := m.(skipMI := true);
          var skipWarn := unkx.miRequests > cfg.maxRequests;
          if !skipWarn { unkxd := unkxd[uid := CountedUp(unkx)]; }
        } else if unkx.addedToGC.Some? && now - unkx.addedToGC.value < cfg.recentThreshold {
          m := m.(skipMI := true);
        }
      }
    }

    /** The part of sending to a GC about the members the client has no keys with. */
    method SendToGCMembers(owner: UserID, missing: seq<UserID>)
      modifies this`requests, this`unkxd, this`log
      ensures Now() == Step(cfg, old(Now()), SendToGC(owner, missing))
    {
      hide ExaminedAll, MaybeRequestAll, Targets, WantedOf;
      var missingKX := ExamineAll(owner, missing);
      RequestMissing(owner, missingKX);
    }

    method ExamineAll(owner: UserID, missing: seq<UserID>) returns (missingKX: seq<MissingKX>)
      modifies this`unkxd
      ensures Now() == ExaminedAll(cfg, old(Now()), missing)
      ensures Targets(cfg, owner, missingKX) == WantedOf(cfg, old(Now()), owner, missing)
    {
      hide Examined, SkipsMI, HasRecent;
      ghost var start := Now();
      missingKX := [];
      for i := 0 to |missing|
        invariant Now() == ExaminedAll(cfg, start, missing[..i])
        invariant Targets(cfg, owner, missingKX) == WantedOf(cfg, start, owner, missing[..i])
      {
        assert missing[..i + 1][..i] == missing[..i];
        var m := Examine(missing[i]);
        assert (missingKX + [m])[..|missingKX|] == missingKX;
        missingKX := missingKX + [m];
      }
      assert missing[..|missing|] == missing;
    }

    method RequestMissing(owner: UserID, missingKX: seq<MissingKX>)
      modifies this`requests, this`unkxd, this`log
      ensures Now() == MaybeRequestAll(cfg, old(Now()), GCMessage, owner, Targets(cfg, owner, missingKX))
    {
      hide MaybeRequest;
      ghost var start := Now();
      for i := 0 to |missingKX|
        invariant Now() == MaybeRequestAll(cfg, start, GCMessage, owner, Targets(cfg, owner, missingKX[..i]))
      {
        assert missingKX[..i + 1][..i] == missingKX[..i];
        var m := missingKX[i];
        ghost var before := Targets(cfg, owner, missingKX[..i]);
        assert before + [] == before;
        if m.hasKX || m.hasMI || owner == cfg.me || m.skipMI { continue; }
        assert (before + [m.uid])[..|before|] == before;
        var _ := MaybeRequestMediateID(GCMessage, owner, m.uid);
      }
      assert missingKX[..|missingKX|] == missingKX;
    }

    method ClearOldMediateIDs(expiry: nat)
      modifies this`requests
      ensures Now() == Step(cfg, old(Now()), ClearOld(expiry))
    {
      var left := requests.Keys;
      while left != {}
        invariant left <= requests.Keys <= old(requests).Keys
        invariant forall p :: p in requests ==> requests[p] == old(requests)[p]
        invariant forall p :: p in old(requests) ==>
                    (p in requests <==> p in left || old(requests)[p] >= now - expiry)
        decreases left
      {
        var p :| p in left;
        left := left - {p};
        if requests[p] < now - expiry { requests := requests - {p}; }
      }
    }
  }

  /** The members of an examination for which a request is made. */
  function Targets(cfg: Config, owner: UserID, ms: seq<MissingKX>): seq<UserID> {
    if ms == [] then []
    else
      var m := ms[|ms| - 1];
      Targets(cfg, owner, ms[..|ms| - 1]) +
      if m.hasKX || m.hasMI || owner == cfg.me || m.skipMI then [] else [m.uid]
  }
}
