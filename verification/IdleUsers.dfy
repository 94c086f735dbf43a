/**
 Users from whom nothing was heard for long: the automatic handshake, and the removal of those who do
 not answer it from the local client's GCs and from its posts.
 */
module IdleUsers {

  type UserID = nat
  type GCID = nat

  datatype Option<+T> = None | Some(value: T)

  /** Times and intervals are in nanoseconds; zero is the zero time. */
  datatype Entry = Entry(firstCreated: nat, lastHandshakeAttempt: nat)

  datatype Config = Config(autoHandshake: nat, autoRemove: nat)

  datatype AdminGC = AdminGC(id: GCID, members: seq<UserID>)

  /** What a removal pass works out before its loop. */
  datatype Pass = Pass(limitDate: int, limitHandshakeDate: int, adminGCs: seq<AdminGC>,
                       postSubs: set<UserID>, ignoreList: set<UserID>)

  /** The clock, the address book, the last decryption time of each user's ratchet and the passes under way. */
  datatype State = State(now: nat, book: map<UserID, Entry>, dec: map<UserID, nat>,
                         handshakes: Option<int>, unsub: Option<Pass>)

  /** Steps of one client. Handlers and calls of the API come between the turns of a pass's loop. */
  datatype Event =
    | Tick(d: nat)
    | NewRatchet(uid: UserID)
    | CompleteKX(uid: UserID)
    | Receive(uid: UserID)
    | HandleAck(uid: UserID)       // SYNACK or ACK
    | Handshake(uid: UserID)
    | BeginHandshakes
    | HandshakeTurn(uid: UserID)
    | BeginUnsub(adminGCs: seq<AdminGC>, postSubs: set<UserID>, ignoreList: set<UserID>)
    | UnsubTurn(uid: UserID)

  // ---------- Steps ----------

  function SetAttempt(book: map<UserID, Entry>, uid: UserID, t: nat): (r: map<UserID, Entry>) {
    if uid in book then book[uid := book[uid].(lastHandshakeAttempt := t)] else book
  }

  /** An attempt older than the last message is stale: its handshake worked or a new one replaced it. */
  function ClearStale(s: State, uid: UserID): map<UserID, Entry>
    requires uid in s.book && uid in s.dec
  {
    if s.book[uid].lastHandshakeAttempt < s.dec[uid] then SetAttempt(s.book, uid, 0) else s.book
  }

  /** Whether a turn of the handshake pass gets as far as the address book entry of the user. */
  predicate Considered(s: State, uid: UserID, limitDate: int) {
    uid in s.dec && s.dec[uid] <= limitDate && uid in s.book
  }

  /** Whether a turn of the handshake pass attempts a handshake. */
  predicate WantsHandshake(s: State, uid: UserID, limitDate: int) {
    && Considered(s, uid, limitDate)
    && ClearStale(s, uid)[uid].lastHandshakeAttempt == 0
    && (s.book[uid].firstCreated == 0 || s.book[uid].firstCreated <= limitDate)
  }

  function AfterHandshakeTurn(s: State, uid: UserID, limitDate: int): map<UserID, Entry> {
    if WantsHandshake(s, uid, limitDate) then SetAttempt(s.book, uid, s.now)
    else if Considered(s, uid, limitDate) then ClearStale(s, uid)
    else s.book
  }

  function GCsWith(gcs: seq<AdminGC>, uid: UserID): (r: seq<GCID>)
    ensures forall id :: id in r <==> exists gc :: gc in gcs && gc.id == id && uid in gc.members
  {
    if gcs == [] then []
    else
      var r := GCsWith(gcs[..|gcs| - 1], uid);
      var gc := gcs[|gcs| - 1];
      assert gcs == gcs[..|gcs| - 1] + [gc];
      if uid in gc.members then r + [gc.id] else r
  }

  datatype Removal = Removal(uid: UserID, fromGCs: seq<GCID>, fromPosts: bool)

  /** What a turn of the removal pass does to a user, if anything. */
  function Removes(s: State, uid: UserID): Option<Removal> {
    if s.unsub.None? || uid in s.unsub.value.ignoreList || uid !in s.dec || uid !in s.book then None
    else
      var p, ab := s.unsub.value, s.book[uid];
      if s.dec[uid] > p.limitDate || ab.firstCreated > p.limitDate then None
      else if ab.lastHandshakeAttempt == 0 || ab.lastHandshakeAttempt > p.limitHandshakeDate then None
      else
        var gcs := GCsWith(p.adminGCs, uid);
        if gcs == [] && uid !in p.postSubs then None else Some(Removal(uid, gcs, uid in p.postSubs))
  }

  function Begun(cfg: Config, now: nat, e: Event): Option<Pass>
    requires e.BeginUnsub?
  {
    if cfg.autoRemove == 0 || cfg.autoHandshake / 2 == 0 then None
    else Some(Pass(now - cfg.autoRemove, now - cfg.autoHandshake / 2, e.adminGCs, e.postSubs, e.ignoreList))
  }

  function Step(cfg: Config, s: State, e: Event): State {
    match e
    case Tick(d) => s.(now := s.now + d)
    case NewRatchet(uid) => s.(dec := s.dec[uid := 0])
    case CompleteKX(uid) =>
      s.(book := s.book[uid := Entry(if uid in s.book then s.book[uid].firstCreated else s.now, 0)])
    case Receive(uid) => if uid in s.dec then s.(dec := s.dec[uid := s.now]) else s
    case HandleAck(uid) => s.(book := SetAttempt(s.book, uid, 0))
    case Handshake(uid) => if uid in s.dec then s.(book := SetAttempt(s.book, uid, s.now)) else s
    case BeginHandshakes =>
      s.(handshakes := if cfg.autoHandshake == 0 then None else Some(s.now - cfg.autoHandshake))
    case HandshakeTurn(uid) =>
      if s.handshakes.None? then s else s.(book := AfterHandshakeTurn(s, uid, s.handshakes.value))
    case BeginUnsub(_, _, _) => s.(unsub := Begun(cfg, s.now, e))
    case UnsubTurn(_) => s
  }

  function After(cfg: Config, s: State, run: seq<Event>): State {
    if run == [] then s else Step(cfg, After(cfg, s, run[..|run| - 1]), run[|run| - 1])
  }

  /** The state in which event i of the run happens. */
  function At(cfg: Config, s: State, run: seq<Event>, i: nat): State
    requires i <= |run|
  {
    After(cfg, s, run[..i])
  }

  /** A client that just started: nothing attempted and no message from the future. */
  predicate Started(s: State) {
    && s.now > 0 && s.handshakes.None? && s.unsub.None?
    && (forall uid :: uid in s.book ==> s.book[uid].lastHandshakeAttempt == 0)
    && (forall uid :: uid in s.dec ==> s.dec[uid] <= s.now)
  }

  // ---------- Reading the history ----------

  predicate AutoAttempts(s: State, e: Event, uid: UserID) {
    e == HandshakeTurn(uid) && s.handshakes.Some? && WantsHandshake(s, uid, s.handshakes.value)
  }

  predicate Attempts(s: State, e: Event, uid: UserID) {
    (e == Handshake(uid) && uid in s.dec && uid in s.book) || AutoAttempts(s, e, uid)
  }

  /** The user answered a handshake, or a new key exchange made it moot. */
  predicate Answers(e: Event, uid: UserID) {
    e == HandleAck(uid) || e == CompleteKX(uid)
  }

  lemma AtNext(cfg: Config, s: State, run: seq<Event>, i: nat)
    requires i < |run|
    ensures At(cfg, s, run, i + 1) == Step(cfg, At(cfg, s, run, i), run[i])
  {
    assert run[..i + 1][..i] == run[..i];
  }

  lemma {:induction false} ClockAdvances(cfg: Config, s: State, run: seq<Event>, i: nat, j: nat)
    requires i <= j <= |run|
    ensures At(cfg, s, run, i).now <= At(cfg, s, run, j).now
  {
    if i < j {
      ClockAdvances(cfg, s, run, i, j - 1);
      AtNext(cfg, s, run, j - 1);
    }
  }

  /** A stored attempt was made at the time stored, and nothing answered it since. */
  lemma {:induction false} StoredAttempt(cfg: Config, s: State, run: seq<Event>, n: nat, uid: UserID) returns (i: nat)
    requires Started(s) && n <= |run|
    requires uid in At(cfg, s, run, n).book && At(cfg, s, run, n).book[uid].lastHandshakeAttempt != 0
    ensures i < n && Attempts(At(cfg, s, run, i), run[i], uid)
    ensures At(cfg, s, run, n).book[uid].lastHandshakeAttempt == At(cfg, s, run, i).now
    ensures forall j :: i < j < n ==> !Answers(run[j], uid)
  {
    AtNext(cfg, s, run, n - 1);
    var before := At(cfg, s, run, n - 1);
    if Attempts(before, run[n - 1], uid) {
      i := n - 1;
    } else {
      i := StoredAttempt(cfg, s, run, n - 1, uid);
    }
  }

  /** A message on the present ratchet is not later than the ratchet's last decryption time. */
  lemma {:induction false} DecryptedBy(cfg: Config, s: State, run: seq<Event>, k: nat, n: nat, uid: UserID)
    requires k < n <= |run| && run[k] == Receive(uid) && uid in At(cfg, s, run, k).dec
    requires forall j :: k < j < n ==> run[j] != NewRatchet(uid)
    ensures uid in At(cfg, s, run, n).dec
    ensures At(cfg, s, run, k).now <= At(cfg, s, run, n).dec[uid]
  {
    AtNext(cfg, s, run, n - 1);
    if k < n - 1 {
      DecryptedBy(cfg, s, run, k, n - 1, uid);
      ClockAdvances(cfg, s, run, k, n - 1);
    }
  }

  /** The creation time is that of the first key exchange, whatever happened since. */
  lemma {:induction false} CreatedAt(cfg: Config, s: State, run: seq<Event>, k: nat, n: nat, uid: UserID)
    requires k < n <= |run| && run[k] == CompleteKX(uid) && uid !in At(cfg, s, run, k).book
    ensures uid in At(cfg, s, run, n).book
    ensures At(cfg, s, run, n).book[uid].firstCreated == At(cfg, s, run, k).now
  {
    AtNext(cfg, s, run, n - 1);
    if k < n - 1 {
      CreatedAt(cfg, s, run, k, n - 1, uid);
    }
  }

  /** A removal pass under way was begun with both features on, and its limits count from that moment. */
  lemma {:induction false} PassBegun(cfg: Config, s: State, run: seq<Event>, n: nat) returns (b: nat)
    requires Started(s) && n <= |run| && At(cfg, s, run, n).unsub.Some?
    ensures b < n && run[b].BeginUnsub?
    ensures At(cfg, s, run, n).unsub == Begun(cfg, At(cfg, s, run, b).now, run[b])
  {
    AtNext(cfg, s, run, n - 1);
    if run[n - 1].BeginUnsub? {
      b := n - 1;
    } else {
      b := PassBegun(cfg, s, run, n - 1);
    }
  }

  /**
   A user the pass removes: b is where the pass began and i the attempt. The attempt was half the
   handshake interval old and unanswered; the user was first met and last heard from, on the ratchet in
   use, before the removal limit, and is not in the ignore list; and only what the user was in is left.
   */
  lemma RemovedWasIdle(cfg: Config, s: State, run: seq<Event>, n: nat, uid: UserID) returns (b: nat, i: nat)
    requires Started(s) && n < |run| && run[n] == UnsubTurn(uid) && Removes(At(cfg, s, run, n), uid).Some?
    ensures b < n && run[b].BeginUnsub? && uid !in run[b].ignoreList
    ensures cfg.autoRemove > 0 && cfg.autoHandshake > 1
    ensures i < n && Attempts(At(cfg, s, run, i), run[i], uid)
    ensures At(cfg, s, run, i).now + cfg.autoHandshake / 2 <= At(cfg, s, run, b).now <= At(cfg, s, run, n).now
    ensures forall j :: i < j < n ==> !Answers(run[j], uid)
    ensures var now := At(cfg, s, run, n);
            && uid in now.dec && now.dec[uid] + cfg.autoRemove <= At(cfg, s, run, b).now
            && uid in now.book && now.book[uid].firstCreated + cfg.autoRemove <= At(cfg, s, run, b).now
    ensures forall k :: 0 <= k < n && run[k] == Receive(uid) && uid in At(cfg, s, run, k).dec &&
                        (forall j :: k < j < n ==> run[j] != NewRatchet(uid)) ==>
              At(cfg, s, run, k).now + cfg.autoRemove <= At(cfg, s, run, b).now
    ensures forall k :: 0 <= k < n && run[k] == CompleteKX(uid) && uid !in At(cfg, s, run, k).book ==>
              At(cfg, s, run, k).now + cfg.autoRemove <= At(cfg, s, run, b).now
    ensures var r := Removes(At(cfg, s, run, n), uid).value;
            && r.uid == uid && (r.fromGCs != [] || r.fromPosts) && r.fromPosts == (uid in run[b].postSubs)
            && forall id :: id in r.fromGCs <==> exists gc :: gc in run[b].adminGCs && gc.id == id && uid in gc.members
  {
    hide At;
    b := PassBegun(cfg, s, run, n);
    i := StoredAttempt(cfg, s, run, n, uid);
    ClockAdvances(cfg, s, run, b, n);
    forall k | 0 <= k < n && run[k] == Receive(uid) && uid in At(cfg, s, run, k).dec &&
               (forall j :: k < j < n ==> run[j] != NewRatchet(uid))
      ensures At(cfg, s, run, k).now + cfg.autoRemove <= At(cfg, s, run, b).now
    {
      DecryptedBy(cfg, s, run, k, n, uid);
    }
    forall k | 0 <= k < n && run[k] == CompleteKX(uid) && uid !in At(cfg, s, run, k).book
      ensures At(cfg, s, run, k).now + cfg.autoRemove <= At(cfg, s, run, b).now
    {
      CreatedAt(cfg, s, run, k, n, uid);
    }
  }

  /** A message that a new key exchange came after does not keep its sender from being removed. */
  lemma RekeyedUserIsRemoved() returns (cfg: Config, s: State, run: seq<Event>)
    ensures Started(s) && |run| > 2 && run[1] == Receive(7) && run[|run| - 1] == UnsubTurn(7)
    ensures 7 in At(cfg, s, run, 1).dec
    ensures Removes(At(cfg, s, run, |run| - 1), 7).Some?
    ensures At(cfg, s, run, 1).now + cfg.autoRemove > At(cfg, s, run, |run| - 1).now
  {
    cfg, s := Config(2, 10), State(1, map[7 := Entry(1, 0)], map[7 := 1], None, None);
    run := [Tick(20), Receive(7), CompleteKX(7), NewRatchet(7), Handshake(7), Tick(1),
            BeginUnsub([], {7}, {}), UnsubTurn(7)];
    RekeyedRun(cfg, s, run);
  }

  lemma AtStart(cfg: Config, s: State, run: seq<Event>)
    ensures At(cfg, s, run, 0) == s
  {}

  lemma RekeyedRun(cfg: Config, s: State, run: seq<Event>)
    requires cfg == Config(2, 10) && Started(s) && s.now == 1
    requires 7 in s.dec && 7 in s.book && s.book[7].firstCreated == 1
    requires run == [Tick(20), Receive(7), CompleteKX(7), NewRatchet(7), Handshake(7), Tick(1),
                     BeginUnsub([], {7}, {}), UnsubTurn(7)]
    ensures At(cfg, s, run, 1).now == 21 && 7 in At(cfg, s, run, 1).dec
    ensures At(cfg, s, run, 7).now == 22 && Removes(At(cfg, s, run, 7), 7).Some?
  {
    hide At;
    AtStart(cfg, s, run);
    AtNext(cfg, s, run, 0);
    AtNext(cfg, s, run, 1);
    AtNext(cfg, s, run, 2);
    AtNext(cfg, s, run, 3);
    AtNext(cfg, s, run, 4);
    AtNext(cfg, s, run, 5);
    AtNext(cfg, s, run, 6);
  }

  // ---------- Who is sent a handshake ----------

  /** A handshake pass under way counts its limit from its start. */
  lemma {:induction false} HandshakesBegun(cfg: Config, s: State, run: seq<Event>, n: nat) returns (b: nat)
    requires Started(s) && n <= |run| && At(cfg, s, run, n).handshakes.Some?
    ensures b < n && run[b] == BeginHandshakes && cfg.autoHandshake > 0
    ensures At(cfg, s, run, n).handshakes == Some(At(cfg, s, run, b).now - cfg.autoHandshake)
  {
    AtNext(cfg, s, run, n - 1);
    if run[n - 1].BeginHandshakes? {
      b := n - 1;
    } else {
      b := HandshakesBegun(cfg, s, run, n - 1);
    }
  }

  /** A turn attempts a handshake exactly with an idle user of some age that no attempt is outstanding with. */
  lemma WantsIs(s: State, uid: UserID, limitDate: int)
    ensures WantsHandshake(s, uid, limitDate) <==>
            && uid in s.dec && uid in s.book && s.dec[uid] <= limitDate
            && (s.book[uid].firstCreated == 0 || s.book[uid].firstCreated <= limitDate)
            && (s.book[uid].lastHandshakeAttempt == 0 || s.book[uid].lastHandshakeAttempt < s.dec[uid])
  {}

  /** What a turn leaves in the address book. */
  lemma TurnLeaves(cfg: Config, s: State, uid: UserID)
    requires s.handshakes.Some?
    ensures var limitDate, next := s.handshakes.value, Step(cfg, s, HandshakeTurn(uid));
            && next == s.(book := next.book) && next.book.Keys == s.book.Keys
            && (forall other :: other in s.book && other != uid ==> next.book[other] == s.book[other])
            && (uid in s.book ==>
                  var was, ab := s.book[uid], next.book[uid];
                  && ab.firstCreated == was.firstCreated
                  && ab.lastHandshakeAttempt ==
                     if uid !in s.dec || s.dec[uid] > limitDate then was.lastHandshakeAttempt
                     else if was.lastHandshakeAttempt != 0 && was.lastHandshakeAttempt >= s.dec[uid] then was.lastHandshakeAttempt
                     else if was.firstCreated == 0 || was.firstCreated <= limitDate then s.now
                     else 0)
  {}

  /**
   A user the client attempts a handshake with on its own: the pass began at b, and no message on the
   ratchet in use, and not the first key exchange, came within the interval before that.
   */
  lemma AttemptedWasIdle(cfg: Config, s: State, run: seq<Event>, n: nat, uid: UserID) returns (b: nat)
    requires Started(s) && n < |run| && AutoAttempts(At(cfg, s, run, n), run[n], uid)
    ensures b < n && run[b] == BeginHandshakes && cfg.autoHandshake > 0
    ensures var now := At(cfg, s, run, n);
            && uid in now.dec && now.dec[uid] + cfg.autoHandshake <= At(cfg, s, run, b).now
            && uid in now.book && (now.book[uid].firstCreated == 0 ||
                                   now.book[uid].firstCreated + cfg.autoHandshake <= At(cfg, s, run, b).now)
    ensures forall k :: 0 <= k < n && run[k] == Receive(uid) && uid in At(cfg, s, run, k).dec &&
                        (forall j :: k < j < n ==> run[j] != NewRatchet(uid)) ==>
              At(cfg, s, run, k).now + cfg.autoHandshake <= At(cfg, s, run, b).now
    ensures forall k :: 0 <= k < n && run[k] == CompleteKX(uid) && uid !in At(cfg, s, run, k).book ==>
              At(cfg, s, run, k).now + cfg.autoHandshake <= At(cfg, s, run, b).now
  {
    hide At, WantsHandshake;
    b := HandshakesBegun(cfg, s, run, n);
    WantsIs(At(cfg, s, run, n), uid, At(cfg, s, run, n).handshakes.value);
    forall k | 0 <= k < n && run[k] == Receive(uid) && uid in At(cfg, s, run, k).dec &&
               (forall j :: k < j < n ==> run[j] != NewRatchet(uid))
      ensures At(cfg, s, run, k).now + cfg.autoHandshake <= At(cfg, s, run, b).now
    {
      DecryptedBy(cfg, s, run, k, n, uid);
    }
    forall k | 0 <= k < n && run[k] == CompleteKX(uid) && uid !in At(cfg, s, run, k).book
      ensures At(cfg, s, run, k).now + cfg.autoHandshake <= At(cfg, s, run, b).now
    {
      CreatedAt(cfg, s, run, k, n, uid);
      ClockAdvances(cfg, s, run, 0, k);
      StartsLate(cfg, s, run);
    }
  }

  lemma StartsLate(cfg: Config, s: State, run: seq<Event>)
    requires Started(s)
    ensures At(cfg, s, run, 0).now > 0
  {}

  /** A turn of the removal pass removes a user exactly on these grounds, from exactly what it is in. */
  lemma RemovesIs(s: State, uid: UserID)
    requires s.unsub.Some?
    ensures var p := s.unsub.value;
            Removes(s, uid).Some? <==>
            && uid !in p.ignoreList && uid in s.dec && uid in s.book && s.dec[uid] <= p.limitDate
            && s.book[uid].firstCreated <= p.limitDate
            && 0 < s.book[uid].lastHandshakeAttempt <= p.limitHandshakeDate
            && (uid in p.postSubs || exists gc :: gc in p.adminGCs && uid in gc.members)
    ensures Removes(s, uid).Some? ==>
              var r := Removes(s, uid).value;
              && r.uid == uid && r.fromPosts == (uid in s.unsub.value.postSubs)
              && forall id :: id in r.fromGCs <==> exists gc :: gc in s.unsub.value.adminGCs && gc.id == id && uid in gc.members
  {
    var ids := GCsWith(s.unsub.value.adminGCs, uid);
    if gc :| gc in s.unsub.value.adminGCs && uid in gc.members { assert gc.id in ids; }
    if ids != [] { assert ids[0] in ids; }
  }

  // ---------- Handshakes are not repeated ----------

  lemma {:induction false} DecryptedInPast(cfg: Config, s: State, run: seq<Event>, n: nat, uid: UserID)
    requires Started(s) && n <= |run| && uid in At(cfg, s, run, n).dec
    ensures 0 < At(cfg, s, run, n).now && At(cfg, s, run, n).dec[uid] <= At(cfg, s, run, n).now
  {
    ClockAdvances(cfg, s, run, 0, n);
    if n > 0 {
      AtNext(cfg, s, run, n - 1);
      if uid in At(cfg, s, run, n - 1).dec { DecryptedInPast(cfg, s, run, n - 1, uid); }
    }
  }

  /** News of a user after an attempt: an answer, or a message decrypted later. */
  predicate News(cfg: Config, s: State, run: seq<Event>, uid: UserID, i: nat, k: nat)
    requires i <= k < |run|
  {
    Answers(run[k], uid) || (run[k] == Receive(uid) && At(cfg, s, run, k).now > At(cfg, s, run, i).now)
  }

  lemma {:induction false} AttemptOutstanding(cfg: Config, s: State, run: seq<Event>, i: nat, n: nat, uid: UserID)
    requires Started(s) && i < n <= |run| && Attempts(At(cfg, s, run, i), run[i], uid)
    requires forall k :: i < k < n ==> !News(cfg, s, run, uid, i, k)
    ensures var t, now := At(cfg, s, run, i).now, At(cfg, s, run, n);
            && uid in now.book && uid in now.dec
            && 0 < t <= now.book[uid].lastHandshakeAttempt && now.dec[uid] <= t
  {
    AtNext(cfg, s, run, n - 1);
    ClockAdvances(cfg, s, run, i, n - 1);
    if n - 1 == i {
      DecryptedInPast(cfg, s, run, i, uid);
    } else {
      AttemptOutstanding(cfg, s, run, i, n - 1, uid);
      assert !News(cfg, s, run, uid, i, n - 1);
    }
  }

  /** Between an attempt and an automatic one later there was news of the user. */
  lemma RepeatNeedsNews(cfg: Config, s: State, run: seq<Event>, i: nat, n: nat, uid: UserID)
    requires Started(s) && i < n < |run|
    requires Attempts(At(cfg, s, run, i), run[i], uid) && AutoAttempts(At(cfg, s, run, n), run[n], uid)
    ensures exists k :: i < k < n && News(cfg, s, run, uid, i, k)
  {
    hide At;
    if forall k :: i < k < n ==> !News(cfg, s, run, uid, i, k) {
      AttemptOutstanding(cfg, s, run, i, n, uid);
    }
  }

  // ---------- The client ----------

  datatype HandshakeMsg = SYN | SYNACK | ACK

  /** The turns of a pass that takes up the users in this order. */
  function Turns(users: seq<UserID>): (run: seq<Event>)
    ensures |run| == |users| + 1 && run[0] == BeginHandshakes
    ensures forall i :: 0 <= i < |users| ==> run[i + 1] == HandshakeTurn(users[i])
  {
    [BeginHandshakes] + seq(|users|, i requires 0 <= i < |users| => HandshakeTurn(users[i]))
  }

  /** The users a run tries to reach on its own, in order. */
  function AutoAttempted(cfg: Config, s: State, run: seq<Event>): seq<UserID> {
    if run == [] then []
    else
      var first, e := run[..|run| - 1], run[|run| - 1];
      AutoAttempted(cfg, s, first) +
      if e.HandshakeTurn? && AutoAttempts(After(cfg, s, first), e, e.uid) then [e.uid] else []
  }

  function RemovedFrom(s: State, users: seq<UserID>): seq<Removal> {
    if users == [] then []
    else
      var r := Removes(s, users[|users| - 1]);
      RemovedFrom(s, users[..|users| - 1]) + if r.Some? then [r.value] else []
  }

  lemma RunNext(cfg: Config, s: State, run: seq<Event>, i: nat)
    requires i < |run|
    ensures After(cfg, s, run[..i + 1]) == Step(cfg, After(cfg, s, run[..i]), run[i])
    ensures AutoAttempted(cfg, s, run[..i + 1]) == AutoAttempted(cfg, s, run[..i]) +
            if run[i].HandshakeTurn? && AutoAttempts(After(cfg, s, run[..i]), run[i], run[i].uid) then [run[i].uid] else []
  {
    assert run[..i + 1][..i] == run[..i];
  }

  class Client {
    const cfg: Config
    var now: nat
    var book: map<UserID, Entry>
    var dec: map<UserID, nat>
    var sendq: seq<(UserID, HandshakeMsg)>

    constructor (cfg: Config, now: nat, book: map<UserID, Entry>, dec: map<UserID, nat>)
      ensures this.cfg == cfg && this.now == now && this.book == book && this.dec == dec && sendq == []
    {
      this.cfg, this.now, this.book, this.dec, sendq := cfg, now, book, dec, [];
    }

    function Now(handshakes: Option<int>, unsub: Option<Pass>): State
      reads this
    {
      State(now, book, dec, handshakes, unsub)
    }

    method ClearLastHandshakeAttemptTime(uid: UserID) returns (ok: bool)
      modifies this`book
      ensures ok == (uid in book) && book == SetAttempt(old(book), uid, 0)
    {
      if uid !in book { return false; }
      book := book[uid := book[uid].(lastHandshakeAttempt := 0)];
      return true;
    }

    method HandleRMHandshake(uid: UserID, msg: HandshakeMsg)
      modifies this`book, this`sendq
      ensures book == if msg.SYN? then old(book) else SetAttempt(old(book), uid, 0)
      ensures sendq == old(sendq) + if msg.SYN? then [(uid, SYNACK)]
                                    else if msg.SYNACK? && uid in book then [(uid, ACK)] else []
    {
      match msg
      case SYN =>
        sendq := sendq + [(uid, SYNACK)];
      case SYNACK =>
        var ok := ClearLastHandshakeAttemptTime(uid);
        if ok { sendq := sendq + [(uid, ACK)]; }
      case ACK =>
        var _ := ClearLastHandshakeAttemptTime(uid);
    }

    method Handshake(uid: UserID)
      modifies this`book, this`sendq
      ensures book == if uid in dec then SetAttempt(old(book), uid, now) else old(book)
      ensures sendq == old(sendq) + if uid in dec && uid in book then [(uid, SYN)] else []
    {
      if uid !in dec || uid !in book { return; }
      book := book[uid := book[uid].(lastHandshakeAttempt := now)];
      sendq := sendq + [(uid, SYN)];
    }

    /** The entry written when a key exchange completes. */
    method CompleteKX(uid: UserID)
      modifies this`book
      ensures Now(None, None) == Step(cfg, old(Now(None, None)), Event.CompleteKX(uid))
    {
      var firstCreated := now;
      if uid in book { firstCreated := book[uid].firstCreated; }
      book := book[uid := Entry(firstCreated, 0)];
    }

    method HandshakeTurn(uid: UserID, limitDate: int)
      modifies this`book, this`sendq
      ensures book == AfterHandshakeTurn(old(Now(None, None)), uid, limitDate)
      ensures sendq == old(sendq) + if WantsHandshake(old(Now(None, None)), uid, limitDate) then [(uid, SYN)] else []
      ensures uid in dec && uid in book && dec[uid] <= limitDate && old(book)[uid].firstCreated <= limitDate &&
              old(book)[uid].lastHandshakeAttempt == 0 ==>
                book == old(book)[uid := Entry(old(book)[uid].firstCreated, now)] && sendq == old(sendq) + [(uid, SYN)]
      ensures uid in dec && dec[uid] > limitDate ==> book == old(book) && sendq == old(sendq)
    {
      if uid !in dec { return; }
      var lastDecTime := dec[uid];
      if lastDecTime > limitDate { return; }
      if uid !in book { return; }
      var ab := book[uid];
      if ab.lastHandshakeAttempt < lastDecTime {
        var ok := ClearLastHandshakeAttemptTime(uid);
        if !ok { return; }
        ab := ab.(lastHandshakeAttempt := 0);
      }
      if ab.lastHandshakeAttempt != 0 { return; }
      if ab.firstCreated != 0 && ab.firstCreated > limitDate { return; }
      Handshake(uid);
      assert book == SetAttempt(old(book), uid, now);
    }

    method HandshakeIdleUsers(users: seq<UserID>)
      modifies this`book, this`sendq
      ensures var s, run := old(Now(None, None)), Turns(users);
              book == After(cfg, s, run).book && sendq == old(sendq) + Syns(AutoAttempted(cfg, s, run))
    {
      hide After, AutoAttempted, Step;
      ghost var s, run := Now(None, None), Turns(users);
      var limitInterval := cfg.autoHandshake;
      if limitInterval == 0 {
        DisabledTurns(cfg, s, users);
        return;
      }
      var limitDate := now - limitInterval;
      FirstTurn(cfg, s, users);
      for i := 0 to |users|
        invariant Now(Some(limitDate), None) == After(cfg, s, run[..i + 1])
        invariant sendq == old(sendq) + Syns(AutoAttempted(cfg, s, run[..i + 1]))
      {
        RunNext(cfg, s, run, i + 1);
        TurnStep(cfg, Now(Some(limitDate), None), users[i]);
        HandshakeTurn(users[i], limitDate);
      }
      assert run[..|users| + 1] == run;
    }

    /** The GCs, of those the local client admins, and the posts each idle user is removed from. */
    method UnsubIdleUsers(users: seq<UserID>, adminGCs: seq<AdminGC>, postSubs: set<UserID>, ignoreList: set<UserID>)
        returns (removed: seq<Removal>)
      ensures var s := Step(cfg, Now(None, None), BeginUnsub(adminGCs, postSubs, ignoreList));
              removed == RemovedFrom(s, users)
    {
      removed := [];
      ghost var s := Step(cfg, Now(None, None), BeginUnsub(adminGCs, postSubs, ignoreList));
      if cfg.autoRemove == 0 || cfg.autoHandshake / 2 == 0 {
        NothingRemoved(s, users);
        return;
      }
      var limitDate, limitHandshakeDate := now - cfg.autoRemove, now - cfg.autoHandshake / 2;
      for i := 0 to |users|
        invariant removed == RemovedFrom(s, users[..i])
      {
        assert users[..i + 1][..i] == users[..i];
        var uid := users[i];
        if uid in ignoreList || uid !in dec || dec[uid] > limitDate || uid !in book { continue; }
        var ab := book[uid];
        if ab.firstCreated > limitDate { continue; }
        if ab.lastHandshakeAttempt == 0 || ab.lastHandshakeAttempt > limitHandshakeDate { continue; }
        var gcsToUnsub := GCsToUnsub(adminGCs, uid);
        var isSubbedToPosts := uid in postSubs;
        if gcsToUnsub == [] && !isSubbedToPosts { continue; }
        removed := removed + [Removal(uid, gcsToUnsub, isSubbedToPosts)];
      }
      assert users[..|users|] == users;
    }

    method GCsToUnsub(adminGCs: seq<AdminGC>, uid: UserID) returns (gcs: seq<GCID>)
      ensures gcs == GCsWith(adminGCs, uid)
    {
      gcs := [];
      for i := 0 to |adminGCs|
        invariant gcs == GCsWith(adminGCs[..i], uid)
      {
        assert adminGCs[..i + 1][..i] == adminGCs[..i];
        if uid in adminGCs[i].members { gcs := gcs + [adminGCs[i].id]; }
      }
      assert adminGCs[..|adminGCs|] == adminGCs;
    }
  }

  function Syns(uids: seq<UserID>): seq<(UserID, HandshakeMsg)> {
    seq(|uids|, i requires 0 <= i < |uids| => (uids[i], SYN))
  }

  lemma FirstTurn(cfg: Config, s: State, users: seq<UserID>)
    ensures After(cfg, s, Turns(users)[..1]) ==
            s.(handshakes := if cfg.autoHandshake == 0 then None else Some(s.now - cfg.autoHandshake))
    ensures AutoAttempted(cfg, s, Turns(users)[..1]) == []
  {}

  lemma TurnStep(cfg: Config, s: State, uid: UserID)
    requires s.handshakes.Some?
    ensures Step(cfg, s, HandshakeTurn(uid)) == s.(book := AfterHandshakeTurn(s, uid, s.handshakes.value))
  {}

  lemma {:induction false} DisabledTurns(cfg: Config, s: State, users: seq<UserID>)
    requires cfg.autoHandshake == 0 && s.handshakes.None?
    ensures After(cfg, s, Turns(users)).book == s.book && AutoAttempted(cfg, s, Turns(users)) == []
    ensures After(cfg, s, Turns(users)).handshakes.None?
  {
    var run := Turns(users);
    if users == [] {
      assert run[..1] == run;
      FirstTurn(cfg, s, users);
    } else {
      DisabledTurns(cfg, s, users[..|users| - 1]);
      assert run[..|users|] == Turns(users[..|users| - 1]);
    }
  }

  lemma {:induction false} NothingRemoved(s: State, users: seq<UserID>)
    requires s.unsub.None?
    ensures RemovedFrom(s, users) == []
  {
    if users != [] { NothingRemoved(s, users[..|users| - 1]); }
  }

  /** Idle for the limit: heard from, and first met, no later, and without an outstanding attempt. */
  predicate IdleSince(s: State, uid: UserID, limitDate: int) {
    && uid in s.dec && uid in s.book && s.dec[uid] <= limitDate
    && (s.book[uid].firstCreated == 0 || s.book[uid].firstCreated <= limitDate)
    && (s.book[uid].lastHandshakeAttempt == 0 || s.book[uid].lastHandshakeAttempt < s.dec[uid])
  }

  /** The client after a pass took up these users: the idle ones are marked, other entries are as they were. */
  predicate Passed(s: State, limitDate: int, users: seq<UserID>, now: State) {
    && now.now == s.now && now.dec == s.dec && now.handshakes == Some(limitDate) && now.book.Keys == s.book.Keys
    && (forall uid :: uid in s.book && uid !in users ==> now.book[uid] == s.book[uid])
    && (forall uid :: uid in s.book && uid in users && IdleSince(s, uid, limitDate) ==>
          now.book[uid].lastHandshakeAttempt == s.now)
  }

  lemma PassedNext(cfg: Config, s: State, limitDate: int, users: seq<UserID>, uid: UserID, before: State)
    requires Passed(s, limitDate, users, before) && uid !in users
    ensures Passed(s, limitDate, users + [uid], Step(cfg, before, HandshakeTurn(uid)))
    ensures AutoAttempts(before, HandshakeTurn(uid), uid) <==> IdleSince(s, uid, limitDate)
  {
    hide WantsHandshake, Step;
    WantsIs(before, uid, limitDate);
    TurnLeaves(cfg, before, uid);
  }

  /** Exactly the idle ones of the users are sent to, each once. */
  ghost predicate Reached(s: State, limitDate: int, users: seq<UserID>, sent: seq<UserID>) {
    && (forall uid :: uid in sent <==> uid in users && IdleSince(s, uid, limitDate))
    && forall i, j :: 0 <= i < j < |sent| ==> sent[i] != sent[j]
  }

  lemma ReachedNext(s: State, limitDate: int, users: seq<UserID>, uid: UserID, sent: seq<UserID>)
    requires Reached(s, limitDate, users, sent) && uid !in users
    ensures Reached(s, limitDate, users + [uid], sent + if IdleSince(s, uid, limitDate) then [uid] else [])
  {}

  /**
   A pass over users without repetition sends a handshake to exactly the idle ones, and marks each; the
   entries of users it does not take up stay as they were.
   */
  lemma {:induction false} PassReaches(cfg: Config, s: State, users: seq<UserID>)
    requires cfg.autoHandshake > 0 && forall i, j :: 0 <= i < j < |users| ==> users[i] != users[j]
    ensures Passed(s, s.now - cfg.autoHandshake, users, After(cfg, s, Turns(users)))
    ensures Reached(s, s.now - cfg.autoHandshake, users, AutoAttempted(cfg, s, Turns(users)))
  {
    hide After, AutoAttempted, AutoAttempts, Step, Passed, Reached, IdleSince, Turns;
    if users == [] {
      PassStart(cfg, s);
    } else {
      var front, uid := users[..|users| - 1], users[|users| - 1];
      assert users == front + [uid] && uid !in front;
      PassReaches(cfg, s, front);
      TurnsNext(cfg, s, users);
      PassedNext(cfg, s, s.now - cfg.autoHandshake, front, uid, After(cfg, s, Turns(front)));
      ReachedNext(s, s.now - cfg.autoHandshake, front, uid, AutoAttempted(cfg, s, Turns(front)));
    }
  }

  lemma PassStart(cfg: Config, s: State)
    requires cfg.autoHandshake > 0
    ensures Passed(s, s.now - cfg.autoHandshake, [], After(cfg, s, Turns([])))
    ensures Reached(s, s.now - cfg.autoHandshake, [], AutoAttempted(cfg, s, Turns([])))
  {
    hide After, AutoAttempted;
    assert Turns([])[..1] == Turns([]);
    FirstTurn(cfg, s, []);
  }

  lemma TurnsNext(cfg: Config, s: State, users: seq<UserID>)
    requires users != []
    ensures var front, uid := users[..|users| - 1], users[|users| - 1];
            var before := After(cfg, s, Turns(front));
            && After(cfg, s, Turns(users)) == Step(cfg, before, HandshakeTurn(uid))
            && AutoAttempted(cfg, s, Turns(users)) ==
               AutoAttempted(cfg, s, Turns(front)) + if AutoAttempts(before, HandshakeTurn(uid), uid) then [uid] else []
  {
    hide After, AutoAttempted, AutoAttempts, Step;
    var run, n := Turns(users), |users|;
    RunNext(cfg, s, run, n);
    assert run[..n] == Turns(users[..n - 1]) && run[..n + 1] == run;
  }
}
