/**
 Content filters and the cache of their compiled expressions, filled the first time a filter applies.
 Compiling and matching are parameters.
 */
module ContentFilters {

  datatype Option<+T> = None | Some(value: T)

  const MAX_UINT64: nat := 0xFFFF_FFFF_FFFF_FFFF

  type ID = id: nat | id <= MAX_UINT64

  datatype Filter = Filter(id: ID, uid: Option<nat>, gc: Option<nat>, skipPMs: bool, skipGCMs: bool,
                           skipPosts: bool, skipPostComments: bool, expr: string)

  /** A received text: a post comment has the author of its post. */
  datatype Message = Message(uid: nat, gc: Option<nat>, pid: Option<nat>, postFrom: Option<nat>, data: string)

  /** The rule that filters a message, if one does. */
  type Decision = Option<ID>

  type Cache<Re> = map<ID, Option<Re>>

  datatype Regexps<!Re> = Regexps(compile: string -> Option<Re>, matches: (Re, string) -> bool)

  predicate Applies(f: Filter, m: Message) {
    var isGCM, isPostComment := m.gc.Some?, m.postFrom.Some?;
    var isPost := m.pid.Some? && !isPostComment;
    && !(!isPost && !isPostComment && !isGCM && f.skipPMs)
    && !(isGCM && f.skipGCMs)
    && !(isPost && f.skipPosts)
    && !(isPostComment && f.skipPostComments)
    && (f.uid.None? || f.uid.value == m.uid)
    && (f.gc.None? || m.gc.None? || f.gc == m.gc)
  }

  predicate Hits<Re>(lib: Regexps<Re>, re: Option<Re>, data: string) {
    re.Some? && lib.matches(re.value, data)
  }

  // ---------- The scans ----------

  /** The first filter that applies and matches, each compiled anew. */
  function Scan<Re>(lib: Regexps<Re>, filters: seq<Filter>, m: Message): Decision {
    if filters == [] then None
    else if Applies(filters[0], m) && Hits(lib, lib.compile(filters[0].expr), m.data) then Some(filters[0].id)
    else Scan(lib, filters[1..], m)
  }

  function Lookup<Re>(lib: Regexps<Re>, cache: Cache<Re>, f: Filter): Option<Re> {
    if f.id in cache then cache[f.id] else lib.compile(f.expr)
  }

  /** The decision and the cache after a scan that takes compiled expressions from the cache. */
  function CachedScan<Re>(lib: Regexps<Re>, filters: seq<Filter>, cache: Cache<Re>, m: Message): (Decision, Cache<Re>) {
    if filters == [] then (None, cache)
    else if !Applies(filters[0], m) then CachedScan(lib, filters[1..], cache, m)
    else
      var re := Lookup(lib, cache, filters[0]);
      var next := cache[filters[0].id := re];
      if Hits(lib, re, m.data) then (Some(filters[0].id), next) else CachedScan(lib, filters[1..], next, m)
  }

  // ---------- The client's filters ----------

  /** The stored filters by id, the loaded ones in order, and the cache. */
  datatype State<!Re> = State(db: map<ID, Filter>, filters: seq<Filter>, cache: Cache<Re>)

  datatype Op = Load | Store(cf: Filter) | Remove(id: ID) | RemoveAll | Check(m: Message)

  lemma {:induction false} HasMax(ids: set<ID>) returns (top: ID)
    requires ids != {}
    ensures top in ids && forall k :: k in ids ==> k <= top
  {
    var one :| one in ids;
    top := one;
    var rest := ids - {one};
    if rest != {} {
      var next := HasMax(rest);
      top := if next > one then next else one;
    }
    assert forall k :: k in ids ==> k == one || k in rest;
  }

  function MaxID(db: map<ID, Filter>): (r: ID)
    ensures (r in db || (db == map[] && r == 0)) && forall id :: id in db ==> id <= r
  {
    if db == map[] then 0
    else
      assert exists id :: id in db && forall k :: k in db.Keys ==> k <= id by { var _ := HasMax(db.Keys); }
      var id: ID :| id in db && forall k :: k in db.Keys ==> k <= id;
      id
  }

  /** The next id, wrapping at 64 bits; the first is one. */
  function NextID(db: map<ID, Filter>): ID {
    if MaxID(db) == MAX_UINT64 then 0 else MaxID(db) + 1
  }

  /** The stored filters by increasing id. */
  function Listed(db: map<ID, Filter>): (r: seq<Filter>)
    ensures forall f :: f in r ==> f in db.Values
    ensures forall id :: id in db ==> db[id] in r
  {
    if db == map[] then []
    else
      var last := MaxID(db);
      var before := db - {last};
      var r := Listed(before);
      assert forall id :: id in before ==> before[id] == db[id];
      assert forall f :: f in before.Values ==> f in db.Values;
      r + [db[last]]
  }

  function IndexOf(filters: seq<Filter>, id: ID): (i: nat)
    ensures i <= |filters| && (i < |filters| ==> filters[i].id == id)
    ensures forall k :: 0 <= k < i ==> filters[k].id != id
  {
    if filters == [] || filters[0].id == id then 0 else 1 + IndexOf(filters[1..], id)
  }

  /** The filter as stored: one without an id gets the next. */
  function WithID(db: map<ID, Filter>, cf: Filter): Filter {
    if cf.id == 0 then cf.(id := NextID(db)) else cf
  }

  function Stored<Re>(s: State<Re>, cf: Filter): State<Re> {
    var i := IndexOf(s.filters, cf.id);
    var db := s.db[cf.id := cf];
    if i < |s.filters| then State(db, s.filters[i := cf], s.cache - {cf.id})
    else State(db, s.filters + [cf], s.cache)
  }

  function Removed<Re>(s: State<Re>, id: ID): State<Re> {
    State(s.db - {id}, Without(s.filters, id), s.cache)
  }

  function Without(filters: seq<Filter>, id: ID): seq<Filter> {
    var i := IndexOf(filters, id);
    if i < |filters| then filters[..i] + filters[i + 1..] else filters
  }

  function IDs(filters: seq<Filter>): set<ID> { set f | f in filters :: f.id }

  function Step<Re>(lib: Regexps<Re>, s: State<Re>, op: Op): State<Re> {
    match op
    case Load => State(s.db, Listed(s.db), map[])
    case Store(cf) => if lib.compile(cf.expr).None? then s else Stored(s, WithID(s.db, cf))
    case Remove(id) => Removed(s, id)
    case RemoveAll => State(s.db - IDs(s.filters), [], s.cache)
    case Check(m) => s.(cache := CachedScan(lib, s.filters, s.cache, m).1)
  }

  function After<Re>(lib: Regexps<Re>, s: State<Re>, ops: seq<Op>): State<Re> {
    if ops == [] then s else Step(lib, After(lib, s, ops[..|ops| - 1]), ops[|ops| - 1])
  }

  // ---------- What a cache may hold ----------

  /** What is cached for a filter is what its expression compiles to. */
  ghost predicate Coherent<Re>(lib: Regexps<Re>, filters: seq<Filter>, cache: Cache<Re>) {
    forall f :: f in filters && f.id in cache ==> cache[f.id] == lib.compile(f.expr)
  }

  predicate DistinctIDs(filters: seq<Filter>) {
    forall i, j :: 0 <= i < j < |filters| ==> filters[i].id != filters[j].id
  }

  /** With a coherent cache the decision is that of the plain scan, and the cache stays coherent. */
  lemma {:induction false} CacheDecides<Re>(lib: Regexps<Re>, all: seq<Filter>, i: nat, cache: Cache<Re>, m: Message)
    requires i <= |all| && DistinctIDs(all) && Coherent(lib, all, cache)
    ensures var r := CachedScan(lib, all[i..], cache, m);
            r.0 == Scan(lib, all[i..], m) && Coherent(lib, all, r.1)
    decreases |all| - i
  {
    if i < |all| {
      var f := all[i];
      assert all[i..][1..] == all[i + 1..];
      if Applies(f, m) {
        var re := Lookup(lib, cache, f);
        CacheDecides(lib, all, i + 1, cache[f.id := re], m);
      } else {
        CacheDecides(lib, all, i + 1, cache, m);
      }
    }
  }

  /** Storage and memory hold the same filters, each under its own id. */
  ghost predicate Consistent<Re>(s: State<Re>) {
    && DistinctIDs(s.filters)
    && (forall id :: id in s.db ==> s.db[id].id == id && s.db[id] in s.filters)
    && (forall f :: f in s.filters ==> f.id in s.db && s.db[f.id] == f)
  }

  lemma {:induction false} ListedDistinct(db: map<ID, Filter>)
    requires forall id :: id in db ==> db[id].id == id
    ensures DistinctIDs(Listed(db)) && forall f :: f in Listed(db) ==> f.id in db && db[f.id] == f
  {
    if db != map[] {
      var last := MaxID(db);
      ListedDistinct(db - {last});
    }
  }

  lemma StepConsistent<Re>(lib: Regexps<Re>, s: State<Re>, op: Op)
    requires Consistent(s)
    ensures Consistent(Step(lib, s, op))
  {
    hide Stored, Removed, WithID, MaxID, CachedScan;
    match op
    case Load => ListedDistinct(s.db);
    case Store(cf) => if lib.compile(cf.expr).Some? { StoredConsistent(s, WithID(s.db, cf)); }
    case Remove(id) => RemovedConsistent(s, id);
    case RemoveAll =>
    case Check(m) =>
  }

  lemma RemovedConsistent<Re>(s: State<Re>, id: ID)
    requires Consistent(s)
    ensures Consistent(Removed(s, id))
  {
    hide Without, IndexOf;
    var next := Removed(s, id);
    WithoutDistinct(s.filters, id);
    forall k | k in next.db ensures next.db[k].id == k && next.db[k] in next.filters {
      WithoutKeeps(s.filters, id, s.db[k]);
    }
    forall f | f in next.filters ensures f.id in next.db && next.db[f.id] == f {
      WithoutKeeps(s.filters, id, f);
    }
  }

  lemma WithoutDistinct(filters: seq<Filter>, id: ID)
    requires DistinctIDs(filters)
    ensures DistinctIDs(Without(filters, id))
  {}

  lemma WithoutKeeps(filters: seq<Filter>, id: ID, f: Filter)
    requires DistinctIDs(filters)
    ensures f in Without(filters, id) <==> f in filters && f.id != id
  {}

  lemma StoredConsistent<Re>(s: State<Re>, cf: Filter)
    requires Consistent(s)
    ensures Consistent(Stored(s, cf))
  {
    var i, next := IndexOf(s.filters, cf.id), Stored(s, cf);
    assert next.filters[i] == cf && DistinctIDs(next.filters);
    forall id | id in next.db ensures next.db[id].id == id && next.db[id] in next.filters {
      if id != cf.id {
        StaysListed(s.filters, s.db[id], cf);
      }
    }
  }

  lemma StaysListed(filters: seq<Filter>, f: Filter, cf: Filter)
    requires f in filters && f.id != cf.id
    ensures var i := IndexOf(filters, cf.id); f in if i < |filters| then filters[i := cf] else filters + [cf]
  {}

  /** A filter stored as new whose id the cache knows from another expression. */
  ghost predicate Stale<Re>(lib: Regexps<Re>, s: State<Re>, op: Op) {
    && op.Store? && lib.compile(op.cf.expr).Some?
    && var f := WithID(s.db, op.cf);
       f.id !in IDs(s.filters) && f.id in s.cache && s.cache[f.id] != lib.compile(f.expr)
  }

  /** Only a stale id breaks the cache, and it always does. */
  lemma StepCoherent<Re>(lib: Regexps<Re>, s: State<Re>, op: Op)
    requires Consistent(s) && Coherent(lib, s.filters, s.cache)
    ensures var next := Step(lib, s, op); Coherent(lib, next.filters, next.cache) <==> !Stale(lib, s, op)
  {
    match op
    case Load =>
    case Store(cf) =>
    case Remove(id) =>
    case RemoveAll =>
    case Check(m) =>
      assert s.filters[0..] == s.filters;
      CacheDecides(lib, s.filters, 0, s.cache, m);
  }

  // ---------- What a decision means ----------

  /** A filter is about a message of its user and GC, if it names them, and of no kind that it skips. */
  predicate Concerns(f: Filter, m: Message) {
    && (f.uid.Some? ==> f.uid.value == m.uid)
    && (f.gc.Some? && m.gc.Some? ==> f.gc.value == m.gc.value)
    && (m.gc.Some? ==> !f.skipGCMs)
    && (m.postFrom.Some? ==> !f.skipPostComments)
    && (m.postFrom.None? && m.pid.Some? ==> !f.skipPosts)
    && (m.gc.None? && m.postFrom.None? && m.pid.None? ==> !f.skipPMs)
  }

  /** The filter is about the message, its expression compiles, and it matches the text. */
  predicate Catches<Re>(lib: Regexps<Re>, f: Filter, m: Message) {
    Concerns(f, m) && lib.compile(f.expr).Some? && lib.matches(lib.compile(f.expr).value, m.data)
  }

  /** The decision is the id of the first filter that catches the message, and none only if no filter does. */
  ghost predicate Decides<Re>(lib: Regexps<Re>, filters: seq<Filter>, m: Message, rule: Decision) {
    if rule.None? then forall f :: f in filters ==> !Catches(lib, f, m)
    else exists i :: 0 <= i < |filters| && filters[i].id == rule.value && Catches(lib, filters[i], m) &&
                     forall k :: 0 <= k < i ==> !Catches(lib, filters[k], m)
  }

  lemma {:induction false} ScanDecides<Re>(lib: Regexps<Re>, filters: seq<Filter>, m: Message)
    ensures Decides(lib, filters, m, Scan(lib, filters, m))
  {
    if filters != [] {
      ScanDecides(lib, filters[1..], m);
      var rule := Scan(lib, filters[1..], m);
      if !Catches(lib, filters[0], m) && rule.Some? {
        var i :| 0 <= i < |filters[1..]| && filters[1..][i].id == rule.value && Catches(lib, filters[1..][i], m) &&
                 forall k :: 0 <= k < i ==> !Catches(lib, filters[1..][k], m);
        assert filters[i + 1] == filters[1..][i];
        assert forall k :: 0 < k < i + 1 ==> filters[k] == filters[1..][k - 1];
      }
    }
  }

  // ---------- What each operation leaves ----------

  /** Filters by increasing id. */
  predicate Ascending(filters: seq<Filter>) {
    forall i, j :: 0 <= i < j < |filters| ==> filters[i].id < filters[j].id
  }

  lemma AscendingAppend(filters: seq<Filter>, f: Filter)
    requires Ascending(filters) && forall g :: g in filters ==> g.id < f.id
    ensures Ascending(filters + [f])
  {
    assert forall i :: 0 <= i < |filters| ==> filters[i] in filters;
  }

  lemma {:induction false} ListedAscends(db: map<ID, Filter>)
    requires forall id :: id in db ==> db[id].id == id
    ensures Ascending(Listed(db))
  {
    hide Ascending, DistinctIDs;
    if db == map[] {
      NoneAscends();
    } else {
      var last := MaxID(db);
      var before := db - {last};
      ListedAscends(before);
      ListedDistinct(before);
      AscendingAppend(Listed(before), db[last]);
    }
  }

  lemma NoneAscends()
    ensures Ascending([])
  {}

  /** Loading takes every stored filter, by increasing id, and forgets the cache. */
  lemma LoadTakesAll<Re>(lib: Regexps<Re>, s: State<Re>)
    requires forall id :: id in s.db ==> s.db[id].id == id
    ensures var next := Step(lib, s, Load);
            && next.db == s.db && next.cache == map[] && Ascending(next.filters)
            && forall f :: f in next.filters <==> f.id in s.db && s.db[f.id] == f
  {
    ListedAscends(s.db);
    ListedDistinct(s.db);
  }

  /** A filter without an id gets one more than the largest in use; after the largest there is comes zero. */
  lemma NextIDIs(db: map<ID, Filter>)
    ensures var id := NextID(db);
            if MAX_UINT64 in db then id == 0
            else id > 0 && (forall k :: k in db ==> k < id) && (id == 1 || (id - 1) in db)
  {}

  /**
   A filter whose expression compiles is stored under its id, in the place of the filter with that id or
   as the last one; the others stay in their places.
   */
  lemma StoreSets<Re>(lib: Regexps<Re>, s: State<Re>, cf: Filter)
    requires Consistent(s)
    ensures var next := Step(lib, s, Store(cf));
            if lib.compile(cf.expr).None? then next == s
            else
              var f := cf.(id := if cf.id == 0 then NextID(s.db) else cf.id);
              && next.db == s.db[f.id := f]
              && (f.id !in s.db ==> next.filters == s.filters + [f] && next.cache == s.cache)
              && (f.id in s.db ==>
                    && |next.filters| == |s.filters| && f.id !in next.cache
                    && forall i :: 0 <= i < |s.filters| ==>
                         next.filters[i] == if s.filters[i].id == f.id then f else s.filters[i])
  {
    var f := cf.(id := if cf.id == 0 then NextID(s.db) else cf.id);
    hide NextID, MaxID;
    if f.id in s.db {
      var k :| 0 <= k < |s.filters| && s.filters[k] == s.db[f.id];
      assert IndexOf(s.filters, f.id) == k;
    }
  }

  /** Removing takes the filter with the id away, leaves the others in order, and does not touch the cache. */
  lemma RemoveDrops<Re>(lib: Regexps<Re>, s: State<Re>, id: ID)
    requires Consistent(s)
    ensures var next := Step(lib, s, Remove(id));
            && next.db == (map k | k in s.db && k != id :: s.db[k]) && next.cache == s.cache
            && id !in IDs(next.filters)
            && (id !in s.db ==> next.filters == s.filters)
            && (id in s.db ==> exists i :: 0 <= i < |s.filters| && s.filters[i].id == id &&
                                           next.filters == s.filters[..i] + s.filters[i + 1..])
  {
    hide Without, IndexOf, DistinctIDs;
    WithoutMeans(s.filters, id);
    assert id in s.db <==> id in IDs(s.filters);
  }

  lemma WithoutMeans(filters: seq<Filter>, id: ID)
    requires DistinctIDs(filters)
    ensures id !in IDs(Without(filters, id))
    ensures id !in IDs(filters) ==> Without(filters, id) == filters
    ensures id in IDs(filters) ==> exists i :: 0 <= i < |filters| && filters[i].id == id &&
                                               Without(filters, id) == filters[..i] + filters[i + 1..]
  {
    var i := IndexOf(filters, id);
    if i < |filters| { assert filters[i] in filters; }
    forall f | f in Without(filters, id) ensures f.id != id { WithoutKeeps(filters, id, f); }
  }

  lemma RemoveAllDrops<Re>(lib: Regexps<Re>, s: State<Re>)
    requires Consistent(s)
    ensures var next := Step(lib, s, RemoveAll); next.filters == [] && next.db == map[] && next.cache == s.cache
  {
    assert forall id :: id in s.db ==> id in IDs(s.filters);
  }

  // ---------- Whole runs ----------

  ghost predicate NoStaleStore<Re>(lib: Regexps<Re>, s: State<Re>, ops: seq<Op>) {
    forall i :: 0 <= i < |ops| ==> !Stale(lib, After(lib, s, ops[..i]), ops[i])
  }

  /** A client that loaded its filters. */
  ghost predicate JustLoaded<Re>(s: State<Re>) {
    s.cache == map[] && s.filters == Listed(s.db) && forall id :: id in s.db ==> s.db[id].id == id
  }

  lemma {:induction false} CoherentAlways<Re>(lib: Regexps<Re>, s: State<Re>, ops: seq<Op>)
    requires JustLoaded(s)
    ensures Consistent(After(lib, s, ops))
    ensures NoStaleStore(lib, s, ops) ==> Coherent(lib, After(lib, s, ops).filters, After(lib, s, ops).cache)
  {
    hide Coherent, Stale;
    if ops == [] {
      ListedDistinct(s.db);
      NothingCached(lib, s.filters);
    } else {
      var n := |ops| - 1;
      CoherentAlways(lib, s, ops[..n]);
      StepConsistent(lib, After(lib, s, ops[..n]), ops[n]);
      if NoStaleStore(lib, s, ops) {
        assert NoStaleStore(lib, s, ops[..n]) by {
          forall i | 0 <= i < n ensures !Stale(lib, After(lib, s, ops[..n][..i]), ops[..n][i]) {
            assert ops[..n][..i] == ops[..i];
          }
        }
        StepCoherent(lib, After(lib, s, ops[..n]), ops[n]);
      }
    }
  }

  lemma NothingCached<Re>(lib: Regexps<Re>, filters: seq<Filter>)
    ensures Coherent(lib, filters, map[])
  {}

  /** Unless an id was stored stale, every message is decided as if no cache existed. */
  lemma DecisionAlways<Re>(lib: Regexps<Re>, s: State<Re>, ops: seq<Op>, m: Message)
    requires JustLoaded(s) && NoStaleStore(lib, s, ops)
    ensures var now := After(lib, s, ops); CachedScan(lib, now.filters, now.cache, m).0 == Scan(lib, now.filters, m)
  {
    CoherentAlways(lib, s, ops);
    var now := After(lib, s, ops);
    assert now.filters[0..] == now.filters;
    CacheDecides(lib, now.filters, 0, now.cache, m);
  }

  /** Unless an id was stored stale, every decision is that of the first loaded filter that catches the message. */
  lemma DecisionMeans<Re>(lib: Regexps<Re>, s: State<Re>, ops: seq<Op>, m: Message)
    requires JustLoaded(s) && NoStaleStore(lib, s, ops)
    ensures var now := After(lib, s, ops); Decides(lib, now.filters, m, CachedScan(lib, now.filters, now.cache, m).0)
  {
    DecisionAlways(lib, s, ops, m);
    ScanDecides(lib, After(lib, s, ops).filters, m);
  }

  function Everything(expr: string): Filter {
    Filter(0, None, None, false, false, false, false, expr)
  }

  /**
   The id of the last filter is given again after its removal, and its expression goes on deciding: the
   new filter filters a message its own expression does not match.
   */
  lemma RemovedExpressionDecides<Re>(lib: Regexps<Re>, a: string, b: string, text: string) returns (s: State<Re>, ops: seq<Op>)
    requires lib.compile(a).Some? && lib.compile(b).Some?
    requires lib.matches(lib.compile(a).value, text) && !lib.matches(lib.compile(b).value, text)
    ensures JustLoaded(s)
    ensures var now, m := After(lib, s, ops), Message(7, None, None, None, text);
            && now.filters == [Everything(b).(id := 1)]
            && CachedScan(lib, now.filters, now.cache, m).0 == Some(1) && Scan(lib, now.filters, m) == None
  {
    var m := Message(7, None, None, None, text);
    s := State(map[], [], map[]);
    ops := [Store(Everything(a)), Check(m), Remove(1), Store(Everything(b))];
    var f, g := Everything(a).(id := 1), Everything(b).(id := 1);
    var s1 := State(map[1 := f], [f], map[]);
    var s2: State<Re> := State(map[1 := f], [f], map[1 := lib.compile(a)]);
    var s3: State<Re> := State(map[], [], map[1 := lib.compile(a)]);
    var s4: State<Re> := State(map[1 := g], [g], map[1 := lib.compile(a)]);
    assert Step(lib, s, ops[0]) == s1;
    assert Step(lib, s1, ops[1]) == s2;
    assert Step(lib, s2, ops[2]) == s3;
    assert Step(lib, s3, ops[3]) == s4;
    FourSteps(lib, s, ops);
  }

  lemma FourSteps<Re>(lib: Regexps<Re>, s: State<Re>, ops: seq<Op>)
    requires |ops| == 4
    ensures After(lib, s, ops) ==
            Step(lib, Step(lib, Step(lib, Step(lib, s, ops[0]), ops[1]), ops[2]), ops[3])
  {
    hide Step;
    RunNext(lib, s, ops, 0);
    RunNext(lib, s, ops, 1);
    RunNext(lib, s, ops, 2);
  }

  lemma RunNext<Re>(lib: Regexps<Re>, s: State<Re>, ops: seq<Op>, i: nat)
    requires i < |ops|
    ensures After(lib, s, ops[..i + 1]) == Step(lib, After(lib, s, ops[..i]), ops[i])
  {
    assert ops[..i + 1][..i] == ops[..i];
  }

  // ---------- The client ----------

  class Client<Re> {
    const lib: Regexps<Re>
    var db: map<ID, Filter>
    var filters: seq<Filter>
    var filtersRegexps: Cache<Re>

    constructor (lib: Regexps<Re>, db: map<ID, Filter>)
      ensures this.lib == lib && Now() == State(db, [], map[])
    {
      this.lib, this.db, filters, filtersRegexps := lib, db, [], map[];
    }

    function Now(): State<Re>
      reads this
    {
      State(db, filters, filtersRegexps)
    }

    method LoadContentFilters()
      modifies this`filters, this`filtersRegexps
      ensures Now() == Step(lib, old(Now()), Load)
    {
      filters, filtersRegexps := Listed(db), map[];
    }

    /** Stores the filter under its id, or under the next one when it has none. */
    method StoreContentFilter(cf: Filter) returns (stored: Option<ID>)
      modifies this`db, this`filters, this`filtersRegexps
      ensures Now() == Step(lib, old(Now()), Store(cf))
      ensures stored == if lib.compile(cf.expr).None? then None else Some(WithID(old(db), cf).id)
    {
      hide MaxID;
      if lib.compile(cf.expr).None? { return None; }
      var f := cf;
      if f.id == 0 { f := f.(id := NextID(db)); }
      db := db[f.id := f];
      var updated, i := false, 0;
      while i < |filters| && !updated
        invariant i <= |filters| && this.db == old(db)[f.id := f]
        invariant !updated ==> filters == old(filters) && filtersRegexps == old(filtersRegexps) &&
                               forall k :: 0 <= k < i ==> filters[k].id != f.id
        invariant updated ==> Now() == Stored(old(Now()), f) && i < |filters|
        decreases |filters| - i, !updated
      {
        if filters[i].id == f.id {
          FirstIndex(filters, f.id, i);
          filters := filters[i := f];
          filtersRegexps := filtersRegexps - {f.id};
          updated := true;
        } else {
          i := i + 1;
        }
      }
      if !updated {
        FirstIndex(filters, f.id, |filters|);
        filters := filters + [f];
      }
      return Some(f.id);
    }

    method RemoveContentFilter(id: ID)
      modifies this`db, this`filters
      ensures Now() == Step(lib, old(Now()), Remove(id))
    {
      db := db - {id};
      for i := 0 to |filters|
        invariant filters == old(filters) && forall k :: 0 <= k < i ==> filters[k].id != id
      {
        if filters[i].id == id {
          FirstIndex(filters, id, i);
          filters := filters[..i] + filters[i + 1..];
          return;
        }
      }
      FirstIndex(filters, id, |filters|);
    }

    method RemoveAllContentFilters()
      modifies this`db, this`filters
      ensures Now() == Step(lib, old(Now()), RemoveAll)
    {
      var oldFilters := filters;
      filters := [];
      for i := 0 to |oldFilters|
        invariant filters == [] && db == old(db) - IDs(oldFilters[..i])
      {
        assert oldFilters[..i + 1] == oldFilters[..i] + [oldFilters[i]];
        assert IDs(oldFilters[..i + 1]) == IDs(oldFilters[..i]) + {oldFilters[i].id};
        db := db - {oldFilters[i].id};
      }
      assert oldFilters[..|oldFilters|] == oldFilters;
    }

    /** The rule that filters the message: that of the plain scan, while the cache is coherent. */
    method ShouldFilter(m: Message) returns (rule: Decision)
      modifies this`filtersRegexps
      ensures (rule, filtersRegexps) == CachedScan(lib, filters, old(filtersRegexps), m)
      ensures DistinctIDs(filters) && old(Coherent(lib, filters, filtersRegexps)) ==>
                rule == Scan(lib, filters, m) && Decides(lib, filters, m, rule) && Coherent(lib, filters, filtersRegexps)
    {
      ghost var was := filtersRegexps;
      ScanDecides(lib, filters, m);
      hide Decides;
      DecidesFromStart(lib, filters, filtersRegexps, m);
      for i := 0 to |filters|
        invariant CachedScan(lib, filters, was, m) == CachedScan(lib, filters[i..], filtersRegexps, m)
      {
        assert filters[i..][1..] == filters[i + 1..];
        var cf := filters[i];
        if !Applies(cf, m) { continue; }
        ghost var cache := filtersRegexps;
        var re;
        if cf.id in filtersRegexps {
          re := filtersRegexps[cf.id];
        } else {
          re := lib.compile(cf.expr);
          filtersRegexps := filtersRegexps[cf.id := re];
        }
        assert re == Lookup(lib, cache, cf) && filtersRegexps == cache[cf.id := re];
        if re.None? || !lib.matches(re.value, m.data) { continue; }
        return Some(cf.id);
      }
      return None;
    }
  }

  lemma DecidesFromStart<Re>(lib: Regexps<Re>, filters: seq<Filter>, cache: Cache<Re>, m: Message)
    ensures DistinctIDs(filters) && Coherent(lib, filters, cache) ==>
              var r := CachedScan(lib, filters, cache, m);
              r.0 == Scan(lib, filters, m) && Coherent(lib, filters, r.1)
  {
    if DistinctIDs(filters) && Coherent(lib, filters, cache) {
      assert filters[0..] == filters;
      CacheDecides(lib, filters, 0, cache, m);
    }
  }

  lemma FirstIndex(filters: seq<Filter>, id: ID, i: nat)
    requires i <= |filters| && (i < |filters| ==> filters[i].id == id)
    requires forall k :: 0 <= k < i ==> filters[k].id != id
    ensures IndexOf(filters, id) == i
  {}
}
