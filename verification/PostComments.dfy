/**
 The comments of a post: the tree of replies built from the comments in arrival
 order, and the stack loop that flattens it for display.
 */
module PostComments {

  datatype Option<+T> = None | Some(value: T)

  type ID = nat

  /** A parsed comment: its hash and the hash it names as its parent. */
  datatype Parsed = Parsed(id: ID, parent: Option<ID>)

  // ---------- The forest, by arrival index ----------

  /** The latest of the first n comments with this id. */
  function Last(cs: seq<Parsed>, n: nat, id: ID): (r: Option<nat>)
    requires n <= |cs|
    ensures r.Some? ==> r.value < n
  {
    if n == 0 then None
    else if cs[n - 1].id == id then Some(n - 1)
    else Last(cs, n - 1, id)
  }

  /** The comment i hangs under: the latest with the named id, i itself included. */
  function ParentOf(cs: seq<Parsed>, i: nat): (r: Option<nat>)
    requires i < |cs|
    ensures r.Some? ==> r.value <= i
  {
    if cs[i].parent.None? then None else Last(cs, i + 1, cs[i].parent.value)
  }

  /** The parent is the latest comment so far with the named id. */
  lemma {:induction false} ParentIsLatest(cs: seq<Parsed>, i: nat)
    requires i < |cs|
    ensures match ParentOf(cs, i)
            case None => cs[i].parent.None? || forall q :: 0 <= q <= i ==> cs[q].id != cs[i].parent.value
            case Some(p) => cs[i].parent == Some(cs[p].id) && forall q :: p < q <= i ==> cs[q].id != cs[p].id
  {
    if cs[i].parent.Some? { LastIs(cs, i + 1, cs[i].parent.value); }
  }

  lemma {:induction false} LastIs(cs: seq<Parsed>, n: nat, id: ID)
    requires n <= |cs|
    ensures match Last(cs, n, id)
            case None => forall q :: 0 <= q < n ==> cs[q].id != id
            case Some(p) => cs[p].id == id && forall q :: p < q < n ==> cs[q].id != id
  {
    if n > 0 && cs[n - 1].id != id { LastIs(cs, n - 1, id); }
  }

  /** Those of the first n comments that hang under p, in arrival order; the roots for None. */
  function Under(cs: seq<Parsed>, n: nat, p: Option<nat>): (r: seq<nat>)
    requires n <= |cs|
    ensures forall a :: 0 <= a < |r| ==> r[a] < n && ParentOf(cs, r[a]) == p
  {
    if n == 0 then []
    else
      var rest := Under(cs, n - 1, p);
      if ParentOf(cs, n - 1) == p then rest + [n - 1] else rest
  }

  lemma {:induction false} UnderIsAll(cs: seq<Parsed>, n: nat, p: Option<nat>)
    requires n <= |cs|
    ensures forall k :: 0 <= k < n && ParentOf(cs, k) == p ==> k in Under(cs, n, p)
    ensures forall a, b :: 0 <= a < b < |Under(cs, n, p)| ==> Under(cs, n, p)[a] < Under(cs, n, p)[b]
  {
    if n > 0 { UnderIsAll(cs, n - 1, p); }
  }

  function Kids(cs: seq<Parsed>, i: nat): (r: seq<nat>)
    ensures forall a :: 0 <= a < |r| ==> r[a] < |cs| && ParentOf(cs, r[a]) == Some(i)
  {
    Under(cs, |cs|, Some(i))
  }

  function Roots(cs: seq<Parsed>): seq<nat> { Under(cs, |cs|, None) }

  predicate NamesItself(cs: seq<Parsed>, i: nat)
    requires i < |cs|
  {
    cs[i].parent == Some(cs[i].id)
  }

  lemma SelfParent(cs: seq<Parsed>, i: nat)
    requires i < |cs|
    ensures ParentOf(cs, i) == Some(i) <==> NamesItself(cs, i)
  {
  }

  /** Comments from lo on, none its own parent. */
  predicate Grounded(cs: seq<Parsed>, lo: nat, ks: seq<nat>) {
    forall j :: 0 <= j < |ks| ==> lo <= ks[j] < |cs| && ParentOf(cs, ks[j]) != Some(ks[j])
  }

  /** The recursive preorder of the trees under ks. */
  function Preorder(cs: seq<Parsed>, lo: nat, ks: seq<nat>): seq<nat>
    requires Grounded(cs, lo, ks)
    decreases |cs| - lo, |ks|
  {
    if ks == [] then []
    else
      [ks[0]] + Preorder(cs, ks[0] + 1, Kids(cs, ks[0])) + Preorder(cs, lo, ks[1..])
  }

  /** One step of the preorder. */
  lemma Unfold(cs: seq<Parsed>, lo: nat, ks: seq<nat>)
    requires ks != [] && Grounded(cs, lo, ks)
    ensures lo <= ks[0] < |cs| && ParentOf(cs, ks[0]) != Some(ks[0])
    ensures Grounded(cs, ks[0] + 1, Kids(cs, ks[0])) && Grounded(cs, lo, ks[1..])
    ensures Preorder(cs, lo, ks) == [ks[0]] + Preorder(cs, ks[0] + 1, Kids(cs, ks[0])) + Preorder(cs, lo, ks[1..])
  {
  }

  lemma UnfoldEmpty(cs: seq<Parsed>, lo: nat)
    ensures Grounded(cs, lo, []) && Preorder(cs, lo, []) == []
  {
  }

  function Depth(cs: seq<Parsed>, i: nat): nat
    requires i < |cs|
  {
    var p := ParentOf(cs, i);
    if p.None? then 0
    else if p.value == i then 1
    else Depth(cs, p.value) + 1
  }

  /** a is i or an ancestor of i. */
  predicate Above(cs: seq<Parsed>, a: nat, i: nat)
    requires i < |cs|
  {
    a == i || (var p := ParentOf(cs, i); p.Some? && p.value != i && Above(cs, a, p.value))
  }

  // ---------- What the preorder is like ----------

  lemma {:induction false} PreorderBound(cs: seq<Parsed>, lo: nat, hi: nat, ks: seq<nat>)
    requires lo <= hi && Grounded(cs, hi, ks)
    ensures Grounded(cs, lo, ks) && Preorder(cs, lo, ks) == Preorder(cs, hi, ks)
    decreases |ks|
  {
    if ks != [] {
      assert Grounded(cs, hi, ks[1..]);
      PreorderBound(cs, lo, hi, ks[1..]);
    }
  }

  lemma {:induction false} PreorderAppend(cs: seq<Parsed>, lo: nat, ks: seq<nat>, ls: seq<nat>)
    requires Grounded(cs, lo, ks) && Grounded(cs, lo, ls)
    ensures Grounded(cs, lo, ks + ls)
    ensures Preorder(cs, lo, ks + ls) == Preorder(cs, lo, ks) + Preorder(cs, lo, ls)
    decreases |ks|
  {
    hide Preorder, ParentOf, Kids;
    if ks == [] {
      UnfoldEmpty(cs, lo);
      assert ks + ls == ls;
    } else {
      var all := ks + ls;
      assert all[0] == ks[0] && all[1..] == ks[1..] + ls;
      Unfold(cs, lo, ks);
      PreorderAppend(cs, lo, ks[1..], ls);
      assert Grounded(cs, lo, all);
      Unfold(cs, lo, all);
    }
  }

  /** x lies below one of ks. */
  predicate BelowAny(cs: seq<Parsed>, ks: seq<nat>, x: nat)
    requires x < |cs|
  {
    exists j :: 0 <= j < |ks| && Above(cs, ks[j], x)
  }

  lemma BelowAnySplit(cs: seq<Parsed>, ks: seq<nat>, x: nat)
    requires ks != [] && x < |cs|
    ensures BelowAny(cs, ks, x) <==> Above(cs, ks[0], x) || BelowAny(cs, ks[1..], x)
  {}

  /** What lies below k is k or lies below one of its kids. */
  lemma {:induction false} BelowByKid(cs: seq<Parsed>, k: nat, x: nat)
    requires k < |cs| && x < |cs| && ParentOf(cs, k) != Some(k)
    ensures Above(cs, k, x) <==> x == k || BelowAny(cs, Kids(cs, k), x)
  {
    var p := ParentOf(cs, x);
    if p.Some? && p.value != x {
      BelowByKid(cs, k, p.value);
      if p.value == k {
        UnderIsAll(cs, |cs|, Some(k));
        var j :| 0 <= j < |Kids(cs, k)| && Kids(cs, k)[j] == x;
      }
    }
    if x != k && BelowAny(cs, Kids(cs, k), x) {
      var j :| 0 <= j < |Kids(cs, k)| && Above(cs, Kids(cs, k)[j], x);
      if Kids(cs, k)[j] == x {
        assert ParentOf(cs, x) == Some(k);
      }
    }
  }

  /** The trees under ks hold exactly what lies below ks. */
  lemma {:induction false} PreorderHolds(cs: seq<Parsed>, lo: nat, ks: seq<nat>, x: nat)
    requires Grounded(cs, lo, ks) && x < |cs|
    ensures x in Preorder(cs, lo, ks) <==> BelowAny(cs, ks, x)
    decreases |cs| - lo, |ks|
  {
    hide Preorder, ParentOf, Kids, Grounded, Above;
    if ks == [] {
      UnfoldEmpty(cs, lo);
    } else {
      Unfold(cs, lo, ks);
      var k := ks[0];
      var tree, rest := Preorder(cs, k + 1, Kids(cs, k)), Preorder(cs, lo, ks[1..]);
      PreorderHolds(cs, k + 1, Kids(cs, k), x);
      PreorderHolds(cs, lo, ks[1..], x);
      BelowByKid(cs, k, x);
      BelowAnySplit(cs, ks, x);
      InParts(x, [k], tree, rest);
    }
  }

  lemma InParts(x: nat, a: seq<nat>, b: seq<nat>, c: seq<nat>)
    ensures x in a + b + c <==> x in a || x in b || x in c
  {
  }

  lemma {:induction false} AboveOrder(cs: seq<Parsed>, a: nat, i: nat)
    requires i < |cs| && Above(cs, a, i)
    ensures a <= i
  {
    if a != i { AboveOrder(cs, a, ParentOf(cs, i).value); }
  }

  lemma {:induction false} AboveTransitive(cs: seq<Parsed>, a: nat, b: nat, i: nat)
    requires i < |cs| && b < |cs| && Above(cs, a, b) && Above(cs, b, i)
    ensures Above(cs, a, i)
  {
    if b != i { AboveTransitive(cs, a, b, ParentOf(cs, i).value); }
  }

  /** Two ancestors of one comment are ancestors of one another. */
  lemma {:induction false} AncestorsChain(cs: seq<Parsed>, a: nat, b: nat, i: nat)
    requires a < |cs| && b < |cs| && i < |cs| && Above(cs, a, i) && Above(cs, b, i)
    ensures Above(cs, a, b) || Above(cs, b, a)
  {
    if a != i && b != i { AncestorsChain(cs, a, b, ParentOf(cs, i).value); }
  }

  /** Ascending comments, none above another. */
  predicate Orderly(cs: seq<Parsed>, ks: seq<nat>) {
    && (forall j :: 0 <= j < |ks| ==> ks[j] < |cs|)
    && (forall i, j :: 0 <= i < j < |ks| ==> ks[i] < ks[j] && !Above(cs, ks[i], ks[j]))
  }

  /** Brothers, and the roots, are orderly. */
  lemma UnderOrderly(cs: seq<Parsed>, p: Option<nat>)
    requires p.Some? ==> p.value < |cs| && ParentOf(cs, p.value) != p
    ensures Orderly(cs, Under(cs, |cs|, p))
  {
    UnderIsAll(cs, |cs|, p);
    var ks := Under(cs, |cs|, p);
    forall i, j | 0 <= i < j < |ks| ensures !Above(cs, ks[i], ks[j]) {
      if p.Some? && Above(cs, ks[i], p.value) {
        AboveOrder(cs, ks[i], p.value);
      }
    }
  }

  /** An orderly list's later trees share nothing with its first. */
  lemma TreesApart(cs: seq<Parsed>, ks: seq<nat>, x: nat)
    requires ks != [] && Orderly(cs, ks) && x < |cs|
    ensures !(Above(cs, ks[0], x) && BelowAny(cs, ks[1..], x))
  {
    if Above(cs, ks[0], x) && BelowAny(cs, ks[1..], x) {
      var j :| 0 <= j < |ks[1..]| && Above(cs, ks[1..][j], x);
      assert ks[1..][j] == ks[j + 1];
      AncestorsChain(cs, ks[0], ks[j + 1], x);
      AboveOrder(cs, ks[j + 1], ks[0]);
    }
  }

  predicate NoDup(s: seq<nat>) { forall p, q :: 0 <= p < q < |s| ==> s[p] != s[q] }

  ghost predicate Precedes(s: seq<nat>, x: nat, y: nat) {
    exists p, q :: 0 <= p < q < |s| && s[p] == x && s[q] == y
  }

  lemma {:induction false} PreorderInRange(cs: seq<Parsed>, lo: nat, ks: seq<nat>, x: nat)
    requires Grounded(cs, lo, ks) && x in Preorder(cs, lo, ks)
    ensures lo <= x < |cs|
    decreases |cs| - lo, |ks|
  {
    hide Preorder, ParentOf, Kids, Grounded;
    if ks == [] {
      UnfoldEmpty(cs, lo);
    } else {
      Unfold(cs, lo, ks);
      var k := ks[0];
      var tree, rest := Preorder(cs, k + 1, Kids(cs, k)), Preorder(cs, lo, ks[1..]);
      InParts(x, [k], tree, rest);
      if x in tree {
        PreorderInRange(cs, k + 1, Kids(cs, k), x);
      } else if x in rest {
        PreorderInRange(cs, lo, ks[1..], x);
      }
    }
  }

  /** The three parts of a preorder: its first comment, what hangs under it, and the other trees. */
  lemma PreorderParts(cs: seq<Parsed>, lo: nat, ks: seq<nat>) returns (k: nat, tree: seq<nat>, rest: seq<nat>)
    requires ks != [] && Grounded(cs, lo, ks) && Orderly(cs, ks)
    ensures k == ks[0] < |cs| && lo <= k && ParentOf(cs, k) != Some(k)
    ensures Grounded(cs, k + 1, Kids(cs, k)) && Orderly(cs, Kids(cs, k)) && tree == Preorder(cs, k + 1, Kids(cs, k))
    ensures Grounded(cs, lo, ks[1..]) && Orderly(cs, ks[1..]) && rest == Preorder(cs, lo, ks[1..])
    ensures Preorder(cs, lo, ks) == [k] + tree + rest
    ensures forall x :: x in tree ==> x < |cs| && x != k && Above(cs, k, x)
    ensures forall x :: x in rest ==> x < |cs| && !Above(cs, k, x) && BelowAny(cs, ks[1..], x)
  {
    hide Preorder, ParentOf, BelowAny, Grounded, Above;
    Unfold(cs, lo, ks);
    k := ks[0];
    tree, rest := Preorder(cs, k + 1, Kids(cs, k)), Preorder(cs, lo, ks[1..]);
    UnderOrderly(cs, Some(k));
    forall x | x in tree ensures x < |cs| && x != k && Above(cs, k, x) {
      PreorderInRange(cs, k + 1, Kids(cs, k), x);
      PreorderHolds(cs, k + 1, Kids(cs, k), x);
      BelowByKid(cs, k, x);
    }
    forall x | x in rest ensures x < |cs| && !Above(cs, k, x) && BelowAny(cs, ks[1..], x) {
      PreorderInRange(cs, lo, ks[1..], x);
      PreorderHolds(cs, lo, ks[1..], x);
      TreesApart(cs, ks, x);
    }
  }

  /** No comment is shown twice. */
  lemma {:induction false} PreorderNoDup(cs: seq<Parsed>, lo: nat, ks: seq<nat>)
    requires Grounded(cs, lo, ks) && Orderly(cs, ks)
    ensures NoDup(Preorder(cs, lo, ks))
    decreases |cs| - lo, |ks|
  {
    hide Preorder, ParentOf, Kids, Grounded, Above, Orderly;
    if ks == [] {
      UnfoldEmpty(cs, lo);
    } else {
      var k, tree, rest := PreorderParts(cs, lo, ks);
      PreorderNoDup(cs, k + 1, Kids(cs, k));
      PreorderNoDup(cs, lo, ks[1..]);
      AboveSelf(cs, k);
      DisjointNoDup([k], tree);
      DisjointNoDup([k] + tree, rest);
    }
  }

  lemma DisjointNoDup(a: seq<nat>, b: seq<nat>)
    requires NoDup(a) && NoDup(b) && forall x :: x in a ==> x !in b
    ensures NoDup(a + b)
  {
    forall p, q | 0 <= p < q < |a + b| ensures (a + b)[p] != (a + b)[q] {
      if p < |a| <= q { assert a[p] in a && b[q - |a|] in b; }
    }
  }

  lemma PrecedesAcross(a: seq<nat>, b: seq<nat>, x: nat, y: nat)
    requires (x in a && y in b) || Precedes(a, x, y) || Precedes(b, x, y)
    ensures Precedes(a + b, x, y)
  {
    var s := a + b;
    if x in a && y in b {
      var p :| 0 <= p < |a| && a[p] == x;
      var q :| 0 <= q < |b| && b[q] == y;
      assert s[p] == x && s[|a| + q] == y;
    } else if Precedes(a, x, y) {
      var p, q :| 0 <= p < q < |a| && a[p] == x && a[q] == y;
      assert s[p] == x && s[q] == y;
    } else {
      var p, q :| 0 <= p < q < |b| && b[p] == x && b[q] == y;
      assert s[|a| + p] == x && s[|a| + q] == y;
    }
  }

  /** x is an ancestor of y, or an earlier reply to the same comment (or an earlier root). */
  predicate ShownFirst(cs: seq<Parsed>, x: nat, y: nat)
    requires x < |cs| && y < |cs|
  {
    x != y && (Above(cs, x, y) || (x < y && ParentOf(cs, x) == ParentOf(cs, y)))
  }

  lemma AboveSelf(cs: seq<Parsed>, k: nat)
    requires k < |cs|
    ensures Above(cs, k, k)
  {
  }

  /** Ancestors and earlier brothers come first. */
  lemma {:induction false} PreorderOrder(cs: seq<Parsed>, lo: nat, ks: seq<nat>, x: nat, y: nat)
    requires Grounded(cs, lo, ks) && Orderly(cs, ks)
    requires x in Preorder(cs, lo, ks) && y in Preorder(cs, lo, ks) && x < |cs| && y < |cs|
    requires ShownFirst(cs, x, y)
    ensures Precedes(Preorder(cs, lo, ks), x, y)
    decreases |cs| - lo, |ks|
  {
    hide Preorder, ParentOf, Kids, Grounded, Above, Orderly, BelowAny, ShownFirst;
    if ks == [] {
      UnfoldEmpty(cs, lo);
    } else {
      var k, tree, rest := PreorderParts(cs, lo, ks);
      InParts(x, [k], tree, rest);
      InParts(y, [k], tree, rest);
      if y in rest {
        if x in rest { PreorderOrder(cs, lo, ks[1..], x, y); }
        PrecedesAcross([k] + tree, rest, x, y);
      } else {
        AboveSelf(cs, k);
        FirstNotLater(cs, ks, x, y);
        assert x !in rest && y in tree;
        if x in tree { PreorderOrder(cs, k + 1, Kids(cs, k), x, y); }
        PrecedesAcross([k], tree, x, y);
        PrecedesAcross([k] + tree, rest, x, y);
      }
    }
  }

  /** What must be shown before a comment of the first tree does not lie in a later tree; nothing comes before the first. */
  lemma FirstNotLater(cs: seq<Parsed>, ks: seq<nat>, x: nat, y: nat)
    requires ks != [] && Orderly(cs, ks) && x < |cs| && y < |cs| && ShownFirst(cs, x, y) && Above(cs, ks[0], y)
    ensures !BelowAny(cs, ks[1..], x) || Above(cs, ks[0], x)
    ensures y == ks[0] ==> !Above(cs, ks[0], x)
  {
    var k := ks[0];
    if y == k && Above(cs, k, x) {
      AboveOrder(cs, k, x);
      if Above(cs, x, k) { AboveOrder(cs, x, k); }
    }
    if BelowAny(cs, ks[1..], x) {
      var j :| 0 <= j < |ks[1..]| && Above(cs, ks[1..][j], x);
      var b := ks[j + 1];
      if Above(cs, x, y) {
        AboveTransitive(cs, b, x, y);
        TreesApart(cs, ks, y);
      } else if b != x {
        assert Above(cs, b, y);
        TreesApart(cs, ks, y);
      }
    }
  }

  // ---------- The comments shown for a post ----------

  lemma RootsGrounded(cs: seq<Parsed>)
    ensures Grounded(cs, 0, Roots(cs)) && Orderly(cs, Roots(cs))
  {
    UnderOrderly(cs, None);
  }

  function Shown(cs: seq<Parsed>): seq<nat> {
    RootsGrounded(cs);
    Preorder(cs, 0, Roots(cs))
  }

  /** Every comment whose chain of parents ends has a root above it. */
  lemma {:induction false} RootAbove(cs: seq<Parsed>, x: nat)
    requires x < |cs| && forall i :: 0 <= i < |cs| ==> !NamesItself(cs, i)
    ensures BelowAny(cs, Roots(cs), x)
  {
    SelfParent(cs, x);
    var p := ParentOf(cs, x);
    if p.None? {
      UnderIsAll(cs, |cs|, None);
      var j :| 0 <= j < |Roots(cs)| && Roots(cs)[j] == x;
    } else {
      RootAbove(cs, p.value);
      var j :| 0 <= j < |Roots(cs)| && Above(cs, Roots(cs)[j], p.value);
      assert Above(cs, Roots(cs)[j], x);
    }
  }

  /** The comments shown are all the comments, each once, exactly when none names itself as its parent. */
  lemma ShownIsPermutation(cs: seq<Parsed>)
    ensures NoDup(Shown(cs)) && forall x :: x in Shown(cs) ==> x < |cs|
    ensures (forall x :: 0 <= x < |cs| ==> x in Shown(cs)) <==> (forall i :: 0 <= i < |cs| ==> !NamesItself(cs, i))
  {
    RootsGrounded(cs);
    PreorderNoDup(cs, 0, Roots(cs));
    forall x | x in Shown(cs) ensures x < |cs| {
      PreorderInRange(cs, 0, Roots(cs), x);
    }
    if forall i :: 0 <= i < |cs| ==> !NamesItself(cs, i) {
      forall x | 0 <= x < |cs| ensures x in Shown(cs) {
        RootAbove(cs, x);
        PreorderHolds(cs, 0, Roots(cs), x);
      }
    } else {
      var i :| 0 <= i < |cs| && NamesItself(cs, i);
      SelfParent(cs, i);
      PreorderHolds(cs, 0, Roots(cs), i);
      assert i !in Shown(cs);
    }
  }

  /** Ancestors come before what hangs under them, replies to one comment in arrival order. */
  lemma ShownInOrder(cs: seq<Parsed>, x: nat, y: nat)
    requires x in Shown(cs) && y in Shown(cs) && x < |cs| && y < |cs| && ShownFirst(cs, x, y)
    ensures Precedes(Shown(cs), x, y)
  {
    RootsGrounded(cs);
    PreorderOrder(cs, 0, Roots(cs), x, y);
  }

  predicate OccursAt(part: seq<nat>, whole: seq<nat>, p: nat) {
    p + |part| <= |whole| && whole[p..p + |part|] == part
  }

  ghost predicate Occurs(part: seq<nat>, whole: seq<nat>) { exists p: nat :: OccursAt(part, whole, p) }

  lemma OccursInside(a: seq<nat>, b: seq<nat>, c: seq<nat>, part: seq<nat>)
    requires Occurs(part, b)
    ensures Occurs(part, a + b + c)
  {
    var p: nat :| OccursAt(part, b, p);
    assert (a + b + c)[|a| + p..|a| + p + |part|] == b[p..p + |part|];
    assert OccursAt(part, a + b + c, |a| + p);
  }

  lemma OccursFirst(part: seq<nat>, rest: seq<nat>)
    ensures Occurs(part, part + rest)
  {
    assert OccursAt(part, part + rest, 0);
  }

  /** A comment and everything below it stand together. */
  lemma {:induction false} SubtreeContiguous(cs: seq<Parsed>, lo: nat, ks: seq<nat>, x: nat)
    requires Grounded(cs, lo, ks) && x in Preorder(cs, lo, ks)
    ensures Grounded(cs, x, [x]) && Occurs(Preorder(cs, x, [x]), Preorder(cs, lo, ks))
    decreases |cs| - lo, |ks|
  {
    hide Preorder, ParentOf, Kids, Occurs;
    if ks == [] {
      UnfoldEmpty(cs, lo);
    } else {
      Unfold(cs, lo, ks);
      var k := ks[0];
      var tree, rest := Preorder(cs, k + 1, Kids(cs, k)), Preorder(cs, lo, ks[1..]);
      InParts(x, [k], tree, rest);
      if x == k {
        Unfold(cs, k, [k]);
        UnfoldEmpty(cs, k);
        assert [k][1..] == [] && [k] + tree + [] == [k] + tree;
        OccursFirst(Preorder(cs, k, [k]), rest);
      } else if x in tree {
        SubtreeContiguous(cs, k + 1, Kids(cs, k), x);
        OccursInside([k], tree, rest, Preorder(cs, x, [x]));
      } else {
        SubtreeContiguous(cs, lo, ks[1..], x);
        OccursInside([k] + tree, rest, [], Preorder(cs, x, [x]));
        assert [k] + tree + rest + [] == [k] + tree + rest;
      }
    }
  }

  /** In what is shown, each subtree (x and all it is above) is one contiguous block. */
  lemma ShownSubtree(cs: seq<Parsed>, x: nat)
    requires x in Shown(cs)
    ensures Grounded(cs, x, [x]) && Occurs(Preorder(cs, x, [x]), Shown(cs))
    ensures forall y :: 0 <= y < |cs| ==> (y in Preorder(cs, x, [x]) <==> Above(cs, x, y))
  {
    RootsGrounded(cs);
    SubtreeContiguous(cs, 0, Roots(cs), x);
    forall y | 0 <= y < |cs| ensures y in Preorder(cs, x, [x]) <==> Above(cs, x, y) {
      PreorderHolds(cs, x, [x], y);
      BelowAnySplit(cs, [x], y);
    }
  }

  function Ancestors(cs: seq<Parsed>, i: nat): set<nat>
    requires i < |cs|
  {
    set a: nat | a < |cs| && a != i && Above(cs, a, i)
  }

  /** The depth of a comment shown is the number of its ancestors. */
  lemma {:induction false} DepthCountsAncestors(cs: seq<Parsed>, i: nat)
    requires i < |cs| && BelowAny(cs, Roots(cs), i)
    ensures Depth(cs, i) == |Ancestors(cs, i)|
  {
    var p := ParentOf(cs, i);
    var j :| 0 <= j < |Roots(cs)| && Above(cs, Roots(cs)[j], i);
    if p.None? {
      assert Ancestors(cs, i) == {};
    } else {
      assert BelowAny(cs, Roots(cs), p.value);
      DepthCountsAncestors(cs, p.value);
      forall a | a in Ancestors(cs, p.value) ensures a < p.value { AboveOrder(cs, a, p.value); }
      assert forall a: nat :: a != i ==> (Above(cs, a, i) <==> Above(cs, a, p.value));
      assert Ancestors(cs, i) == Ancestors(cs, p.value) + {p.value};
    }
  }

  // ---------- The window that shows them ----------

  class Comment {
    const parsed: Parsed
    const idx: nat
    var depth: nat
    var children: seq<Comment>

    constructor (parsed: Parsed, idx: nat)
      ensures this.parsed == parsed && this.idx == idx && depth == 0 && children == []
    {
      this.parsed, this.idx := parsed, idx;
      depth, children := 0, [];
    }
  }

  predicate InRange(ks: seq<nat>, n: nat) { forall j :: 0 <= j < |ks| ==> ks[j] < n }

  /** The comments at the given arrival indices. */
  function At(nodes: seq<Comment>, ks: seq<nat>): seq<Comment>
    requires InRange(ks, |nodes|)
  {
    if ks == [] then [] else At(nodes, ks[..|ks| - 1]) + [nodes[ks[|ks| - 1]]]
  }

  function Reversed<T>(s: seq<T>): seq<T> {
    if s == [] then [] else [s[|s| - 1]] + Reversed(s[..|s| - 1])
  }

  lemma {:induction false} AtIndex(nodes: seq<Comment>, ks: seq<nat>)
    requires InRange(ks, |nodes|)
    ensures |At(nodes, ks)| == |ks| && forall j :: 0 <= j < |ks| ==> At(nodes, ks)[j] == nodes[ks[j]]
  {
    if ks != [] { AtIndex(nodes, ks[..|ks| - 1]); }
  }

  lemma AtNext(nodes: seq<Comment>, ks: seq<nat>, k: nat)
    requires InRange(ks, |nodes|) && k < |nodes|
    ensures InRange(ks + [k], |nodes|) && At(nodes, ks + [k]) == At(nodes, ks) + [nodes[k]]
  {}

  lemma {:induction false} AtGrow(nodes: seq<Comment>, cmt: Comment, ks: seq<nat>)
    requires InRange(ks, |nodes|)
    ensures InRange(ks, |nodes| + 1) && At(nodes + [cmt], ks) == At(nodes, ks)
  {
    if ks != [] { AtGrow(nodes, cmt, ks[..|ks| - 1]); }
  }

  lemma {:induction false} AtAppend(nodes: seq<Comment>, a: seq<nat>, b: seq<nat>)
    requires InRange(a, |nodes|) && InRange(b, |nodes|)
    ensures InRange(a + b, |nodes|) && At(nodes, a + b) == At(nodes, a) + At(nodes, b)
  {
    if b == [] {
      assert a + b == a;
    } else {
      AtAppend(nodes, a, b[..|b| - 1]);
      assert (a + b)[..|a + b| - 1] == a + b[..|b| - 1];
    }
  }

  lemma {:induction false} AtReversed(nodes: seq<Comment>, b: seq<nat>)
    requires InRange(b, |nodes|)
    ensures InRange(Reversed(b), |nodes|) && At(nodes, Reversed(b)) == Reversed(At(nodes, b))
  {
    if b != [] {
      var k, rest := b[|b| - 1], b[..|b| - 1];
      AtReversed(nodes, rest);
      AtAppend(nodes, [k], Reversed(rest));
      AtNext(nodes, [], k);
      assert [] + [k] == [k];
      var r := At(nodes, b);
      assert r[..|r| - 1] == At(nodes, rest);
    }
  }

  lemma {:induction false} ReversedAppend<T>(a: seq<T>, b: seq<T>)
    ensures Reversed(a + b) == Reversed(b) + Reversed(a)
  {
    if b == [] {
      assert a + b == a;
    } else {
      var rest, last := b[..|b| - 1], b[|b| - 1];
      ReversedAppend(a, rest);
      assert (a + b)[..|a + b| - 1] == a + rest && (a + b)[|a + b| - 1] == last;
      hide Reversed;
      assert [last] + (Reversed(rest) + Reversed(a)) == [last] + Reversed(rest) + Reversed(a);
    }
  }

  lemma {:induction false} ReversedTwice<T>(s: seq<T>)
    ensures Reversed(Reversed(s)) == s
  {
    if s != [] {
      var rest := s[..|s| - 1];
      ReversedTwice(rest);
      ReversedAppend([s[|s| - 1]], Reversed(rest));
      assert s == rest + [s[|s| - 1]] && Reversed([s[|s| - 1]]) == [s[|s| - 1]];
    }
  }

  /** The nodes of the first n comments, linked into trees. */
  ghost predicate Built(cs: seq<Parsed>, n: nat, nodes: seq<Comment>)
    requires n <= |cs|
    reads nodes
  {
    && |nodes| == n
    && (forall a, b :: 0 <= a < b < n ==> nodes[a] != nodes[b])
    && (forall a {:trigger Linked(cs, n, nodes, a, nodes[a])} :: 0 <= a < n ==> Linked(cs, n, nodes, a, nodes[a]))
  }

  /** The node of comment a, with those of the first n comments that hang under it. */
  ghost predicate Linked(cs: seq<Parsed>, n: nat, nodes: seq<Comment>, a: nat, node: Comment)
    requires a < n <= |cs| && n <= |nodes|
    reads node
  {
    && node.parsed == cs[a] && node.idx == a && node.depth == Depth(cs, a)
    && InRange(Under(cs, n, Some(a)), |nodes|) && node.children == At(nodes, Under(cs, n, Some(a)))
  }

  class PostWindow {
    var comments: seq<Comment>

    constructor () { comments := []; }

    /** Builds the reply tree of the parsed comments and flattens it with a stack. */
    method UpdatePost(cs: seq<Parsed>)
      modifies this
      ensures |comments| == |Shown(cs)|
      ensures forall j :: 0 <= j < |comments| ==>
                var i := Shown(cs)[j];
                i < |cs| && comments[j].idx == i && comments[j].parsed == cs[i] && comments[j].depth == Depth(cs, i)
    {
      var nodes, roots := BuildTree(cs);
      comments := Flatten(cs, nodes, roots);
      AtIndex(nodes, Shown(cs));
      assert forall j :: 0 <= j < |comments| ==> Linked(cs, |cs|, nodes, Shown(cs)[j], nodes[Shown(cs)[j]]);
    }

    method Flatten(ghost cs: seq<Parsed>, ghost nodes: seq<Comment>, roots: seq<Comment>) returns (flat: seq<Comment>)
      requires Built(cs, |cs|, nodes) && InRange(Roots(cs), |cs|) && roots == At(nodes, Roots(cs))
      ensures InRange(Shown(cs), |cs|) && flat == At(nodes, Shown(cs))
    {
      hide Preorder, ParentOf, Grounded, Last, Under, Orderly, InRange, Reversed;
      flat := [];
      var stack := PushReversed([], roots);
      ghost var done: seq<nat>, pending: seq<nat> := [], Reversed(Roots(cs));
      FlattenStart(cs, nodes);
      while |stack| > 0
        invariant InRange(pending, |cs|) && stack == At(nodes, pending)
        invariant InRange(done, |cs|) && flat == At(nodes, done)
        invariant Grounded(cs, 0, Reversed(pending))
        invariant done + Preorder(cs, 0, Reversed(pending)) == Shown(cs)
        decreases |Preorder(cs, 0, Reversed(pending))|
      {
        var l := |stack|;
        var el := stack[l - 1];
        ghost var k, left := FlattenStep(cs, nodes, done, pending);
        assert Linked(cs, |cs|, nodes, k, nodes[k]);
        assert el.children == At(nodes, Kids(cs, k)) && stack[..l - 1] == At(nodes, left);
        stack := PushReversed(stack[..l - 1], el.children);
        flat := flat + [el];
        done, pending := done + [k], left + Reversed(Kids(cs, k));
      }
      FlattenEnd(cs, done);
    }

    /** The loop that pushes a list of comments last first. */
    method PushReversed(stack: seq<Comment>, els: seq<Comment>) returns (r: seq<Comment>)
      ensures r == stack + Reversed(els)
    {
      r := stack;
      assert els[..|els|] == els;
      for i := |els| downto 0
        invariant r + Reversed(els[..i]) == stack + Reversed(els)
      {
        r := r + [els[i]];
        assert els[..i + 1][..i] == els[..i];
      }
    }

    /** One node per comment, with its depth and its replies, and the roots. */
    method BuildTree(cs: seq<Parsed>) returns (nodes: seq<Comment>, roots: seq<Comment>)
      ensures Built(cs, |cs|, nodes) && InRange(Roots(cs), |cs|) && roots == At(nodes, Roots(cs))
    {
      hide Linked, Depth, ParentOf, Last, Under, At, InRange, Indexed;
      BuildStart(cs);
      nodes, roots := [], [];
      var cmap: map<ID, Comment> := map[];
      for i := 0 to |cs|
        invariant Built(cs, i, nodes) && InRange(Under(cs, i, None), |nodes|) && roots == At(nodes, Under(cs, i, None))
        invariant forall a :: 0 <= a < i ==> fresh(nodes[a])
        invariant Indexed(cs, i, nodes, cmap)
      {
        var cmt := new Comment(cs[i], i);
        ghost var before := nodes;
        KidsAfter(cs, i, before, cmt, None);
        IndexedNext(cs, i, before, cmt, cmap);
        nodes := nodes + [cmt];
        cmap := cmap[cs[i].id := cmt];
        if cs[i].parent.None? || cs[i].parent.value !in cmap {
          roots := roots + [cmt];
          RootAdded(cs, i, before, cmt);
        } else {
          Reply(cs, i, before, cmt, cmap[cs[i].parent.value]);
        }
      }
    }

    /** Hangs the new comment under the one it replies to. */
    method Reply(ghost cs: seq<Parsed>, ghost i: nat, ghost before: seq<Comment>, cmt: Comment, pc: Comment)
      requires i < |cs| && Built(cs, i, before) && IsNew(cs, i, before, cmt)
      requires ParentOf(cs, i).Some? && pc == (before + [cmt])[ParentOf(cs, i).value]
      modifies pc, cmt
      ensures Built(cs, i + 1, before + [cmt])
    {
      hide Under, InRange, At, ParentOf;
      ghost var nodes, p := before + [cmt], ParentOf(cs, i).value;
      assert p < i ==> Linked(cs, i, before, p, pc);
      pc.children := pc.children + [cmt];
      cmt.depth := pc.depth + 1;
      forall a | 0 <= a < i + 1 ensures Linked(cs, i + 1, nodes, a, nodes[a]) {
        assert a < i && a != p ==> Linked(cs, i, before, a, before[a]);
        KidsAfter(cs, i, before, cmt, Some(a));
      }
    }
  }

  /** How the replies to p (or the roots) change when comment i arrives. */
  lemma KidsAfter(cs: seq<Parsed>, i: nat, before: seq<Comment>, cmt: Comment, p: Option<nat>)
    requires i < |cs| && |before| == i
    ensures var was, now := Under(cs, i, p), Under(cs, i + 1, p);
            && InRange(was, i) && InRange(now, i + 1)
            && At(before + [cmt], now) == At(before, was) + (if ParentOf(cs, i) == p then [cmt] else [])
            && (p == Some(i) ==> At(before, was) == [])
  {
    AtGrow(before, cmt, Under(cs, i, p));
    AtNext(before + [cmt], Under(cs, i, p), i);
    UnderNothingYet(cs, i);
  }

  /** A node not yet linked, for the comment that arrives next. */
  ghost predicate IsNew(cs: seq<Parsed>, i: nat, before: seq<Comment>, cmt: Comment)
    requires i < |cs|
    reads cmt
  {
    cmt !in before && cmt.parsed == cs[i] && cmt.idx == i && cmt.depth == 0 && cmt.children == []
  }

  lemma BuildStart(cs: seq<Parsed>)
    ensures InRange(Under(cs, 0, None), 0) && At([], Under(cs, 0, None)) == [] && Indexed(cs, 0, [], map[])
  {
  }

  /** Entering a comment in the map, and looking up its parent there. */
  lemma IndexedNext(cs: seq<Parsed>, i: nat, before: seq<Comment>, cmt: Comment, cmap: map<ID, Comment>)
    requires i < |cs| && |before| == i && Indexed(cs, i, before, cmap)
    ensures var now := cmap[cs[i].id := cmt];
            && Indexed(cs, i + 1, before + [cmt], now)
            && (ParentOf(cs, i).None? <==> cs[i].parent.None? || cs[i].parent.value !in now)
            && (ParentOf(cs, i).Some? ==> now[cs[i].parent.value] == (before + [cmt])[ParentOf(cs, i).value])
  {
  }

  lemma RootAdded(cs: seq<Parsed>, i: nat, before: seq<Comment>, cmt: Comment)
    requires i < |cs| && Built(cs, i, before) && IsNew(cs, i, before, cmt) && ParentOf(cs, i).None?
    ensures Built(cs, i + 1, before + [cmt])
  {
    var nodes := before + [cmt];
    hide Under, InRange, At;
    forall a | 0 <= a < i + 1 ensures Linked(cs, i + 1, nodes, a, nodes[a]) {
      assert a < i ==> Linked(cs, i, before, a, before[a]);
      KidsAfter(cs, i, before, cmt, Some(a));
    }
  }

  /** The map from an id to the latest comment with it. */
  ghost predicate Indexed(cs: seq<Parsed>, n: nat, nodes: seq<Comment>, cmap: map<ID, Comment>)
    requires n <= |cs| && n <= |nodes|
  {
    && (forall id :: id in cmap <==> Last(cs, n, id).Some?)
    && (forall id :: id in cmap ==> cmap[id] == nodes[Last(cs, n, id).value])
  }

  lemma FlattenStart(cs: seq<Parsed>, nodes: seq<Comment>)
    requires |nodes| == |cs|
    ensures var pending := Reversed(Roots(cs));
            && InRange(Roots(cs), |cs|) && InRange(pending, |cs|) && InRange([], |cs|)
            && At(nodes, pending) == Reversed(At(nodes, Roots(cs)))
            && Grounded(cs, 0, Reversed(pending))
            && [] + Preorder(cs, 0, Reversed(pending)) == Shown(cs)
  {
    RootsGrounded(cs);
    AtReversed(nodes, Roots(cs));
    ReversedTwice(Roots(cs));
  }

  /** Popping a comment and pushing its kids moves it from what is pending to what is done. */
  lemma FlattenStep(cs: seq<Parsed>, nodes: seq<Comment>, done: seq<nat>, pending: seq<nat>) returns (k: nat, left: seq<nat>)
    requires |nodes| == |cs| && pending != [] && InRange(pending, |cs|) && InRange(done, |cs|)
    requires Grounded(cs, 0, Reversed(pending))
    ensures k < |cs| && InRange(left, |cs|) && InRange(Kids(cs, k), |cs|)
    ensures At(nodes, pending) == At(nodes, left) + [nodes[k]]
    ensures InRange(done + [k], |cs|) && At(nodes, done + [k]) == At(nodes, done) + [nodes[k]]
    ensures var next := left + Reversed(Kids(cs, k));
            && InRange(next, |cs|) && At(nodes, next) == At(nodes, left) + Reversed(At(nodes, Kids(cs, k)))
            && Grounded(cs, 0, Reversed(next))
            && done + [k] + Preorder(cs, 0, Reversed(next)) == done + Preorder(cs, 0, Reversed(pending))
            && |Preorder(cs, 0, Reversed(next))| < |Preorder(cs, 0, Reversed(pending))|
  {
    hide ParentOf, Preorder, Grounded, Under;
    k, left := pending[|pending| - 1], pending[..|pending| - 1];
    PendingStep(cs, k, left, pending);
    AtNext(nodes, done, k);
    AtReversed(nodes, Kids(cs, k));
    AtAppend(nodes, left, Reversed(Kids(cs, k)));
  }

  lemma PendingStep(cs: seq<Parsed>, k: nat, left: seq<nat>, pending: seq<nat>)
    requires pending == left + [k] && Grounded(cs, 0, Reversed(pending))
    ensures k < |cs| && InRange(Kids(cs, k), |cs|)
    ensures var next := Reversed(left + Reversed(Kids(cs, k)));
            && Grounded(cs, 0, next) && [k] + Preorder(cs, 0, next) == Preorder(cs, 0, Reversed(pending))
  {
    hide ParentOf, Preorder, Grounded;
    assert pending[..|pending| - 1] == left;
    ReplaceByKids(cs, k, Reversed(left));
    ReversedAppend(left, Reversed(Kids(cs, k)));
    ReversedTwice(Kids(cs, k));
  }

  lemma ReplaceByKids(cs: seq<Parsed>, k: nat, rest: seq<nat>)
    requires Grounded(cs, 0, [k] + rest)
    ensures k < |cs| && InRange(Kids(cs, k), |cs|)
    ensures Grounded(cs, 0, Kids(cs, k) + rest)
    ensures [k] + Preorder(cs, 0, Kids(cs, k) + rest) == Preorder(cs, 0, [k] + rest)
  {
    hide ParentOf, Preorder;
    var all, kids := [k] + rest, Kids(cs, k);
    assert all[0] == k && all[1..] == rest;
    Unfold(cs, 0, all);
    PreorderBound(cs, 0, k + 1, kids);
    PreorderAppend(cs, 0, kids, rest);
  }

  lemma FlattenEnd(cs: seq<Parsed>, done: seq<nat>)
    ensures Grounded(cs, 0, Reversed([])) && done + Preorder(cs, 0, Reversed([])) == done
  {
  }

  /** Nothing hangs under a comment before it arrives. */
  lemma {:induction false} UnderNothingYet(cs: seq<Parsed>, i: nat)
    requires i <= |cs|
    ensures forall k :: i <= k ==> Under(cs, i, Some(k)) == []
  {
    if i > 0 { UnderNothingYet(cs, i - 1); }
  }
}
