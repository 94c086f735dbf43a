/**
 Group chat metadata ("group lists") and the rules for changing them: who may
 administer a group chat, which replacements of a stored list are accepted, and
 the list operations an administrator or a parting member causes.
 */
module GroupList {

  type UserID = nat
  type GCID = nat

  const MAX_GENERATION := 0xFFFF_FFFF_FFFF_FFFF

  /** The source's uint64 and uint8. */
  type Generation = g: nat | g <= MAX_GENERATION
  type Version = v: nat | v <= 255

  datatype GCMetadata = GCMetadata(
    id: GCID, name: string, generation: Generation, version: Version,
    members: seq<UserID>, extraAdmins: seq<UserID>)

  datatype Error =
    | NotFound | AlreadyExists | NoMembers | Backtrack | Downgrade | Renamed
    | OnlyOwner | NotPermitted | NotMember | AlreadyMember | CannotRemoveOwner
    | UnsupportedVersion | AlreadyOwner | UnknownUser | Expired | WrongUser | EmptyName | SessionRefuses

  datatype Result<+T> = Ok(value: T) | Err(error: Error)

  /** The unsigned 64-bit increment: it wraps. */
  function Bump(g: Generation): Generation {
    if g == MAX_GENERATION then 0 else g + 1
  }

  /** Permission to modify a group chat, by its version. */
  predicate HasPerm(gl: GCMetadata, uid: UserID) {
    if gl.version == 0 then
      |gl.members| > 0 && gl.members[0] == uid
    else if gl.version == 1 then
      (|gl.members| > 0 && gl.members[0] == uid) || uid in gl.extraAdmins
    else
      false
  }

  /** The guard every replacement of a stored list goes through, checks in the source's order. */
  function CheckUpdate(prev: GCMetadata, next: GCMetadata, updater: UserID): Result<GCMetadata> {
    if next.generation < prev.generation then Err(Backtrack)
    else if next.version < prev.version then Err(Downgrade)
    else if next.name != prev.name then Err(Renamed)
    else if |prev.members| == 0 || |next.members| == 0 then Err(NoMembers)
    else if prev.members[0] != next.members[0] && prev.members[0] != updater then Err(OnlyOwner)
    else if !HasPerm(prev, updater) then Err(NotPermitted)
    else Ok(next)
  }

  /** s without its first occurrence of u. */
  function Without(s: seq<UserID>, u: UserID): seq<UserID> {
    if s == [] then []
    else if s[0] == u then s[1..]
    else [s[0]] + Without(s[1..], u)
  }

  function AddMember(gl: GCMetadata, u: UserID): GCMetadata {
    gl.(members := gl.members + [u], generation := Bump(gl.generation))
  }

  /** Removal of a member; only an administrator's removal bumps the generation. */
  function RemoveMember(gl: GCMetadata, u: UserID, asAdmin: bool): Result<GCMetadata> {
    if u !in gl.members then Err(NotMember)
    else if gl.members[0] == u then Err(CannotRemoveOwner)
    else Ok(gl.(members := Without(gl.members, u),
                extraAdmins := Without(gl.extraAdmins, u),
                generation := if asAdmin then Bump(gl.generation) else gl.generation))
  }

  function SetVersion(gl: GCMetadata, v: Version): Result<GCMetadata> {
    if gl.version >= v then Err(Downgrade)
    else Ok(gl.(version := v, generation := Bump(gl.generation)))
  }

  /** The first problem with a proposed list of extra administrators. */
  function CheckAdmins(admins: seq<UserID>, members: seq<UserID>, known: set<UserID>): (r: Result<()>)
    ensures r.Ok? <==> forall u :: u in admins ==> u in members && u in known
  {
    if admins == [] then Ok(())
    else if admins[0] !in members then Err(NotMember)
    else if admins[0] !in known then Err(UnknownUser)
    else CheckAdmins(admins[1..], members, known)
  }

  function SetAdmins(gl: GCMetadata, admins: seq<UserID>, known: set<UserID>): Result<GCMetadata> {
    if gl.version < 1 then Err(UnsupportedVersion)
    else
      var checked := CheckAdmins(admins, gl.members, known);
      if checked.Err? then Err(checked.error)
      else Ok(gl.(extraAdmins := admins, generation := Bump(gl.generation)))
  }

  function IndexOf(s: seq<UserID>, u: UserID): (i: nat)
    requires u in s
    ensures i < |s| && s[i] == u && u !in s[..i]
  {
    if s[0] == u then 0 else 1 + IndexOf(s[1..], u)
  }

  function SwapFirst(s: seq<UserID>, i: nat): seq<UserID>
    requires i < |s|
  {
    s[0 := s[i]][i := s[0]]
  }

  function SetOwner(gl: GCMetadata, u: UserID): Result<GCMetadata> {
    if gl.version < 1 then Err(UnsupportedVersion)
    else if u !in gl.members then Err(NotMember)
    else if gl.members[0] == u then Err(AlreadyOwner)
    else Ok(gl.(members := SwapFirst(gl.members, IndexOf(gl.members, u)),
                extraAdmins := Without(gl.extraAdmins, u),
                generation := Bump(gl.generation)))
  }

  // ---------- The shape of a list ----------

  predicate NoDup(s: seq<UserID>) {
    forall i, j :: 0 <= i < j < |s| ==> s[i] != s[j]
  }

  /**
   Non-empty members without repetition; extra administrators without
   repetition, all of them members, none of them the owner.
   */
  predicate Shape(gl: GCMetadata) {
    && gl.members != []
    && NoDup(gl.members)
    && NoDup(gl.extraAdmins)
    && (forall u :: u in gl.extraAdmins ==> u in gl.members)
    && gl.members[0] !in gl.extraAdmins
  }

  /** What Without leaves: everything but one copy of u, in the same order. */
  lemma {:induction false} WithoutSplits(s: seq<UserID>, u: UserID)
    ensures u !in s ==> Without(s, u) == s
    ensures u in s ==> var i := IndexOf(s, u); Without(s, u) == s[..i] + s[i + 1..]
  {
    if s != [] && s[0] != u {
      var t := s[1..];
      WithoutSplits(t, u);
      assert s == [s[0]] + t;
      if u in s {
        var j := IndexOf(t, u);
        assert s[..j + 1] == [s[0]] + t[..j] && s[j + 2..] == t[j + 1..];
      }
    }
  }

  lemma WithoutNoDup(s: seq<UserID>, u: UserID)
    requires NoDup(s)
    ensures NoDup(Without(s, u))
    ensures u !in Without(s, u)
    ensures forall x :: x in Without(s, u) <==> x in s && x != u
  {
    WithoutSplits(s, u);
    var w := Without(s, u);
    if u in s {
      var i := IndexOf(s, u);
      forall x ensures x in w <==> x in s && x != u {
        if x in s && x != u {
          var k := IndexOf(s, x);
          assert k < i ==> w[k] == x;
          assert k > i ==> w[k - 1] == x;
        }
      }
    }
  }

  lemma AddMemberKeepsShape(gl: GCMetadata, u: UserID)
    requires Shape(gl) && u !in gl.members
    ensures Shape(AddMember(gl, u))
  {}

  lemma RemoveMemberKeepsShape(gl: GCMetadata, u: UserID, asAdmin: bool)
    requires Shape(gl)
    ensures var r := RemoveMember(gl, u, asAdmin);
            r.Ok? ==> Shape(r.value) && !HasPerm(r.value, u) && r.value.members[0] == gl.members[0]
  {
    WithoutNoDup(gl.members, u);
    WithoutNoDup(gl.extraAdmins, u);
  }

  /**
   Replacing the extra administrators keeps the shape exactly for a list
   without repetition and without the owner: the source checks neither.
   */
  lemma SetAdminsShape(gl: GCMetadata, admins: seq<UserID>, known: set<UserID>)
    requires Shape(gl)
    ensures var r := SetAdmins(gl, admins, known);
            r.Ok? ==> (Shape(r.value) <==> NoDup(admins) && gl.members[0] !in admins)
  {
  }

  lemma {:induction false} WithoutCounts(s: seq<UserID>, u: UserID)
    ensures multiset(Without(s, u))[u] == if u in s then multiset(s)[u] - 1 else 0
  {
    if s != [] {
      assert s == [s[0]] + s[1..];
      if s[0] != u { WithoutCounts(s[1..], u); }
    }
  }

  /** Who keeps its permission after being removed: just those named twice or more as extra administrators. */
  lemma RemovedKeepsPerm(gl: GCMetadata, u: UserID, asAdmin: bool)
    requires RemoveMember(gl, u, asAdmin).Ok?
    ensures HasPerm(RemoveMember(gl, u, asAdmin).value, u) <==> gl.version == 1 && multiset(gl.extraAdmins)[u] >= 2
  {
    WithoutCounts(gl.extraAdmins, u);
    WithoutSplits(gl.members, u);
    assert u in Without(gl.extraAdmins, u) <==> u in multiset(Without(gl.extraAdmins, u));
  }

  /** A concrete repeated administrator list that SetAdmins accepts: kicking that member leaves it an administrator. */
  lemma RepeatedAdminSurvivesKick()
    ensures var gl := GCMetadata(1, "gc", 1, 1, [10, 20], []);
            var r := SetAdmins(gl, [20, 20], {20});
            r.Ok? && Shape(gl) && !Shape(r.value) &&
            var k := RemoveMember(r.value, 20, true);
            k.Ok? && 20 !in k.value.members && HasPerm(k.value, 20)
  {}

  /** Handing over the ownership permutes the members, and the old owner loses its permission. */
  lemma SetOwnerHandsOver(gl: GCMetadata, u: UserID)
    requires Shape(gl)
    ensures var r := SetOwner(gl, u);
            r.Ok? ==>
              && Shape(r.value)
              && multiset(r.value.members) == multiset(gl.members)
              && r.value.members[0] == u
              && HasPerm(r.value, u) == (gl.version == 1)
              && !HasPerm(r.value, gl.members[0])
  {
    var r := SetOwner(gl, u);
    if r.Ok? {
      WithoutNoDup(gl.extraAdmins, u);
      var i := IndexOf(gl.members, u);
      var w := r.value.members;
      SwapFirstPermutes(gl.members, i);
      forall x | x in gl.members ensures x in w {
        assert x in multiset(gl.members);
      }
    }
  }

  lemma SwapFirstPermutes(s: seq<UserID>, i: nat)
    requires i < |s|
    ensures multiset(SwapFirst(s, i)) == multiset(s)
  {}

  // ---------- Members missing from a list ----------

  /** s with every user of r dropped, order kept. */
  function Drop(s: seq<UserID>, r: set<UserID>): seq<UserID> {
    if s == [] then []
    else if s[0] in r then Drop(s[1..], r)
    else [s[0]] + Drop(s[1..], r)
  }

  lemma {:induction false} DropMembers(s: seq<UserID>, r: set<UserID>)
    ensures forall x :: x in Drop(s, r) <==> x in s && x !in r
    ensures NoDup(s) ==> NoDup(Drop(s, r))
  {
    if s != [] {
      DropMembers(s[1..], r);
      assert s == [s[0]] + s[1..];
      if NoDup(s) {
        assert forall i, j :: 0 <= i < j < |s[1..]| ==> s[1..][i] == s[i + 1] && s[1..][j] == s[j + 1];
        assert s[0] !in s[1..];
      }
    }
  }

  lemma {:induction false} DropNone(s: seq<UserID>, r: set<UserID>)
    requires forall x :: x in s ==> x !in r
    ensures Drop(s, r) == s
  {
    if s != [] {
      assert s[0] in s;
      assert forall x :: x in s[1..] ==> x in s;
      DropNone(s[1..], r);
    }
  }

  /** Removing one more user from a list with some users missing. */
  lemma {:induction false} WithoutAfterDrop(s: seq<UserID>, r: set<UserID>, u: UserID)
    requires NoDup(s)
    ensures Without(Drop(s, r), u) == Drop(s, r + {u})
  {
    if s != [] {
      assert NoDup(s[1..]);
      WithoutAfterDrop(s[1..], r, u);
      if s[0] == u && s[0] !in r {
        assert forall k :: 0 <= k < |s[1..]| ==> s[1..][k] == s[k + 1];
        DropSame(s[1..], r, u);
      }
    }
  }

  lemma {:induction false} DropSame(s: seq<UserID>, r: set<UserID>, u: UserID)
    requires u !in s
    ensures Drop(s, r) == Drop(s, r + {u})
  {
    if s != [] {
      assert s[0] in s;
      DropSame(s[1..], r, u);
    }
  }
}
