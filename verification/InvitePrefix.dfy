/** The shortened session id suggested for accepting an invite to a realtime session. */
module InvitePrefix {

  /** A session id in hexadecimal has 64 characters. */
  const RV_LEN: nat := 64

  type RV = s: string | |s| == 64 witness seq(64, _ => '0')

  datatype Invite = Invite(rv: RV, inviter: nat, details: nat)

  predicate HasPrefix(s: string, p: string) {
    |p| <= |s| && s[..|p|] == p
  }

  /** The first n characters of a session id also begin another one. */
  predicate Ambiguous(invites: seq<Invite>, rv: RV, n: nat)
    requires n <= RV_LEN
  {
    exists inv :: inv in invites && inv.rv != rv && HasPrefix(inv.rv, rv[..n])
  }

  /** A new invite to the same session by the same user takes the place of the old one. */
  function Stored(invites: seq<Invite>, inv: Invite): seq<Invite> {
    var r := Replaced(invites, inv);
    if exists h :: h in invites && SameInvite(h, inv) then r else r + [inv]
  }

  predicate SameInvite(a: Invite, b: Invite) { a.rv == b.rv && a.inviter == b.inviter }

  function Replaced(invites: seq<Invite>, inv: Invite): (r: seq<Invite>)
    ensures |r| == |invites|
    ensures forall i :: 0 <= i < |r| ==> r[i] == if SameInvite(invites[i], inv) then inv else invites[i]
  {
    if invites == [] then []
    else [if SameInvite(invites[0], inv) then inv else invites[0]] + Replaced(invites[1..], inv)
  }

  datatype Accepted = NotFound | TooMany | Found(invite: Invite)

  function Matching(invites: seq<Invite>, prefix: string): (r: seq<Invite>)
    ensures forall inv :: inv in r <==> inv in invites && HasPrefix(inv.rv, prefix)
  {
    if invites == [] then []
    else
      var last := invites[|invites| - 1];
      assert invites == invites[..|invites| - 1] + [last];
      Matching(invites[..|invites| - 1], prefix) + if HasPrefix(last.rv, prefix) then [last] else []
  }

  /** No session was invited to twice by one user. */
  predicate NoRepeats(invites: seq<Invite>) {
    forall i, j :: 0 <= i < j < |invites| ==> !SameInvite(invites[i], invites[j])
  }

  class AppState {
    var rtInvites: seq<Invite>

    constructor ()
      ensures rtInvites == []
    {
      rtInvites := [];
    }

    /**
     Stores the invite and suggests the shortest prefix of even length, from 4 on, that no other
     session's id begins with.
     */
    method OnInvited(invite: Invite) returns (prefix: string)
      modifies this
      ensures rtInvites == Stored(old(rtInvites), invite)
      ensures 4 <= |prefix| <= RV_LEN && |prefix| % 2 == 0 && HasPrefix(invite.rv, prefix)
      ensures !Ambiguous(rtInvites, invite.rv, |prefix|)
      ensures forall m: nat :: 4 <= m < |prefix| && m % 2 == 0 ==> Ambiguous(rtInvites, invite.rv, m)
    {
      var rv := invite.rv;
      ghost var was := rtInvites;
      prefix := rv[..4];
      var setInvite := false;
      for i := 0 to |rtInvites|
        invariant |rtInvites| == |was|
        invariant forall k :: 0 <= k < |was| ==>
                    rtInvites[k] == if k < i && SameInvite(was[k], invite) then invite else was[k]
        invariant setInvite <==> exists k :: 0 <= k < i && SameInvite(was[k], invite)
        invariant 4 <= |prefix| <= RV_LEN && |prefix| % 2 == 0 && prefix == rv[..|prefix|]
        invariant !Ambiguous(was[..i], rv, |prefix|)
        invariant forall m: nat :: 4 <= m < |prefix| && m % 2 == 0 ==> Ambiguous(was, rv, m)
      {
        var oldInv := rtInvites[i];
        assert oldInv == was[i] && was[..i + 1] == was[..i] + [was[i]];
        if oldInv.rv == rv && oldInv.inviter == invite.inviter {
          rtInvites := rtInvites[i := invite];
          setInvite := true;
        }
        if oldInv.rv != rv {
          ghost var before := |prefix|;
          prefix := Disambiguate(oldInv.rv, rv, prefix);
          if Ambiguous(was[..i], rv, |prefix|) { LongerIsClearer(was[..i], rv, before, |prefix|); }
        }
      }
      assert was[..|was|] == was;
      if !setInvite { rtInvites := rtInvites + [invite]; }
      StoredAs(was, invite, rtInvites, setInvite);
      StoredAmbiguous(was, invite, rv);
    }

    /** Lengthens the prefix, two characters at a time, until the other session's id does not begin with it. */
    static method Disambiguate(other: RV, rv: RV, prefix: string) returns (r: string)
      requires other != rv && |prefix| <= RV_LEN && |prefix| % 2 == 0 && prefix == rv[..|prefix|]
      ensures |prefix| <= |r| <= RV_LEN && |r| % 2 == 0 && r == rv[..|r|] && !HasPrefix(other, r)
      ensures forall m: nat :: |prefix| <= m < |r| && m % 2 == 0 ==> HasPrefix(other, rv[..m])
    {
      r := prefix;
      while HasPrefix(other, r)
        invariant |prefix| <= |r| <= RV_LEN && |r| % 2 == 0 && r == rv[..|r|]
        invariant forall m: nat :: |prefix| <= m < |r| && m % 2 == 0 ==> HasPrefix(other, rv[..m])
        decreases RV_LEN - |r|
      {
        WholeIdDiffers(other, rv, r);
        r := rv[..|r| + 2];
      }
    }

    /** The one stored invite whose session id begins with the text. */
    method Accept(prefix: string) returns (r: Accepted)
      ensures var m := Matching(rtInvites, prefix);
              r == if m == [] then NotFound else if |m| == 1 then Found(m[0]) else TooMany
    {
      r := NotFound;
      for i := 0 to |rtInvites|
        invariant r == (var m := Matching(rtInvites[..i], prefix); if m == [] then NotFound else Found(m[0]))
        invariant |Matching(rtInvites[..i], prefix)| <= 1
      {
        assert rtInvites[..i + 1][..i] == rtInvites[..i];
        if !HasPrefix(rtInvites[i].rv, prefix) { continue; }
        if r != NotFound {
          MatchingGrows(rtInvites, prefix, i + 1);
          return TooMany;
        }
        r := Found(rtInvites[i]);
      }
      assert rtInvites[..|rtInvites|] == rtInvites;
    }
  }

  lemma WholeIdDiffers(a: RV, b: RV, prefix: string)
    requires a != b && |prefix| <= RV_LEN && prefix == b[..|prefix|] && HasPrefix(a, prefix)
    ensures |prefix| < RV_LEN
  {}

  lemma LongerIsClearer(invites: seq<Invite>, rv: RV, m: nat, n: nat)
    requires m <= n <= RV_LEN && Ambiguous(invites, rv, n)
    ensures Ambiguous(invites, rv, m)
  {}

  lemma StoredAs(was: seq<Invite>, inv: Invite, now: seq<Invite>, found: bool)
    requires found <==> exists k :: 0 <= k < |was| && SameInvite(was[k], inv)
    requires |now| == |was| + if found then 0 else 1
    requires forall k :: 0 <= k < |was| ==> now[k] == if SameInvite(was[k], inv) then inv else was[k]
    requires !found ==> now[|was|] == inv
    ensures now == Stored(was, inv)
  {}

  /** Storing an invite changes nothing about the other sessions. */
  lemma StoredAmbiguous(invites: seq<Invite>, inv: Invite, rv: RV)
    requires rv == inv.rv
    ensures forall n: nat :: n <= RV_LEN ==> (Ambiguous(Stored(invites, inv), rv, n) <==> Ambiguous(invites, rv, n))
  {}

  lemma {:induction false} MatchingGrows(invites: seq<Invite>, prefix: string, n: nat)
    requires n <= |invites|
    ensures |Matching(invites[..n], prefix)| <= |Matching(invites, prefix)|
  {
    if n < |invites| {
      assert invites[..|invites| - 1][..n] == invites[..n];
      MatchingGrows(invites[..|invites| - 1], prefix, n);
    } else {
      assert invites[..n] == invites;
    }
  }

  /** The prefix suggested finds the invites to that session and no others. */
  lemma SuggestedFinds(invites: seq<Invite>, rv: RV, n: nat)
    requires n <= RV_LEN && !Ambiguous(invites, rv, n)
    ensures forall inv :: inv in Matching(invites, rv[..n]) <==> inv in invites && inv.rv == rv
  {}

  lemma StoredNoRepeats(invites: seq<Invite>, inv: Invite)
    requires NoRepeats(invites)
    ensures NoRepeats(Stored(invites, inv)) && inv in Stored(invites, inv)
  {
    var now := Stored(invites, inv);
    if h :| h in invites && SameInvite(h, inv) {
      var k :| 0 <= k < |invites| && invites[k] == h;
      assert now[k] == inv;
    } else {
      assert now[|invites|] == inv;
    }
  }

  lemma {:induction false} MatchingNoRepeats(invites: seq<Invite>, prefix: string)
    requires NoRepeats(invites)
    ensures NoRepeats(Matching(invites, prefix))
  {
    if invites != [] {
      var before, last := invites[..|invites| - 1], invites[|invites| - 1];
      MatchingNoRepeats(before, prefix);
      var m := Matching(before, prefix);
      forall i | 0 <= i < |m| ensures !SameInvite(m[i], last) {
        assert m[i] in m;
        var k :| 0 <= k < |before| && before[k] == m[i];
      }
    }
  }

  /**
   An invite just received is accepted under the suggested prefix unless someone else invited to the
   same session: then no prefix tells the two apart.
   */
  lemma SuggestionAccepted(was: seq<Invite>, inv: Invite, n: nat)
    requires NoRepeats(was) && n <= RV_LEN && !Ambiguous(Stored(was, inv), inv.rv, n)
    ensures var m := Matching(Stored(was, inv), inv.rv[..n]);
            m != [] && (m == [inv] <==> forall o :: o in was && o.rv == inv.rv ==> o.inviter == inv.inviter)
  {
    hide Stored, Matching, Ambiguous, NoRepeats;
    var now := Stored(was, inv);
    var m := Matching(now, inv.rv[..n]);
    StoredNoRepeats(was, inv);
    MatchingNoRepeats(now, inv.rv[..n]);
    SuggestedFinds(now, inv.rv, n);
    StoredSession(was, inv);
    assert inv in m;
    if forall o :: o in was && o.rv == inv.rv ==> o.inviter == inv.inviter {
      OnlyOne(m, inv);
    } else {
      var o :| o in was && o.rv == inv.rv && o.inviter != inv.inviter;
      assert o in m;
    }
  }

  /** The invites to the session after one is stored: it, and those of other users. */
  lemma StoredSession(was: seq<Invite>, inv: Invite)
    ensures forall o :: o in Stored(was, inv) && o.rv == inv.rv <==>
                        o == inv || (o in was && o.rv == inv.rv && o.inviter != inv.inviter)
  {}

  lemma OnlyOne(m: seq<Invite>, inv: Invite)
    requires NoRepeats(m) && inv in m && forall o :: o in m ==> SameInvite(o, inv)
    ensures m == [inv]
  {
    assert forall i :: 0 <= i < |m| ==> m[i] in m && SameInvite(m[i], inv);
    assert |m| > 1 ==> SameInvite(m[0], m[1]);
  }
}
