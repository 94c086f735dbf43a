/** The longest prefix that a list of strings shares. */
module CommonPrefix {

  predicate IsPrefix(p: string, s: string) {
    |p| <= |s| && s[..|p|] == p
  }

  predicate Shared(p: string, src: seq<string>) {
    forall i :: 0 <= i < |src| ==> IsPrefix(p, src[i])
  }

  /** The common prefix, empty for no strings: every shared prefix is a prefix of it. */
  method StringsCommonPrefix(src: seq<string>) returns (res: string)
    ensures src == [] ==> res == ""
    ensures src != [] ==> Shared(res, src) && forall p :: Shared(p, src) ==> IsPrefix(p, res)
  {
    if |src| == 0 { return ""; }
    res := src[0];
    for i := 1 to |src|
      invariant Shared(res, src[..i])
      invariant forall p :: Shared(p, src) ==> IsPrefix(p, res)
    {
      ghost var was := res;
      if |src[i]| < |res| { res := res[..|src[i]|]; }
      var j := 0;
      while j < |res| && res[j] == src[i][j]
        invariant j <= |res| && res[..j] == src[i][..j]
      {
        j := j + 1;
      }
      res := res[..j];
      NextShared(src, i, was, res);
      if |res| == 0 { return ""; }
    }
    assert src[..|src|] == src;
  }

  /** Cutting a prefix to what it shares with one more string loses no shared prefix. */
  lemma NextShared(src: seq<string>, i: nat, was: string, res: string)
    requires 0 < i < |src| && Shared(was, src[..i]) && forall p :: Shared(p, src) ==> IsPrefix(p, was)
    requires IsPrefix(res, was) && IsPrefix(res, src[i])
    requires |res| < |was| && |res| < |src[i]| ==> was[|res|] != src[i][|res|]
    ensures Shared(res, src[..i + 1]) && forall p :: Shared(p, src) ==> IsPrefix(p, res)
    ensures res == "" ==> Shared(res, src)
  {}
}
