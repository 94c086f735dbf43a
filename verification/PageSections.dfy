/**
 Sections of a page that a reply replaces asynchronously. The page is a byte
 slice edited in place: truncated at the end of the section's start marker and
 appended to, with an auxiliary buffer for the bytes after the section.
 */
module PageSections {

  newtype byte = b: int | 0 <= b < 256

  datatype Option<+T> = None | Some(value: T)

  const DASH: byte := 45
  const SLASH: byte := 47
  const NEWLINE: byte := 10

  /** "--section id=" */
  const START_OPEN: seq<byte> := [45, 45, 115, 101, 99, 116, 105, 111, 110, 32, 105, 100, 61]
  /** " --\n" */
  const START_CLOSE: seq<byte> := [32, 45, 45, 10]
  /** "--/section--" */
  const END: seq<byte> := [45, 45, 47, 115, 101, 99, 116, 105, 111, 110, 45, 45]
  /** "(⏳ Loading response)\n" in UTF-8 */
  const LOADING: seq<byte> :=
    [40, 0xE2, 0x8F, 0xB3, 32, 76, 111, 97, 100, 105, 110, 103, 32, 114, 101, 115, 112, 111, 110, 115, 101, 41, 10]

  /** Letters, digits and underscore: the ids whose pattern matches only itself. */
  predicate IsWord(id: seq<byte>) {
    forall c :: c in id ==> 48 <= c <= 57 || 65 <= c <= 90 || c == 95 || 97 <= c <= 122
  }

  function Start(id: seq<byte>): seq<byte> { START_OPEN + id + START_CLOSE }

  // ---------- Literal search ----------

  predicate Matches(data: seq<byte>, pat: seq<byte>, p: nat) {
    p + |pat| <= |data| && forall k :: 0 <= k < |pat| ==> data[p + k] == pat[k]
  }

  /** The leftmost match from i on. */
  function Find(data: seq<byte>, pat: seq<byte>, i: nat): (r: Option<nat>)
    ensures r.Some? ==> i <= r.value && Matches(data, pat, r.value)
    ensures forall k :: i <= k && (r.Some? ==> k < r.value) ==> !Matches(data, pat, k)
    decreases |data| - i
  {
    if i + |pat| > |data| then None
    else if Matches(data, pat, i) then Some(i)
    else if i >= |data| then None
    else Find(data, pat, i + 1)
  }

  /** The section of an id: the end of its start marker and the place of the end marker after it. */
  datatype Section = Section(begin: nat, end: nat)

  function Locate(data: seq<byte>, id: seq<byte>): (r: Option<Section>)
    ensures r.Some? ==> |Start(id)| <= r.value.begin <= r.value.end && r.value.end + |END| <= |data|
  {
    LocateFrom(data, id, 0)
  }

  /** The first section of an id whose start marker is at i or later. */
  function LocateFrom(data: seq<byte>, id: seq<byte>, i: nat): (r: Option<Section>)
    ensures r.Some? ==> i + |Start(id)| <= r.value.begin <= r.value.end && r.value.end + |END| <= |data|
  {
    var s := Find(data, Start(id), i);
    if s.None? then None
    else
      var begin := s.value + |Start(id)|;
      var e := Find(data, END, begin);
      if e.None? then None else Some(Section(begin, e.value))
  }

  /** The page with the section's contents replaced; the page itself when there is no such section. */
  function Splice(data: seq<byte>, id: seq<byte>, body: seq<byte>): seq<byte> {
    var s := Locate(data, id);
    if s.None? then data else data[..s.value.begin] + body + data[s.value.end..]
  }

  datatype Reply = Reply(id: seq<byte>, body: seq<byte>)

  function SpliceAll(data: seq<byte>, replies: seq<Reply>): seq<byte> {
    if replies == [] then data
    else Splice(SpliceAll(data, replies[..|replies| - 1]), replies[|replies| - 1].id, replies[|replies| - 1].body)
  }

  // ---------- The bytes of the markers ----------

  lemma StartBytes(id: seq<byte>)
    requires IsWord(id)
    ensures |Start(id)| == |id| + 17
    ensures forall k :: 0 <= k < |Start(id)| ==> Start(id)[k] != SLASH
    ensures forall k :: 0 <= k < |Start(id)| ==> (Start(id)[k] == NEWLINE <==> k == |Start(id)| - 1)
  {
    var m, o := Start(id), |START_OPEN|;
    forall k | 0 <= k < |m| ensures m[k] != SLASH && (m[k] == NEWLINE <==> k == |m| - 1) {
      if o <= k < o + |id| { assert m[k] == id[k - o] && id[k - o] in id; }
      if k >= o + |id| { assert m[k] == START_CLOSE[k - o - |id|]; }
    }
  }

  /** A body that ends in a newline and holds no end marker (or is empty). */
  ghost predicate Closed(body: seq<byte>) {
    && (body == [] || body[|body| - 1] == NEWLINE)
    && forall k: nat :: !Matches(body, END, k)
  }

  ghost predicate HasNoStart(body: seq<byte>, id: seq<byte>) {
    forall k: nat :: !Matches(body, Start(id), k)
  }

  lemma LoadingClosed()
    ensures Closed(LOADING)
  {
    forall k: nat ensures !Matches(LOADING, END, k) {
      if Matches(LOADING, END, k) { MatchAt(LOADING, END, k, 0); }
    }
  }

  lemma MatchAt(data: seq<byte>, pat: seq<byte>, p: nat, k: nat)
    requires Matches(data, pat, p) && k < |pat|
    ensures data[p + k] == pat[k]
  {}

  /** A match in the part two texts share. */
  lemma SharedMatch(x: seq<byte>, y: seq<byte>, pat: seq<byte>, p: nat, q: nat)
    requires p + |pat| <= |x| && q + |pat| <= |y|
    requires forall i :: p <= i < p + |pat| ==> x[i] == y[i - p + q]
    ensures Matches(x, pat, p) == Matches(y, pat, q)
  {}

  /** Byte by byte, what a splice keeps, brings in and moves. */
  lemma SpliceBytes(data: seq<byte>, id: seq<byte>, body: seq<byte>)
    requires Locate(data, id).Some?
    ensures var Section(begin, end) := Locate(data, id).value; var next := Splice(data, id, body);
            && |next| == |data| + |body| - (end - begin)
            && next[begin..begin + |body|] == body
            && (forall i :: 0 <= i < begin ==> next[i] == data[i])
            && (forall i :: begin <= i < begin + |body| ==> next[i] == body[i - begin])
            && (forall i :: begin + |body| <= i < |next| ==> next[i] == data[i - |body| + end - begin])
  {}

  /** What is searched and found when a section is there. */
  lemma LocateFinds(data: seq<byte>, id: seq<byte>)
    requires Locate(data, id).Some?
    ensures var Section(begin, end) := Locate(data, id).value; var m := Start(id);
            begin >= |m| && Find(data, m, 0) == Some(begin - |m|) && Find(data, END, begin) == Some(end)
  {}

  /** A section starts at the first start marker of its id and ends at the first end marker behind that. */
  lemma SectionIs(data: seq<byte>, id: seq<byte>, p: nat, e: nat)
    requires var m := START_OPEN + id + START_CLOSE;
             && Matches(data, m, p) && Matches(data, END, e) && p + |m| <= e
             && (forall k: nat :: k < p ==> !Matches(data, m, k))
             && (forall k: nat :: p + |m| <= k < e ==> !Matches(data, END, k))
    ensures Locate(data, id) == Some(Section(p + |START_OPEN + id + START_CLOSE|, e))
  {
    hide Matches;
    assert Find(data, Start(id), 0) == Some(p);
    assert Find(data, END, p + |Start(id)|) == Some(e);
  }

  /** An end marker behind the first start marker of the id. */
  predicate Encloses(data: seq<byte>, m: seq<byte>, p: nat, e: nat) {
    && Matches(data, m, p) && (forall k :: 0 <= k < p ==> !Matches(data, m, k))
    && p + |m| <= e && Matches(data, END, e)
  }

  /** There is no section only without a start marker, or without an end marker behind the first one. */
  lemma NoSection(data: seq<byte>, id: seq<byte>, p: nat, e: nat)
    requires Locate(data, id).None?
    ensures !Encloses(data, START_OPEN + id + START_CLOSE, p, e)
  {
    hide Matches;
  }

  // ---------- A section replaced twice ----------

  /** After a closed body went in, the section is where it was and holds that body. */
  lemma SpliceRelocates(data: seq<byte>, id: seq<byte>, body: seq<byte>)
    requires Locate(data, id).Some? && Closed(body)
    ensures var begin := Locate(data, id).value.begin;
            Locate(Splice(data, id, body), id) == Some(Section(begin, begin + |body|))
  {
    hide Find, Matches, Splice, Start;
    var Section(begin, end) := Locate(data, id).value;
    var next, m := Splice(data, id, body), Start(id);
    var s := begin - |m|;
    LocateFinds(data, id);
    SpliceBytes(data, id, body);
    forall k | 0 <= k <= s ensures Matches(next, m, k) == Matches(data, m, k) {
      SharedMatch(next, data, m, k, k);
    }
    assert Find(next, m, 0) == Some(s);
    SharedMatch(next, data, END, begin + |body|, end);
    forall k | begin <= k < begin + |body| ensures !Matches(next, END, k) {
      if k + |END| <= begin + |body| {
        SharedMatch(next, body, END, k, k - begin);
      } else if Matches(next, END, k) {
        MatchAt(next, END, k, begin + |body| - 1 - k);
      }
    }
    assert Find(next, END, begin) == Some(begin + |body|);
  }

  /** Only the last of two replies to a section shows, when the first is closed. */
  lemma LastReplyWins(data: seq<byte>, id: seq<byte>, first: seq<byte>, body: seq<byte>)
    requires Closed(first)
    ensures Splice(Splice(data, id, first), id, body) == Splice(data, id, body)
  {
    var at := Locate(data, id);
    if at.Some? {
      SpliceRelocates(data, id, first);
      var next, b := Splice(data, id, first), at.value.begin;
      assert next[..b] == data[..b];
      assert next[b + |first|..] == data[at.value.end..];
    }
  }

  /** Showing the loading text before the reply leaves no trace of it. */
  lemma LoadingThenReply(data: seq<byte>, id: seq<byte>, body: seq<byte>)
    ensures Splice(Splice(data, id, LOADING), id, body) == Splice(data, id, body)
  {
    LoadingClosed();
    LastReplyWins(data, id, LOADING, body);
  }

  // ---------- Replies to different sections ----------

  /** No start marker appears in, or across the edges of, a closed body spliced in after a newline. */
  lemma NoStartAcross(next: seq<byte>, m: seq<byte>, b: seq<byte>, begin: nat, body: seq<byte>, k: nat)
    requires IsWord(b) && m == Start(b) && Closed(body) && HasNoStart(body, b)
    requires 0 < begin && begin + |body| <= |next| && next[begin - 1] == NEWLINE
    requires next[begin..begin + |body|] == body
    requires k < begin + |body| && k + |m| > begin
    ensures !Matches(next, m, k)
  {
    hide Matches, Start;
    StartBytes(b);
    if Matches(next, m, k) {
      if k < begin {
        MatchAt(next, m, k, begin - 1 - k);
      } else if k + |m| > begin + |body| {
        MatchAt(next, m, k, begin + |body| - 1 - k);
      } else {
        SharedMatch(next, body, m, k, k - begin);
      }
    }
  }

  function Shift(s: Option<Section>, d: int): Option<Section>
    requires s.Some? ==> s.value.begin + d >= 0 && s.value.end + d >= 0
  {
    if s.None? then None else Some(Section(s.value.begin + d, s.value.end + d))
  }

  lemma StartEndsInNewline(data: seq<byte>, id: seq<byte>)
    requires Locate(data, id).Some?
    ensures Locate(data, id).value.begin > 0 && data[Locate(data, id).value.begin - 1] == NEWLINE
  {
    var m, begin := Start(id), Locate(data, id).value.begin;
    assert m[|m| - 1] == START_CLOSE[3];
    MatchAt(data, m, begin - |m|, |m| - 1);
  }

  /**
   Where b's section is once a's is replaced, when b's marker does not come before a's section: the
   first one from the end of a's section on, moved by the change of length.
   */
  lemma LocateAfter(data: seq<byte>, a: seq<byte>, body: seq<byte>, b: seq<byte>)
    requires IsWord(b) && Locate(data, a).Some? && Closed(body) && HasNoStart(body, b)
    requires var p := Find(data, Start(b), 0);
             p.Some? ==> p.value + |Start(b)| > Locate(data, a).value.begin
    ensures var at := Locate(data, a).value;
            Locate(Splice(data, a, body), b) == Shift(LocateFrom(data, b, at.end), |body| - (at.end - at.begin))
  {
    hide Find, Matches, Splice, Start;
    var Section(begin, end) := Locate(data, a).value;
    var next, m, d := Splice(data, a, body), Start(b), |body| - (end - begin);
    SpliceBytes(data, a, body);
    StartBytes(b);
    StartEndsInNewline(data, a);
    forall k: nat | k < begin + |body| ensures !Matches(next, m, k) {
      if k + |m| <= begin {
        SharedMatch(next, data, m, k, k);
      } else {
        NoStartAcross(next, m, b, begin, body, k);
      }
    }
    FindSkips(next, m, 0, begin + |body|);
    FindMoves(data, next, m, end, d);
    var p := Find(data, m, end);
    if p.Some? {
      FindMoves(data, next, END, p.value + |m|, d);
    }
  }

  /** A section that ends before a's marker begins stays where it is when a's is replaced. */
  lemma LocateBefore(data: seq<byte>, a: seq<byte>, body: seq<byte>, b: seq<byte>)
    requires IsWord(a) && IsWord(b) && Locate(data, a).Some? && Locate(data, b).Some?
    requires Locate(data, b).value.end + |Start(a)| <= Locate(data, a).value.begin
    ensures Locate(Splice(data, a, body), b) == Locate(data, b)
  {
    hide Find, Matches, Splice, Start;
    var next, m := Splice(data, a, body), Start(b);
    var Section(begin, end) := Locate(data, b).value;
    LocateFinds(data, b);
    SpliceBytes(data, a, body);
    StartBytes(a);
    FindStays(data, next, m, 0, begin - |m|);
    FindStays(data, next, END, begin, end);
  }

  /** What is found depends on the bytes up to the end of the match only. */
  lemma FindStays(data: seq<byte>, next: seq<byte>, pat: seq<byte>, i: nat, p: nat)
    requires Find(data, pat, i) == Some(p) && p + |pat| <= |next|
    requires forall k :: 0 <= k < p + |pat| ==> k < |data| && next[k] == data[k]
    ensures Find(next, pat, i) == Some(p)
  {
    hide Matches;
    FitsIn(data, pat, p);
    forall k: nat | i <= k <= p ensures Matches(next, pat, k) == Matches(data, pat, k) {
      SharedMatch(next, data, pat, k, k);
    }
    assert Find(next, pat, i).Some?;
  }

  lemma FindSkips(data: seq<byte>, pat: seq<byte>, i: nat, q: nat)
    requires i <= q && forall k: nat :: i <= k < q ==> !Matches(data, pat, k)
    ensures Find(data, pat, i) == Find(data, pat, q)
  {}

  /** A search through a text whose bytes moved by d. */
  lemma FindMoves(data: seq<byte>, next: seq<byte>, pat: seq<byte>, i: nat, d: int)
    requires |next| == |data| + d && 0 <= i + d
    requires forall k :: i + d <= k < |next| ==> next[k] == data[k - d]
    ensures var f := Find(data, pat, i);
            Find(next, pat, i + d) == if f.None? then None else Some(f.value + d)
  {
    hide Matches;
    var f, g := Find(data, pat, i), Find(next, pat, i + d);
    if f.Some? {
      assert f.value + |pat| <= |data| by { FitsIn(data, pat, f.value); }
      SharedMatch(next, data, pat, f.value + d, f.value);
    }
    if g.Some? {
      assert g.value + |pat| <= |next| by { FitsIn(next, pat, g.value); }
      SharedMatch(next, data, pat, g.value, g.value - d);
    }
  }

  lemma FitsIn(data: seq<byte>, pat: seq<byte>, p: nat)
    requires Matches(data, pat, p)
    ensures p + |pat| <= |data|
  {}

  /** Two start markers do not overlap. */
  lemma StartsApart(data: seq<byte>, a: seq<byte>, b: seq<byte>, p: nat, q: nat)
    requires IsWord(a) && IsWord(b) && a != b
    requires Matches(data, Start(a), p) && Matches(data, Start(b), q) && p <= q
    ensures p + |Start(a)| <= q
  {
    hide Start, Matches;
    var ma, mb := Start(a), Start(b);
    StartBytes(a);
    StartBytes(b);
    if q < p + |ma| {
      SameEnd(data, ma, mb, p, q);
      if p == q {
        SameMarker(data, a, b, p);
      } else {
        var o: nat := q - p;
        StartOpens(a);
        StartOpens(b);
        if o >= 13 { StartNames(a, o - 13); }
        MatchAt(data, ma, p, o);
        MatchAt(data, mb, q, 0);
        MatchAt(data, ma, p, o + 1);
        MatchAt(data, mb, q, 1);
      }
    }
  }

  lemma SameMarker(data: seq<byte>, a: seq<byte>, b: seq<byte>, p: nat)
    requires |a| == |b| && Matches(data, Start(a), p) && Matches(data, Start(b), p)
    ensures a == b
  {
    forall k | 0 <= k < |a| ensures a[k] == b[k] {
      MatchAt(data, Start(a), p, 13 + k);
      MatchAt(data, Start(b), p, 13 + k);
    }
  }

  lemma SameEnd(data: seq<byte>, ma: seq<byte>, mb: seq<byte>, p: nat, q: nat)
    requires Matches(data, ma, p) && Matches(data, mb, q) && p <= q < p + |ma| && 0 < |mb|
    requires forall k :: 0 <= k < |ma| ==> (ma[k] == NEWLINE <==> k == |ma| - 1)
    requires forall k :: 0 <= k < |mb| ==> (mb[k] == NEWLINE <==> k == |mb| - 1)
    ensures p + |ma| == q + |mb|
  {
    hide Matches;
    if p + |ma| < q + |mb| {
      MatchAt(data, ma, p, |ma| - 1);
      MatchAt(data, mb, q, p + |ma| - 1 - q);
    } else if q + |mb| < p + |ma| {
      MatchAt(data, mb, q, |mb| - 1);
      MatchAt(data, ma, p, q + |mb| - 1 - p);
    }
  }

  lemma StartOpens(id: seq<byte>)
    ensures |Start(id)| >= 17 && Start(id)[0] == DASH && Start(id)[1] == DASH
    ensures forall k :: 2 <= k < 13 ==> Start(id)[k] != DASH
  {}

  lemma StartNames(id: seq<byte>, k: nat)
    requires IsWord(id) && k < |id|
    ensures |Start(id)| > 13 + k && Start(id)[13 + k] != DASH
  {
    assert id[k] in id;
  }

  /** An end marker does not begin inside a start marker. */
  lemma EndOutsideStart(data: seq<byte>, id: seq<byte>, p: nat, e: nat)
    requires IsWord(id) && Matches(data, Start(id), p) && Matches(data, END, e)
    ensures e <= p || p + |Start(id)| <= e
  {
    hide Start, Matches;
    var m := Start(id);
    StartBytes(id);
    if p < e < p + |m| {
      var k: nat := if e + 2 < p + |m| then 2 else p + |m| - 1 - e;
      MatchAt(data, m, p, e + k - p);
      MatchAt(data, END, e, k);
    }
  }

  /** A section that is missing is missing from every later place. */
  lemma MissingFrom(data: seq<byte>, id: seq<byte>, i: nat)
    requires Locate(data, id).None?
    ensures LocateFrom(data, id, i).None?
  {}

  /** Replacing another section brings no missing section into being. */
  lemma MissingStays(data: seq<byte>, a: seq<byte>, body: seq<byte>, b: seq<byte>)
    requires IsWord(b) && Closed(body) && HasNoStart(body, b) && Locate(data, b).None?
    ensures Locate(Splice(data, a, body), b).None?
  {
    hide Find, Matches, Start;
    if Locate(data, a).Some? {
      var Section(begin, end) := Locate(data, a).value;
      LocateFinds(data, a);
      MissingFrom(data, b, end);
      LocateAfter(data, a, body, b);
    }
  }

  /** b's section begins inside a's. */
  predicate Nested(data: seq<byte>, a: seq<byte>, b: seq<byte>) {
    && Locate(data, a).Some? && Locate(data, b).Some?
    && var A, B := Locate(data, a).value, Locate(data, b).value;
       A.begin <= B.begin - |Start(b)| < A.end
  }

  /** b's section is nested in a's and b has another section behind it, with contents other than the reply. */
  predicate Shadowed(data: seq<byte>, a: seq<byte>, b: seq<byte>, body: seq<byte>) {
    && Nested(data, a, b)
    && var again := LocateFrom(data, b, Locate(data, a).value.end);
       again.Some? && data[again.value.begin..again.value.end] != body
  }

  lemma TwoSplices(data: seq<byte>, x: Section, y: Section, u: seq<byte>, v: seq<byte>)
    requires x.begin <= x.end <= y.begin <= y.end <= |data|
    ensures var d := |u| - (x.end - x.begin);
            var first := data[..x.begin] + u + data[x.end..];
            var second := data[..y.begin] + v + data[y.end..];
            first[..y.begin + d] + v + first[y.end + d..] == second[..x.begin] + u + second[x.end..]
  {}

  lemma SpliceAt(data: seq<byte>, id: seq<byte>, body: seq<byte>, s: Section)
    requires Locate(data, id) == Some(s)
    ensures s.begin <= s.end <= |data| && Splice(data, id, body) == data[..s.begin] + body + data[s.end..]
  {}

  /** The reply to a section outside the other one, whichever comes first, gives the same page. */
  lemma ApartCommute(data: seq<byte>, a: seq<byte>, ab: seq<byte>, b: seq<byte>, bb: seq<byte>)
    requires IsWord(a) && IsWord(b) && Closed(ab) && HasNoStart(ab, b)
    requires Locate(data, a).Some? && Locate(data, b).Some?
    requires Locate(data, a).value.end + |Start(b)| <= Locate(data, b).value.begin
    ensures Splice(Splice(data, a, ab), b, bb) == Splice(Splice(data, b, bb), a, ab)
  {
    hide Find, Matches, Start, LocateFrom, Locate, Splice;
    var x, y := Locate(data, a).value, Locate(data, b).value;
    StartBytes(b);
    StartFound(data, b);
    SameFrom(data, b, x.end);
    LocateAfter(data, a, ab, b);
    LocateBefore(data, b, bb, a);
    SpliceAt(data, a, ab, x);
    SpliceAt(data, b, bb, y);
    var d := |ab| - (x.end - x.begin);
    SpliceAt(Splice(data, a, ab), b, bb, Section(y.begin + d, y.end + d));
    SpliceAt(Splice(data, b, bb), a, ab, x);
    TwoSplices(data, x, y, ab, bb);
  }

  lemma StartFound(data: seq<byte>, id: seq<byte>)
    requires Locate(data, id).Some?
    ensures Find(data, Start(id), 0) == Some(Locate(data, id).value.begin - |Start(id)|)
  {}

  lemma SameFrom(data: seq<byte>, id: seq<byte>, i: nat)
    requires Locate(data, id).Some? && i + |Start(id)| <= Locate(data, id).value.begin
    ensures LocateFrom(data, id, i) == Locate(data, id)
  {
    hide Find, Matches, Start;
    LocateFinds(data, id);
    FindSkips(data, Start(id), 0, i);
  }

  /** Of two sections, one ends before the other's marker, or both end at the same place. */
  lemma ApartOrNested(data: seq<byte>, a: seq<byte>, b: seq<byte>)
    requires IsWord(a) && IsWord(b) && a != b && Locate(data, a).Some? && Locate(data, b).Some?
    requires Locate(data, a).value.begin < Locate(data, b).value.begin
    ensures var x, y := Locate(data, a).value, Locate(data, b).value;
            x.end + |Start(b)| <= y.begin || (x.begin + |Start(b)| <= y.begin && x.end == y.end)
  {
    hide Matches, Start;
    var x, y := Locate(data, a).value, Locate(data, b).value;
    LocateFinds(data, a);
    LocateFinds(data, b);
    var p, q := x.begin - |Start(a)|, y.begin - |Start(b)|;
    if q < p {
      StartsApart(data, b, a, q, p);
      StartBytes(a);
    } else {
      StartsApart(data, a, b, p, q);
      EndOutsideStart(data, b, q, x.end);
    }
  }

  /** A reply to a nested section is lost when the section around it is replaced. */
  lemma InnerReplyLost(data: seq<byte>, a: seq<byte>, ab: seq<byte>, b: seq<byte>, bb: seq<byte>)
    requires IsWord(a) && IsWord(b) && a != b && Nested(data, a, b) && Closed(bb) && HasNoStart(bb, a)
    ensures Splice(Splice(data, b, bb), a, ab) == Splice(data, a, ab)
  {
    hide Matches, Find, Start;
    var x, y := Locate(data, a).value, Locate(data, b).value;
    var next, d := Splice(data, b, bb), |bb| - (y.end - y.begin);
    StartBytes(b);
    ApartOrNested(data, a, b);
    SpliceRelocates(data, b, bb);
    LocateFinds(data, a);
    LocateFinds(next, b);
    SpliceBytes(data, b, bb);
    FindStays(data, next, Start(a), 0, x.begin - |Start(a)|);
    forall k: nat | x.begin <= k < y.begin ensures !Matches(next, END, k) {
      if k + |END| <= y.begin {
        SharedMatch(next, data, END, k, k);
      } else if Matches(next, END, k) {
        EndOutsideStart(next, b, y.begin - |Start(b)|, k);
      }
    }
    FindSkips(next, END, x.begin, y.begin);
    assert Locate(next, a) == Some(Section(x.begin, y.begin + |bb|));
    assert next[..x.begin] == data[..x.begin];
    assert next[y.begin + |bb|..] == data[x.end..];
  }

  /**
   Replies to two sections commute, unless one section is nested in the other and its id has another
   section behind: then the first reply decides which of the two the inner reply goes to.
   */
  lemma RepliesCommute(data: seq<byte>, a: seq<byte>, ab: seq<byte>, b: seq<byte>, bb: seq<byte>)
    requires IsWord(a) && IsWord(b) && a != b
    requires Closed(ab) && Closed(bb) && HasNoStart(ab, b) && HasNoStart(bb, a)
    ensures Splice(Splice(data, a, ab), b, bb) == Splice(Splice(data, b, bb), a, ab) <==>
            !Shadowed(data, a, b, bb) && !Shadowed(data, b, a, ab)
  {
    hide Matches, Find, Start, LocateFrom, Splice;
    var A, B := Locate(data, a), Locate(data, b);
    if A.None? || B.None? {
      if A.None? { MissingStays(data, b, bb, a); MissingUntouched(data, a, ab); MissingUntouched(Splice(data, b, bb), a, ab); }
      if B.None? { MissingStays(data, a, ab, b); MissingUntouched(data, b, bb); MissingUntouched(Splice(data, a, ab), b, bb); }
    } else if A.value.begin < B.value.begin {
      OrderedCommute(data, a, ab, b, bb);
    } else {
      BeginsDiffer(data, a, b);
      OrderedCommute(data, b, bb, a, ab);
    }
  }

  lemma MissingUntouched(data: seq<byte>, id: seq<byte>, body: seq<byte>)
    requires Locate(data, id).None?
    ensures Splice(data, id, body) == data
  {}

  lemma BeginsDiffer(data: seq<byte>, a: seq<byte>, b: seq<byte>)
    requires IsWord(a) && IsWord(b) && a != b && Locate(data, a).Some? && Locate(data, b).Some?
    ensures Locate(data, a).value.begin != Locate(data, b).value.begin
  {
    hide Matches, Start;
    var x, y := Locate(data, a).value, Locate(data, b).value;
    LocateFinds(data, a);
    LocateFinds(data, b);
    StartBytes(a);
    StartBytes(b);
    var p, q := x.begin - |Start(a)|, y.begin - |Start(b)|;
    if p <= q { StartsApart(data, a, b, p, q); } else { StartsApart(data, b, a, q, p); }
  }

  lemma OrderedCommute(data: seq<byte>, a: seq<byte>, ab: seq<byte>, b: seq<byte>, bb: seq<byte>)
    requires IsWord(a) && IsWord(b) && a != b
    requires Closed(ab) && Closed(bb) && HasNoStart(ab, b) && HasNoStart(bb, a)
    requires Locate(data, a).Some? && Locate(data, b).Some?
    requires Locate(data, a).value.begin < Locate(data, b).value.begin
    ensures Splice(Splice(data, a, ab), b, bb) == Splice(Splice(data, b, bb), a, ab) <==> !Shadowed(data, a, b, bb)
    ensures !Shadowed(data, b, a, ab)
  {
    hide Matches, Find, Start, LocateFrom, Splice;
    var x, y := Locate(data, a).value, Locate(data, b).value;
    ApartOrNested(data, a, b);
    StartBytes(a);
    if x.end + |Start(b)| <= y.begin {
      ApartCommute(data, a, ab, b, bb);
    } else {
      InnerReplyLost(data, a, ab, b, bb);
      LocateFinds(data, b);
      LocateAfter(data, a, ab, b);
      SecondReply(data, a, ab, b, bb);
    }
  }

  /** The reply to a section behind a's changes the page just when it differs from what is there. */
  lemma SecondReply(data: seq<byte>, a: seq<byte>, ab: seq<byte>, b: seq<byte>, bb: seq<byte>)
    requires Locate(data, a).Some?
    requires var at := Locate(data, a).value;
             Locate(Splice(data, a, ab), b) == Shift(LocateFrom(data, b, at.end), |ab| - (at.end - at.begin))
    ensures var next, again := Splice(data, a, ab), LocateFrom(data, b, Locate(data, a).value.end);
            Splice(next, b, bb) == next <==>
            again.None? || data[again.value.begin..again.value.end] == bb
  {
    hide Matches, Find, Start, LocateFrom, Locate, Splice;
    var x := Locate(data, a).value;
    var again := LocateFrom(data, b, x.end);
    SpliceAt(data, a, ab, x);
    var next, d := Splice(data, a, ab), |ab| - (x.end - x.begin);
    if again.Some? {
      var s, e := again.value.begin + d, again.value.end + d;
      SpliceAt(next, b, bb, Section(s, e));
      MovedSlice(data, x, ab, again.value);
      ReplaceSame(next, s, e, bb);
    } else {
      MissingUntouched(next, b, bb);
    }
  }

  /** The contents of a section behind one that is replaced. */
  lemma MovedSlice(data: seq<byte>, x: Section, body: seq<byte>, y: Section)
    requires x.begin <= x.end <= y.begin <= y.end <= |data|
    ensures var next, d := data[..x.begin] + body + data[x.end..], |body| - (x.end - x.begin);
            next[y.begin + d..y.end + d] == data[y.begin..y.end]
  {}

  lemma ReplaceSame(data: seq<byte>, s: nat, e: nat, body: seq<byte>)
    requires s <= e <= |data|
    ensures data[..s] + body + data[e..] == data <==> data[s..e] == body
  {}

  /** A page on which two replies give different results in different orders. */
  lemma RepliesCanClash() returns (data: seq<byte>, a: seq<byte>, b: seq<byte>, bb: seq<byte>)
    ensures IsWord(a) && IsWord(b) && a != b && Closed(bb) && HasNoStart(bb, a)
    ensures Splice(Splice(data, a, []), b, bb) != Splice(Splice(data, b, bb), a, [])
  {
    hide Matches, Start, Find, LocateFrom, Locate, Splice;
    a, b := [97], [98];
    var m := Start(b);
    data := Start(a) + m + END + m + END;
    StartBytes(a);
    StartBytes(b);
    MatchesInside([], Start(a), m + END + m + END, data);
    MatchesInside(Start(a), m, END + m + END, data);
    MatchesInside(Start(a) + m, END, m + END, data);
    MatchesInside(Start(a) + m + END, m, END, data);
    MatchesInside(Start(a) + m + END + m, END, [], data);
    FirstNested(data, a, b);
    var again := LocateFrom(data, b, 36).value;
    bb := if data[again.begin..again.end] == [] then [NEWLINE] else [];
    ShortBody(bb, a);
    ShortBody([], b);
    RepliesCommute(data, a, [], b, bb);
  }

  lemma FirstNested(data: seq<byte>, a: seq<byte>, b: seq<byte>)
    requires IsWord(a) && IsWord(b) && a != b && |Start(a)| == |Start(b)| == 18
    requires Matches(data, Start(a), 0) && Matches(data, Start(b), 18) && Matches(data, END, 36)
    requires Matches(data, Start(b), 48) && Matches(data, END, 66)
    ensures Nested(data, a, b) && Locate(data, a).value.end == 36 && LocateFrom(data, b, 36).Some?
  {
    hide Matches, Start;
    assert Find(data, Start(a), 0) == Some(0);
    StartsApart(data, a, b, 0, Find(data, Start(b), 0).value);
    assert Find(data, Start(b), 0) == Some(18) && Find(data, END, 36) == Some(36);
    var e := Find(data, END, 18).value;
    EndOutsideStart(data, b, 18, e);
    if e == 18 {
      StartOpens(b);
      StartBytes(b);
      MatchAt(data, Start(b), 18, 2);
      MatchAt(data, END, 18, 2);
    }
    assert Find(data, END, Find(data, Start(b), 36).value + 18).Some?;
  }

  lemma MatchesInside(pre: seq<byte>, pat: seq<byte>, post: seq<byte>, data: seq<byte>)
    requires data == pre + pat + post
    ensures Matches(data, pat, |pre|)
  {}

  lemma ShortBody(body: seq<byte>, id: seq<byte>)
    requires body == [] || body == [NEWLINE]
    ensures Closed(body) && HasNoStart(body, id)
  {}

  /** The page after each reply replaced the loading text put in its place first. */
  function Live(data: seq<byte>, replies: seq<Reply>): seq<byte> {
    if replies == [] then data
    else
      var r := replies[|replies| - 1];
      Splice(Splice(Live(data, replies[..|replies| - 1]), r.id, LOADING), r.id, r.body)
  }

  /** The page seen while replies came in is the page built again from the stored replies. */
  lemma {:induction false} LiveIsHistory(data: seq<byte>, replies: seq<Reply>)
    ensures Live(data, replies) == SpliceAll(data, replies)
  {
    hide Splice;
    if replies != [] {
      var r := replies[|replies| - 1];
      LiveIsHistory(data, replies[..|replies| - 1]);
      LoadingThenReply(SpliceAll(data, replies[..|replies| - 1]), r.id, r.body);
    }
  }

  // ---------- The window that shows the page ----------

  lemma LocateUnfold(data: seq<byte>, id: seq<byte>)
    ensures var s := Find(data, Start(id), 0);
            Locate(data, id) ==
            if s.None? then None
            else
              var begin := s.value + |Start(id)|;
              var e := Find(data, END, begin);
              if e.None? then None else Some(Section(begin, e.value))
  {
    hide Find, Matches, Start;
  }

  lemma SpliceUnfold(data: seq<byte>, id: seq<byte>, body: seq<byte>)
    ensures var s := Find(data, Start(id), 0);
            if s.None? then Locate(data, id).None? && Splice(data, id, body) == data
            else
              var begin := s.value + |Start(id)|;
              var e := Find(data, END, begin);
              if e.None? then Locate(data, id).None? && Splice(data, id, body) == data
              else Locate(data, id).Some? && begin <= e.value && e.value <= |data| &&
                   Splice(data, id, body) == data[..begin] + body + data[e.value..]
  {
    hide Find, Matches, Start, Splice, Locate;
    LocateUnfold(data, id);
    var s := Locate(data, id);
    if s.None? { MissingUntouched(data, id, body); } else { SpliceAt(data, id, body, s.value); }
  }

  lemma OneReply(data: seq<byte>, replies: seq<Reply>)
    requires |replies| <= 1
    ensures SpliceAll(data, replies) == if replies == [] then data else Splice(data, replies[0].id, replies[0].body)
  {
    hide Splice;
  }

  lemma SpliceAllNext(data: seq<byte>, replies: seq<Reply>, i: nat)
    requires i < |replies|
    ensures SpliceAll(data, replies[..i + 1]) ==
            Splice(SpliceAll(data, replies[..i]), replies[i].id, replies[i].body)
  {
    hide Splice;
    assert replies[..i + 1][..i] == replies[..i];
  }

  /** A slice from the start of its array; appending writes there while the array has room. */
  datatype Slice = Slice(arr: array<byte>, len: nat) {
    ghost predicate Valid() { len <= arr.Length }

    function Bytes(): (s: seq<byte>)
      requires Valid()
      reads arr
    {
      arr[..len]
    }

    method Append(src: seq<byte>) returns (t: Slice)
      requires Valid()
      modifies arr
      ensures t.Valid() && (t.arr == arr || fresh(t.arr))
      ensures t.Bytes() == old(Bytes()) + src
    {
      if len + |src| <= arr.Length {
        forall i | 0 <= i < |src| { arr[len + i] := src[i]; }
        t := Slice(arr, len + |src|);
        assert t.Bytes()[..len] == old(Bytes());
        assert t.Bytes()[len..] == src;
      } else {
        var all := Bytes() + src;
        var capacity: nat :| capacity >= |all|;
        var room := new byte[capacity](i => if 0 <= i < |all| then all[i] else 0);
        t := Slice(room, |all|);
      }
    }
  }

  /** A page or part of one: its data and, for a reply, the section it is for. */
  class Resource {
    const target: seq<byte>
    var data: Slice

    constructor (target: seq<byte>, data: Slice)
      ensures this.target == target && this.data == data
    {
      this.target, this.data := target, data;
    }
  }

  ghost predicate Readable(rs: seq<Resource>)
    reads rs
  {
    forall r :: r in rs ==> r.data.Valid()
  }

  ghost function RepliesOf(rs: seq<Resource>): (replies: seq<Reply>)
    requires Readable(rs)
    reads rs, set r | r in rs :: r.data.arr
    ensures |replies| == |rs|
    ensures forall i :: 0 <= i < |rs| ==> replies[i] == Reply(rs[i].target, rs[i].data.Bytes())
  {
    if rs == [] then []
    else
      var r := rs[|rs| - 1];
      RepliesOf(rs[..|rs| - 1]) + [Reply(r.target, r.data.Bytes())]
  }

  class ChatWindow {
    // The page, and the bytes the window's first message shows, if it has one.
    var page: Resource?
    var shown: Option<seq<byte>>

    constructor ()
      ensures page == null && shown == None
    {
      page, shown := null, None;
    }

    ghost predicate Valid()
      reads this, page
    {
      page != null ==> page.data.Valid()
    }

    /** One section replaced in place, with the rest of the page kept in aux meanwhile. */
    static method ReplaceSection(data: Slice, aux: Slice, id: seq<byte>, body: Slice)
        returns (found: bool, data': Slice, aux': Slice)
      requires data.Valid() && aux.Valid() && body.Valid()
      requires aux.len == 0 && aux.arr != data.arr && body.arr != data.arr && body.arr != aux.arr
      modifies data.arr, aux.arr
      ensures data'.Valid() && aux'.Valid() && aux'.len == 0 && aux'.arr != data'.arr
      ensures (data'.arr == data.arr || fresh(data'.arr)) && (aux'.arr == aux.arr || fresh(aux'.arr))
      ensures data'.Bytes() == Splice(old(data.Bytes()), id, old(body.Bytes()))
      ensures found == Locate(old(data.Bytes()), id).Some?
      ensures !found ==> data' == data && data.arr[..] == old(data.arr[..])
    {
      hide Find, Matches, Start, Locate, LocateFrom, Splice;
      found, data', aux' := false, data, aux;
      ghost var was, text := data.Bytes(), body.Bytes();
      SpliceUnfold(was, id, text);
      var start := Find(data.Bytes(), Start(id), 0);
      if start.None? { return; }
      var begin := start.value + |Start(id)|;
      var end := Find(data.Bytes(), END, begin);
      if end.None? { return; }
      aux' := aux'.Append(data.Bytes()[end.value..]);
      data' := Slice(data.arr, begin);
      assert data'.Bytes() == was[..begin];
      data' := data'.Append(body.Bytes());
      data' := data'.Append(aux'.Bytes());
      found, aux' := true, Slice(aux'.arr, 0);
    }

    method ReplaceAsyncTargetWithLoading(id: seq<byte>)
      requires Valid()
      modifies this`shown, page, if page == null then {} else {page.data.arr}
      ensures Valid() && page == old(page)
      ensures page == null ==> shown == old(shown)
      ensures page != null ==>
                var was := old(page.data.Bytes());
                if old(shown).Some? && Locate(was, id).Some? then
                  page.data.Bytes() == Splice(was, id, LOADING) && shown == Some(page.data.Bytes())
                else
                  page.data.Bytes() == was && shown == old(shown)
    {
      hide Splice, Locate;
      if shown.None? || page == null { return; }
      var text := new byte[|LOADING|](i requires 0 <= i < |LOADING| => LOADING[i]);
      assert Slice(text, text.Length).Bytes() == LOADING;
      var none := new byte[0];
      var found, data, aux := ReplaceSection(page.data, Slice(none, 0), id, Slice(text, text.Length));
      if !found { return; }
      shown := Some(data.Bytes());
      page.data := data;
    }

    /**
     Shows a page: a whole page, the page a reply belongs to, or, from disk, the first resource of the
     history with the others as replies, oldest first.
     */
    method ReplacePage(fr: Resource, history: seq<Resource>)
      requires Valid() && Readable(history) && fr.data.Valid()
      requires forall i :: 0 < i < |history| ==>
                 history[i] != history[0] && history[i].data.arr != history[0].data.arr
      requires history == [] && fr.target != [] ==>
                 page != null && fr != page && fr.data.arr != page.data.arr
      modifies this, Base(fr, history), Base(fr, history).data.arr
      ensures Valid() && page == old(Base(fr, history)) && shown == Some(page.data.Bytes())
      ensures history != [] ==>
                page.data.Bytes() == SpliceAll(old(history[0].data.Bytes()), old(RepliesOf(history[1..])))
      ensures history == [] && fr.target != [] ==>
                page.data.Bytes() == Splice(old(page.data.Bytes()), fr.target, old(fr.data.Bytes()))
      ensures history == [] && fr.target == [] ==> page.data.Bytes() == old(fr.data.Bytes())
    {
      hide SpliceAll, Splice, RepliesOf;
      var base := Base(fr, history);
      var replies := if history != [] then history[1..] else if fr.target != [] then [fr] else [];
      ghost var was := RepliesOf(replies);
      if |was| <= 1 { OneReply(base.data.Bytes(), was); }
      var data := ApplyReplies(base.data, replies);
      shown := Some(data.Bytes());
      page := base;
      page.data := data;
    }

    static method ApplyReplies(page: Slice, replies: seq<Resource>) returns (data: Slice)
      requires page.Valid() && Readable(replies)
      requires forall r :: r in replies ==> r.data.arr != page.arr
      modifies page.arr
      ensures data.Valid() && (data.arr == page.arr || fresh(data.arr))
      ensures data.Bytes() == SpliceAll(old(page.Bytes()), old(RepliesOf(replies)))
    {
      hide Splice, RepliesOf, Locate;
      data := page;
      ghost var was, base := RepliesOf(replies), page.Bytes();
      var none := new byte[0];
      var aux := Slice(none, 0);
      var i := 0;
      while i < |replies|
        invariant 0 <= i <= |replies|
        invariant data.Valid() && aux.Valid() && aux.len == 0 && aux.arr != data.arr && fresh(aux.arr)
        invariant data.arr == page.arr || fresh(data.arr)
        invariant data.Bytes() == SpliceAll(base, was[..i])
      {
        hide SpliceAll;
        var found;
        SpliceAllNext(base, was, i);
        found, data, aux := ReplaceSection(data, aux, replies[i].target, replies[i].data);
        i := i + 1;
      }
      assert was[..|was|] == was;
    }

    /** The resource a call to ReplacePage writes to. */
    function Base(fr: Resource, history: seq<Resource>): (r: Resource)
      requires history == [] && fr.target != [] ==> page != null
      reads this
    {
      if history != [] then history[0] else if fr.target != [] then page else fr
    }
  }
}
