/**
 The windows of the client, which one is shown and which have news. Windows are numbered from zero;
 negative numbers stand for the fixed ones.
 */
module Windows {

  datatype Option<+T> = None | Some(value: T)

  const DIAG: int := -1
  const FEED: int := -2
  const LND_LOG: int := -4
  const LAST: int := LND_LOG

  /** What a window is for; there is at most one for each. */
  datatype Window = Chat(uid: nat) | GC(gc: nat) | RT(rv: nat) | Page(session: nat)

  /** A mark tells whether the news mention the local user. */
  datatype State = State(windows: seq<Window>, active: int, prevActive: int, updated: map<int, bool>)

  datatype Op =
    | Close
    | Change(win: int)
    | Next
    | Prev
    | ToPrevActive
    | Show(w: Window)
    | FindOrNew(w: Window)
    | MarkUpdated(w: Window, mentioned: bool)
    | MarkSeen(win: int)
    | MarkFixed(win: int)       // diagnostics or feed

  function IndexOf(ws: seq<Window>, w: Window): (i: nat)
    ensures i <= |ws| && (i < |ws| ==> ws[i] == w)
    ensures forall k :: 0 <= k < i ==> ws[k] != w
  {
    if ws == [] || ws[0] == w then 0 else 1 + IndexOf(ws[1..], w)
  }

  function Changed(s: State, win: int): State {
    if LAST <= win < |s.windows| then
      s.(active := win, prevActive := if win != s.active then s.active else s.prevActive, updated := s.updated - {win})
    else s
  }

  function ShiftedKeys(keys: set<int>, cw: int): set<int> {
    (set k | k in keys && k < cw) + (set k | k in keys && k > cw :: k - 1)
  }

  /** The marks once window cw is gone: those of the windows after it are one lower. */
  function Shifted(updated: map<int, bool>, cw: int): map<int, bool> {
    map k | k in ShiftedKeys(updated.Keys, cw) :: if k < cw then updated[k] else updated[k + 1]
  }

  function Closed(s: State): State {
    if s.active < 0 || s.active >= |s.windows| then s
    else
      var cw := s.active;
      Changed(s.(windows := s.windows[..cw] + s.windows[cw + 1..], updated := Shifted(s.updated, cw)), cw - 1)
  }

  function Found(s: State, w: Window): State {
    var i := IndexOf(s.windows, w);
    if i == |s.windows| then s.(windows := s.windows + [w], updated := s.updated[i := false])
    else if w.Page? && i != s.active then s.(updated := s.updated[i := false])
    else s
  }

  function Marked(s: State, w: Window, mentioned: bool): State {
    var i := IndexOf(s.windows, w);
    if i == |s.windows| || i == s.active || (i in s.updated && !mentioned) then s
    else s.(updated := s.updated[i := mentioned])
  }

  function Step(s: State, op: Op): State {
    match op
    case Close => Closed(s)
    case Change(win) => Changed(s, win)
    case Next => Changed(s, s.active + 1)
    case Prev => Changed(s, s.active - 1)
    case ToPrevActive => Changed(s, s.prevActive)
    case Show(w) =>
      var i := IndexOf(s.windows, w);
      if i == |s.windows| then s else s.(active := i, updated := s.updated - {i})
    case FindOrNew(w) => Found(s, w)
    case MarkUpdated(w, mentioned) => Marked(s, w, mentioned)
    case MarkSeen(win) => s.(updated := s.updated - {win})
    case MarkFixed(win) => if (win == DIAG || win == FEED) && win != s.active then s.(updated := s.updated[win := false]) else s
  }

  function After(s: State, ops: seq<Op>): State {
    if ops == [] then s else Step(After(s, ops[..|ops| - 1]), ops[|ops| - 1])
  }

  // ---------- Invariants ----------

  predicate Valid(s: State) {
    && Distinct(s.windows)
    && LAST <= s.active < |s.windows|
    && (forall k :: k in s.updated ==> LAST <= k < |s.windows|)
    && s.active !in s.updated
  }

  /** The mark of a window. */
  function MarkOf(s: State, w: Window): Option<bool> {
    var i := IndexOf(s.windows, w);
    if i < |s.windows| && i in s.updated then Some(s.updated[i]) else None
  }

  predicate Distinct(ws: seq<Window>) {
    forall i, j :: 0 <= i < j < |ws| ==> ws[i] != ws[j]
  }

  lemma IndexAt(ws: seq<Window>, i: nat)
    requires i < |ws| && Distinct(ws)
    ensures IndexOf(ws, ws[i]) == i
  {}

  function MarkNumbered(updated: map<int, bool>, i: int): Option<bool> {
    if i in updated then Some(updated[i]) else None
  }

  lemma MarkAt(s: State, i: nat)
    requires i < |s.windows| && Distinct(s.windows)
    ensures MarkOf(s, s.windows[i]) == MarkNumbered(s.updated, i) && IndexOf(s.windows, s.windows[i]) == i
  {}

  lemma MarkOfNone(s: State, w: Window)
    requires w !in s.windows
    ensures MarkOf(s, w) == None && IndexOf(s.windows, w) == |s.windows|
  {}

  lemma StepValid(s: State, op: Op)
    requires Valid(s)
    ensures Valid(Step(s, op))
  {
  }

  lemma {:induction false} ValidAlways(s: State, ops: seq<Op>)
    requires Valid(s)
    ensures Valid(After(s, ops))
  {
    hide Valid, Step;
    if ops != [] {
      ValidAlways(s, ops[..|ops| - 1]);
      StepValid(After(s, ops[..|ops| - 1]), ops[|ops| - 1]);
    }
  }

  /** The window an operation leaves shown. */
  predicate Shows(s: State, op: Op, w: Window) {
    var next := Step(s, op);
    0 <= next.active < |next.windows| && next.windows[next.active] == w
  }

  /** What an operation does to the mark of a window, whatever numbers the windows have. */
  function MarkAfter(s: State, op: Op, w: Window, mark: Option<bool>): Option<bool> {
    if Shows(s, op, w) || w !in Step(s, op).windows then None
    else match op
      case FindOrNew(x) => if w == x && (w !in s.windows || w.Page?) then Some(false) else mark
      case MarkUpdated(x, mentioned) => if w == x && (mark.None? || mentioned) then Some(mentioned) else mark
      case MarkSeen(win) => if 0 <= win < |s.windows| && s.windows[win] == w then None else mark
      case _ => mark
  }

  /** An operation changes the mark of the window it is about, and of no other. */
  lemma StepMark(s: State, op: Op, w: Window)
    requires Valid(s)
    ensures MarkOf(Step(s, op), w) == MarkAfter(s, op, w, MarkOf(s, w))
  {
    hide MarkOf, IndexOf, Distinct;
    var next := Step(s, op);
    StepValid(s, op);
    if w !in next.windows {
      MarkOfNone(next, w);
    } else {
      var j :| 0 <= j < |next.windows| && next.windows[j] == w;
      MarkAt(next, j);
      if w !in s.windows {
        MarkOfNone(s, w);
        NewWindow(s, op, w);
      } else {
        var i :| 0 <= i < |s.windows| && s.windows[i] == w;
        MarkAt(s, i);
        MarkMoves(s, op, i, j);
      }
    }
  }

  /** A window that was not there was opened, as the last one. */
  lemma NewWindow(s: State, op: Op, w: Window)
    requires Valid(s) && w !in s.windows && w in Step(s, op).windows
    ensures op == FindOrNew(w) && Step(s, op) == s.(windows := s.windows + [w], updated := s.updated[|s.windows| := false])
  {}

  lemma MarkMoves(s: State, op: Op, i: nat, j: nat)
    requires Valid(s) && i < |s.windows| && j < |Step(s, op).windows| && Step(s, op).windows[j] == s.windows[i]
    requires Distinct(Step(s, op).windows) && Step(s, op).active !in Step(s, op).updated
    ensures MarkNumbered(Step(s, op).updated, j) == MarkAfter(s, op, s.windows[i], MarkNumbered(s.updated, i))
  {
    hide Closed, IndexOf;
    if op.Close? {
      ClosedShows(s);
      if s.active >= 0 { CloseIndex(s, i, j); } else { SamePlace(s, op, i, j); }
      ShownIs(Step(s, op), op, s, j);
    } else {
      SamePlace(s, op, i, j);
      IndexAt(s.windows, i);
      ShownIs(Step(s, op), op, s, j);
    }
  }

  lemma ClosedShows(s: State)
    requires Valid(s)
    ensures if s.active < 0 then Closed(s) == s else Closed(s).active == s.active - 1
  {}

  lemma SamePlace(s: State, op: Op, i: nat, j: nat)
    requires Valid(s) && (op.Close? ==> s.active < 0) && i < |s.windows|
    requires j < |Step(s, op).windows| && Step(s, op).windows[j] == s.windows[i]
    ensures i == j
  {}

  lemma ShownIs(next: State, op: Op, s: State, j: nat)
    requires next == Step(s, op) && Distinct(next.windows) && j < |next.windows|
    ensures Shows(s, op, next.windows[j]) <==> next.active == j
  {}

  lemma CloseIndex(s: State, i: nat, j: nat)
    requires Valid(s) && s.active >= 0 && i < |s.windows|
    requires j < |Closed(s).windows| && Closed(s).windows[j] == s.windows[i]
    ensures i != s.active && j == if i < s.active then i else i - 1
    ensures MarkNumbered(Closed(s).updated, j) == if j == s.active - 1 then None else MarkNumbered(s.updated, i)
  {}

  /** The fixed windows keep their marks, but for the one shown next. */
  lemma CloseKeepsFixed(s: State, k: int)
    requires Valid(s) && s.active >= 0 && k < 0 && k != s.active - 1
    ensures var next := Closed(s); (k in next.updated <==> k in s.updated) && (k in s.updated ==> next.updated[k] == s.updated[k])
  {}

  // ---------- The window shown before ----------

  datatype Shown = Fixed(number: int) | Open(w: Window) | Nothing

  /** What a number stands for. */
  function WindowAt(s: State, k: int): Shown {
    if LAST <= k < 0 then Fixed(k) else if 0 <= k < |s.windows| then Open(s.windows[k]) else Nothing
  }

  function OrElse(a: Shown, b: Shown): Shown { if a == Nothing then b else a }

  /** Which window is shown after an operation: the one asked for if there is one, else the same. */
  lemma ShownAfter(s: State, op: Op)
    requires Valid(s)
    ensures var next, here := Step(s, op), WindowAt(s, s.active);
            WindowAt(next, next.active) ==
            match op
            case Close => if s.active < 0 then here else WindowAt(s, s.active - 1)
            case Change(win) => OrElse(WindowAt(s, win), here)
            case Next => OrElse(WindowAt(s, s.active + 1), here)
            case Prev => OrElse(WindowAt(s, s.active - 1), here)
            case ToPrevActive => OrElse(WindowAt(s, s.prevActive), here)
            case Show(w) => if w in s.windows then Open(w) else here
            case _ => here
  {
    if op.Show? && op.w in s.windows { IndexIn(s.windows, op.w); }
  }

  /** Only closing takes a window away, the one shown, and only opening adds one, as the last. */
  lemma WindowsAfter(s: State, op: Op)
    requires Valid(s)
    ensures Step(s, op).windows ==
            if op.Close? && s.active >= 0 then s.windows[..s.active] + s.windows[s.active + 1..]
            else if op.FindOrNew? && op.w !in s.windows then s.windows + [op.w]
            else s.windows
  {
    if op.FindOrNew? && op.w in s.windows { IndexIn(s.windows, op.w); }
  }

  /** Operations that change windows by number, and remember the one they leave. */
  predicate ByNumber(op: Op) { op.Change? || op.Next? || op.Prev? || op.ToPrevActive? }

  /** Going back shows what the remembered number stands for, or nothing new when it stands for nothing. */
  lemma ToPrevActiveShows(s: State)
    requires Valid(s)
    ensures var next := Step(s, ToPrevActive);
            && next.windows == s.windows
            && WindowAt(next, next.active) ==
               if WindowAt(s, s.prevActive) == Nothing then WindowAt(s, s.active) else WindowAt(s, s.prevActive)
  {}

  /**
   What the remembered number stands for after a step: the window left, by number; after a close, the
   window that followed the closed one; a new window, when the number stood for nothing; else what it was.
   */
  lemma PrevActiveAfter(s: State, op: Op)
    requires Valid(s)
    ensures var next := Step(s, op);
            WindowAt(next, next.prevActive) ==
            if ByNumber(op) && next.active != s.active then WindowAt(s, s.active)
            else if op.Close? && s.active >= 0 then WindowAt(s, s.active + 1)
            else if op.FindOrNew? && op.w !in s.windows && s.prevActive == |s.windows| then Open(op.w)
            else WindowAt(s, s.prevActive)
  {
    if op.FindOrNew? && op.w in s.windows { IndexIn(s.windows, op.w); }
  }

  lemma IndexIn(ws: seq<Window>, w: Window)
    requires w in ws
    ensures IndexOf(ws, w) < |ws|
  {}

  /**
   Going back after a step leads to the window shown before it if and only if the step changed windows by
   number, or the remembered number was that window's already and the step did not close it.
   */
  lemma GoingBack(s: State, op: Op)
    requires Valid(s)
    ensures var next := Step(s, op);
            WindowAt(next, next.prevActive) == WindowAt(s, s.active) <==>
            (ByNumber(op) && next.active != s.active) || (s.prevActive == s.active && !(op.Close? && s.active >= 0))
  {
    hide Step, IndexOf;
    PrevActiveAfter(s, op);
  }

  /** Closing the second of three windows and going back shows the third, which was never shown. */
  lemma CloseForgets(a: Window, b: Window, c: Window)
    requires a != b && b != c && a != c
    ensures var s := State([a, b, c], 1, 0, map[]); var back := Step(Step(s, Close), ToPrevActive);
            Valid(s) && WindowAt(s, s.prevActive) == Open(a) && WindowAt(back, back.active) == Open(c)
  {
    assert [a, b, c][..1] + [a, b, c][2..] == [a, c];
  }

  // ---------- The client ----------

  /** The numbers marked below hi, in increasing order. */
  function Sorted(updated: map<int, bool>, hi: int): (r: seq<int>)
    ensures forall k :: k in r <==> LAST <= k < hi && k in updated
    ensures forall i, j :: 0 <= i < j < |r| ==> r[i] < r[j]
    decreases hi - LAST
  {
    if hi <= LAST then []
    else
      var before := Sorted(updated, hi - 1);
      assert forall i :: 0 <= i < |before| ==> before[i] in before && before[i] < hi - 1;
      before + if hi - 1 in updated then [hi - 1] else []
  }

  /** The marks when those with numbers up to b have been moved, and none waits between cw and b. */
  ghost predicate ShiftedTo(was: map<int, bool>, now: map<int, bool>, cw: int, b: int) {
    forall k {:trigger MarkNumbered(now, k)} :: MarkNumbered(now, k) ==
                if k < cw || k > b then MarkNumbered(was, k) else if k == b then None else MarkNumbered(was, k + 1)
  }

  lemma ShiftOne(was: map<int, bool>, now: map<int, bool>, cw: int, b: int, id: int)
    requires cw !in was && cw <= b < id && id in was && ShiftedTo(was, now, cw, b)
    requires forall k :: b < k < id ==> k !in was
    ensures id in now && ShiftedTo(was, now[id - 1 := now[id]] - {id}, cw, id)
  {
    assert MarkNumbered(now, id) == MarkNumbered(was, id);
    var next := now[id - 1 := now[id]] - {id};
    forall k ensures MarkNumbered(next, k) ==
                     if k < cw || k > id then MarkNumbered(was, k) else if k == id then None else MarkNumbered(was, k + 1) {
      assert MarkNumbered(now, k) ==
             if k < cw || k > b then MarkNumbered(was, k) else if k == b then None else MarkNumbered(was, k + 1);
    }
  }

  lemma SameMarks(m: map<int, bool>, n: map<int, bool>)
    requires forall k {:trigger MarkNumbered(m, k)} :: MarkNumbered(m, k) == MarkNumbered(n, k)
    ensures m == n
  {
    forall k ensures (k in m <==> k in n) && (k in m ==> m[k] == n[k]) {
      assert MarkNumbered(m, k) == MarkNumbered(n, k);
    }
  }

  lemma ShiftedMark(was: map<int, bool>, cw: int, k: int)
    ensures MarkNumbered(Shifted(was, cw), k) == MarkNumbered(was, if k < cw then k else k + 1)
  {}

  lemma ShiftedAll(was: map<int, bool>, now: map<int, bool>, cw: int, b: int)
    requires cw !in was && cw <= b && ShiftedTo(was, now, cw, b) && forall k :: k > b ==> k !in was
    ensures now == Shifted(was, cw)
  {
    hide Shifted;
    forall k ensures MarkNumbered(now, k) == MarkNumbered(Shifted(was, cw), k) {
      ShiftedMark(was, cw, k);
    }
    SameMarks(now, Shifted(was, cw));
  }

  lemma ShiftedWithout(was: map<int, bool>, cw: int)
    ensures Shifted(was - {cw}, cw) == Shifted(was, cw)
  {
    hide Shifted;
    forall k ensures MarkNumbered(Shifted(was - {cw}, cw), k) == MarkNumbered(Shifted(was, cw), k) {
      ShiftedMark(was, cw, k);
      ShiftedMark(was - {cw}, cw, k);
    }
    SameMarks(Shifted(was - {cw}, cw), Shifted(was, cw));
  }

  class AppState {
    var chatWindows: seq<Window>
    var activeCW: int
    var prevActiveCW: int
    var updatedCW: map<int, bool>

    constructor ()
      ensures Valid(Now()) && Now() == State([], DIAG, DIAG, map[])
    {
      chatWindows, activeCW, prevActiveCW, updatedCW := [], DIAG, DIAG, map[];
    }

    function Now(): State
      reads this
    {
      State(chatWindows, activeCW, prevActiveCW, updatedCW)
    }

    /** Closes the window shown and shows the one before it. */
    method CloseActiveWindow() returns (ok: bool)
      requires Valid(Now())
      modifies this
      ensures Now() == Step(old(Now()), Close) && Valid(Now()) && ok == (old(activeCW) >= 0)
    {
      StepValid(Now(), Close);
      var cw := activeCW;
      if cw < 0 { return false; }
      chatWindows := chatWindows[..cw] + chatWindows[cw + 1..];
      ShiftMarks(cw);
      ChangeActiveWindowPrev();
      return true;
    }

    /** Moves the marks of the windows after cw, in order, so that none is overwritten before it moves. */
    method ShiftMarks(cw: int)
      requires forall k :: k in updatedCW ==> LAST <= k <= |chatWindows|
      modifies this`updatedCW
      ensures updatedCW == Shifted(old(updatedCW), cw)
    {
      hide Shifted;
      updatedCW := updatedCW - {cw};
      ghost var was := updatedCW;
      ghost var b := cw;
      var updatedIDs := Sorted(updatedCW, |chatWindows| + 1);
      hide Sorted;
      for i := 0 to |updatedIDs|
        invariant cw <= b && ShiftedTo(was, updatedCW, cw, b)
        invariant forall k :: 0 <= k < i ==> updatedIDs[k] <= b
        invariant forall k :: i <= k < |updatedIDs| ==> updatedIDs[k] < cw || updatedIDs[k] > b
      {
        var id := updatedIDs[i];
        if id < cw { continue; }
        ShiftOne(was, updatedCW, cw, b, id);
        updatedCW := updatedCW[id - 1 := updatedCW[id]];
        updatedCW := updatedCW - {id};
        b := id;
      }
      ShiftedAll(was, updatedCW, cw, b);
      ShiftedWithout(old(updatedCW), cw);
    }

    method ChangeActiveWindow(win: int)
      modifies this`activeCW, this`prevActiveCW, this`updatedCW
      ensures Now() == Step(old(Now()), Change(win))
    {
      if win < LAST || win >= |chatWindows| { return; }
      if win != activeCW { prevActiveCW := activeCW; }
      updatedCW := updatedCW - {win};
      activeCW := win;
    }

    method ChangeActiveWindowNext()
      modifies this`activeCW, this`prevActiveCW, this`updatedCW
      ensures Now() == Step(old(Now()), Next)
    {
      ChangeActiveWindow(activeCW + 1);
    }

    method ChangeActiveWindowPrev()
      modifies this`activeCW, this`prevActiveCW, this`updatedCW
      ensures Now() == Step(old(Now()), Prev)
    {
      ChangeActiveWindow(activeCW - 1);
    }

    method ChangeActiveWindowToPrevActive()
      modifies this`activeCW, this`prevActiveCW, this`updatedCW
      ensures Now() == Step(old(Now()), ToPrevActive)
    {
      ChangeActiveWindow(prevActiveCW);
    }

    method ChangeActiveWindowCW(w: Window)
      modifies this`activeCW, this`updatedCW
      ensures Now() == Step(old(Now()), Show(w))
    {
      for i := 0 to |chatWindows|
        invariant Now() == old(Now()) && forall k :: 0 <= k < i ==> chatWindows[k] != w
      {
        if chatWindows[i] == w {
          FirstIndex(chatWindows, w, i);
          activeCW := i;
          updatedCW := updatedCW - {i};
          return;
        }
      }
    }

    method FindOrNewWindow(w: Window) returns (isNew: bool)
      modifies this`chatWindows, this`updatedCW
      ensures Now() == Step(old(Now()), FindOrNew(w)) && isNew == (w !in old(chatWindows))
    {
      for i := 0 to |chatWindows|
        invariant Now() == old(Now()) && forall k :: 0 <= k < i ==> chatWindows[k] != w
      {
        if chatWindows[i] == w {
          FirstIndex(chatWindows, w, i);
          if w.Page? && i != activeCW { updatedCW := updatedCW[i := false]; }
          return false;
        }
      }
      chatWindows := chatWindows + [w];
      updatedCW := updatedCW[|chatWindows| - 1 := false];
      return true;
    }

    method MarkWindowUpdated(w: Window, mentioned: bool) returns (active: bool)
      requires Valid(Now())
      modifies this`updatedCW
      ensures Now() == Step(old(Now()), MarkUpdated(w, mentioned))
      ensures active == (0 <= activeCW && chatWindows[activeCW] == w)
    {
      active := activeCW >= 0 && |chatWindows| > activeCW && chatWindows[activeCW] == w;
      if active { IndexAt(chatWindows, activeCW); }
      if !active {
        for i := 0 to |chatWindows|
          invariant Now() == old(Now()) && forall k :: 0 <= k < i ==> chatWindows[k] != w
        {
          if chatWindows[i] == w {
            FirstIndex(chatWindows, w, i);
            if i !in updatedCW || mentioned { updatedCW := updatedCW[i := mentioned]; }
            return;
          }
        }
      }
    }
  }

  lemma FirstIndex(ws: seq<Window>, w: Window, i: nat)
    requires i < |ws| && ws[i] == w && forall k :: 0 <= k < i ==> ws[k] != w
    ensures IndexOf(ws, w) == i
  {}
}
