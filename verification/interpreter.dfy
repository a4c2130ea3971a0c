/** The work queue of `proceed` (`ussd/user.go`): the loop, the tree walk it amounts to, and when it ends. */
module Interpreter {
  import opened Values
  import opened LocalSessions
  import opened Items

  datatype Stop =
    | AtUser(item: Item)
    | AtWait(item: Item)
    | Unexpected(item: Item)
    | ExecFailed(item: Item)
    | ExecPanicked(item: Item)
    | RequestFailed(item: Item)
    | RequestPanicked(item: Item)
    | Drained

  /** Where the loop stopped: the session, the items it popped (in order), why, and what was still queued. */
  datatype Halt = Halt(l: Local, trace: seq<Item>, stop: Stop, rest: seq<Item>)

  datatype Visit = Stopped(l: Local, stop: Stop) | Expanded(l: Local, next: seq<Item>)

  /** One popped item, up to the response to the user. */
  function VisitItem(p: Program, l: Local, item: Item): Visit {
    match item.kind
    case PromptItem => Stopped(l, AtUser(item))
    case FinalItem => Stopped(l, AtUser(item))
    case ExecItem =>
      var a := p.exec(item, View(l));
      var l' := ApplyOps(l, a.ops);
      (match a.status
       case Done => Expanded(l', a.next)
       case Failed(_) => Stopped(l', ExecFailed(item))
       case Panicked => Stopped(l', ExecPanicked(item)))
    case WaitItem =>
      var a := p.request(item, View(l));
      var l' := ApplyOps(l, a.ops);
      (match a.status
       case Done => Stopped(l', AtWait(item))
       case Failed(_) => Stopped(l', RequestFailed(item))
       case Panicked => Stopped(l', RequestPanicked(item)))
    case OtherItem => Stopped(l, Unexpected(item))
  }

  function Prefixed(items: seq<Item>, h: Option<Halt>): Option<Halt> {
    match h
    case None => None
    case Some(h) => Some(h.(trace := items + h.trace))
  }

  function Behind(h: Halt, ys: seq<Item>): Halt {
    h.(rest := h.rest + ys)
  }

  /** At most `n` turns of the loop: what an item expands to goes in front of the queue. */
  function Run(p: Program, l: Local, q: seq<Item>, n: nat): Option<Halt>
    decreases n
  {
    if q == [] then Some(Halt(l, [], Drained, []))
    else if n == 0 then None
    else
      match VisitItem(p, l, q[0])
      case Stopped(l', stop) => Some(Halt(l', [q[0]], stop, q[1..]))
      case Expanded(l', next) => Prefixed([q[0]], Run(p, l', next + q[1..], n - 1))
  }

  /** The loop returns. */
  ghost predicate Halts(p: Program, l: Local, q: seq<Item>) {
    exists n: nat :: Run(p, l, q, n).Some?
  }

  ghost predicate Terminating(p: Program) {
    forall l: Local, q: seq<Item> :: Halts(p, l, q)
  }

  ghost function Ends(p: Program, l: Local, q: seq<Item>): (h: Halt)
    requires Halts(p, l, q)
  {
    var n: nat :| Run(p, l, q, n).Some?;
    Run(p, l, q, n).value
  }

  function Onto(done: seq<Item>, h: Halt): Halt {
    h.(trace := done + h.trace)
  }

  /** One turn of the loop, from its start. */
  lemma RunTurn(p: Program, l: Local, done: seq<Item>, q: seq<Item>, n: nat)
    requires q != [] && Run(p, l, q, n).Some?
    ensures match VisitItem(p, l, q[0])
      case Stopped(l', stop) => Onto(done, Run(p, l, q, n).value) == Halt(l', done + [q[0]], stop, q[1..])
      case Expanded(l', next) =>
        && n > 0 && Run(p, l', next + q[1..], n - 1).Some?
        && Onto(done, Run(p, l, q, n).value) == Onto(done + [q[0]], Run(p, l', next + q[1..], n - 1).value)
  {
    var v := VisitItem(p, l, q[0]);
    if v.Expanded? {
      Regroup(done, [q[0]], Run(p, v.l, v.next + q[1..], n - 1).value.trace);
    }
  }

  /** A bigger budget changes nothing once the loop has ended. */
  lemma {:induction false} RunMore(p: Program, l: Local, q: seq<Item>, n: nat, m: nat)
    requires n <= m && Run(p, l, q, n).Some?
    ensures Run(p, l, q, m) == Run(p, l, q, n)
    decreases n
  {
    if q != [] {
      var v := VisitItem(p, l, q[0]);
      if v.Expanded? {
        RunMore(p, v.l, v.next + q[1..], n - 1, m - 1);
      }
    }
  }

  lemma EndsIs(p: Program, l: Local, q: seq<Item>, n: nat)
    requires Run(p, l, q, n).Some?
    ensures Halts(p, l, q) && Ends(p, l, q) == Run(p, l, q, n).value
  {
    var m: nat :| Run(p, l, q, m).Some? && Ends(p, l, q) == Run(p, l, q, m).value;
    RunMore(p, l, q, if n < m then n else m, if n < m then m else n);
  }

  /** Unfolding one turn of the loop. */
  lemma EndsStep(p: Program, l: Local, q: seq<Item>)
    requires Halts(p, l, q) && q != []
    ensures var v := VisitItem(p, l, q[0]);
      match v
      case Stopped(l', stop) => Ends(p, l, q) == Halt(l', [q[0]], stop, q[1..])
      case Expanded(l', next) =>
        Halts(p, l', next + q[1..]) && Some(Ends(p, l, q)) == Prefixed([q[0]], Some(Ends(p, l', next + q[1..])))
  {
    var n: nat :| Run(p, l, q, n).Some?;
    EndsIs(p, l, q, n);
    var v := VisitItem(p, l, q[0]);
    if v.Expanded? {
      EndsIs(p, v.l, v.next + q[1..], n - 1);
    }
  }

  /** The same turn read backwards: an expanding item returns if what it leaves queued does. */
  lemma EndsExpand(p: Program, l: Local, q: seq<Item>)
    requires q != []
    requires var v := VisitItem(p, l, q[0]); v.Expanded? ==> Halts(p, v.l, v.next + q[1..])
    ensures Halts(p, l, q)
  {
    var v := VisitItem(p, l, q[0]);
    if v.Expanded? {
      var n: nat :| Run(p, v.l, v.next + q[1..], n).Some?;
      assert Run(p, l, q, n + 1).Some?;
    } else {
      assert Run(p, l, q, 1).Some?;
    }
  }

  lemma EndsEmpty(p: Program, l: Local)
    ensures Halts(p, l, []) && Ends(p, l, []) == Halt(l, [], Drained, [])
  {
    EndsIs(p, l, [], 0);
  }

  // ---- Composition --------------------------------------------------------------------------------

  /** One turn with `ys` left behind what is queued. */
  lemma TurnAppend(p: Program, l: Local, xs: seq<Item>, ys: seq<Item>, n: nat)
    requires xs != [] && n > 0
    ensures match VisitItem(p, l, xs[0])
      case Stopped(l', stop) => Run(p, l, xs + ys, n) == Some(Halt(l', [xs[0]], stop, xs[1..] + ys))
      case Expanded(l', next) => Run(p, l, xs + ys, n) == Prefixed([xs[0]], Run(p, l', (next + xs[1..]) + ys, n - 1))
  {
    assert (xs + ys)[0] == xs[0] && (xs + ys)[1..] == xs[1..] + ys;
    var v := VisitItem(p, l, xs[0]);
    if v.Expanded? {
      Regroup(v.next, xs[1..], ys);
    }
  }

  /** Running `xs ++ ys` is running `xs` and, if that falls through, `ys` from where it left the session;
      otherwise `ys` is left behind what was already queued. */
  lemma {:induction false} RunAppend(p: Program, l: Local, xs: seq<Item>, ys: seq<Item>, n: nat, m: nat)
    requires Run(p, l, xs, n).Some?
    requires var h := Run(p, l, xs, n).value; h.stop == Drained ==> Run(p, h.l, ys, m).Some?
    ensures var h := Run(p, l, xs, n).value;
      Run(p, l, xs + ys, n + m) ==
        if h.stop == Drained then Prefixed(h.trace, Run(p, h.l, ys, m)) else Some(Behind(h, ys))
    decreases n
  {
    if xs == [] {
      assert xs + ys == ys;
      NothingAdded(Run(p, l, ys, m).value.trace);
      RunMore(p, l, ys, m, n + m);
    } else {
      TurnAppend(p, l, xs, ys, n + m);
      var v := VisitItem(p, l, xs[0]);
      if v.Expanded? {
        RunAppend(p, v.l, v.next + xs[1..], ys, n - 1, m);
        var h := Run(p, v.l, v.next + xs[1..], n - 1).value;
        if h.stop == Drained {
          Regroup([xs[0]], h.trace, Run(p, h.l, ys, m).value.trace);
        }
      }
    }
  }

  /** If the whole ends, so does its first part. */
  lemma {:induction false} RunPrefix(p: Program, l: Local, xs: seq<Item>, ys: seq<Item>, n: nat)
    requires Run(p, l, xs + ys, n).Some?
    ensures Run(p, l, xs, n).Some?
    ensures var h := Run(p, l, xs, n).value;
      h.stop == Drained ==> |h.trace| <= n && Run(p, h.l, ys, n - |h.trace|).Some?
    decreases n
  {
    if xs == [] {
      assert xs + ys == ys;
    } else {
      assert (xs + ys)[0] == xs[0] && (xs + ys)[1..] == xs[1..] + ys;
      var v := VisitItem(p, l, xs[0]);
      if v.Expanded? {
        assert v.next + (xs[1..] + ys) == (v.next + xs[1..]) + ys;
        RunPrefix(p, v.l, v.next + xs[1..], ys, n - 1);
      }
    }
  }

  /** The composition law for the loop itself, in both directions of "it returns". */
  lemma EndsAppend(p: Program, l: Local, xs: seq<Item>, ys: seq<Item>)
    ensures Halts(p, l, xs + ys) <==>
      Halts(p, l, xs) && (Ends(p, l, xs).stop == Drained ==> Halts(p, Ends(p, l, xs).l, ys))
    ensures Halts(p, l, xs + ys) ==>
      var h := Ends(p, l, xs);
      Some(Ends(p, l, xs + ys)) ==
        if h.stop == Drained then Prefixed(h.trace, Some(Ends(p, h.l, ys))) else Some(Behind(h, ys))
  {
    if Halts(p, l, xs + ys) {
      var n: nat :| Run(p, l, xs + ys, n).Some?;
      RunPrefix(p, l, xs, ys, n);
      EndsIs(p, l, xs, n);
      var h := Ends(p, l, xs);
      var m: nat := if h.stop == Drained then n - |h.trace| else 0;
      if h.stop == Drained {
        EndsIs(p, h.l, ys, m);
      }
      RunAppend(p, l, xs, ys, n, m);
      EndsIs(p, l, xs + ys, n + m);
    } else if Halts(p, l, xs) && (Ends(p, l, xs).stop == Drained ==> Halts(p, Ends(p, l, xs).l, ys)) {
      var n: nat :| Run(p, l, xs, n).Some?;
      EndsIs(p, l, xs, n);
      var h := Ends(p, l, xs);
      var m: nat := 0;
      if h.stop == Drained {
        m :| Run(p, h.l, ys, m).Some?;
      }
      RunAppend(p, l, xs, ys, n, m);
      assert false;
    }
  }

  // ---- The loop is a depth-first walk -------------------------------------------------------------

  /** The recursive reading: each item in turn, and whatever it expands to before the next one. */
  function Walk(p: Program, l: Local, q: seq<Item>, depth: nat): Option<Halt>
    decreases depth
  {
    if q == [] then Some(Halt(l, [], Drained, []))
    else if depth == 0 then None
    else
      match VisitItem(p, l, q[0])
      case Stopped(l', stop) => Some(Halt(l', [q[0]], stop, q[1..]))
      case Expanded(l', next) =>
        match Prefixed([q[0]], Walk(p, l', next, depth - 1))
        case None => None
        case Some(sub) =>
          if sub.stop == Drained then Prefixed(sub.trace, Walk(p, sub.l, q[1..], depth - 1))
          else Some(Behind(sub, q[1..]))
  }

  lemma {:induction false} WalkIsRun(p: Program, l: Local, q: seq<Item>, depth: nat)
    requires Walk(p, l, q, depth).Some?
    ensures Halts(p, l, q) && Ends(p, l, q) == Walk(p, l, q, depth).value
    decreases depth
  {
    if q == [] {
      EndsEmpty(p, l);
    } else {
      var v := VisitItem(p, l, q[0]);
      if v.Expanded? {
        WalkIsRun(p, v.l, v.next, depth - 1);
        var sub := Ends(p, v.l, v.next);
        if sub.stop == Drained {
          WalkIsRun(p, sub.l, q[1..], depth - 1);
        }
        EndsAppend(p, v.l, v.next, q[1..]);
      }
      EndsExpand(p, l, q);
      EndsStep(p, l, q);
      if v.Expanded? {
        WalkUnfold(p, l, q, depth);
      }
    }
  }

  lemma WalkUnfold(p: Program, l: Local, q: seq<Item>, depth: nat)
    requires q != [] && depth > 0 && Walk(p, l, q, depth).Some?
    requires VisitItem(p, l, q[0]).Expanded?
    ensures var v := VisitItem(p, l, q[0]);
      var sub := Walk(p, v.l, v.next, depth - 1).value;
      Walk(p, l, q, depth) == Prefixed([q[0]],
        if sub.stop == Drained then Prefixed(sub.trace, Walk(p, sub.l, q[1..], depth - 1)) else Some(Behind(sub, q[1..])))
  {
    var v := VisitItem(p, l, q[0]);
    var sub := Walk(p, v.l, v.next, depth - 1).value;
    if sub.stop == Drained {
      var r := Walk(p, sub.l, q[1..], depth - 1).value;
      assert [q[0]] + (sub.trace + r.trace) == ([q[0]] + sub.trace) + r.trace;
    }
  }

  lemma WalkExpands(p: Program, l: Local, q: seq<Item>, depth: nat, sub: Halt)
    requires q != [] && depth > 0
    requires var v := VisitItem(p, l, q[0]); v.Expanded? && Walk(p, v.l, v.next, depth - 1) == Some(sub)
    requires sub.stop == Drained ==> Walk(p, sub.l, q[1..], depth - 1).Some?
    ensures Walk(p, l, q, depth).Some?
  {
  }

  lemma RunRest(p: Program, l: Local, xs: seq<Item>, ys: seq<Item>, n: nat)
    requires Run(p, l, xs + ys, n).Some?
    ensures Run(p, l, xs, n).Some?
    ensures var h := Run(p, l, xs, n).value; h.stop == Drained ==> Run(p, h.l, ys, n).Some?
  {
    RunPrefix(p, l, xs, ys, n);
    var h := Run(p, l, xs, n).value;
    if h.stop == Drained {
      RunMore(p, h.l, ys, n - |h.trace|, n);
    }
  }

  lemma {:induction false} RunIsWalk(p: Program, l: Local, q: seq<Item>, n: nat)
    requires Run(p, l, q, n).Some?
    ensures Walk(p, l, q, n).Some?
    decreases n
  {
    if q != [] {
      var v := VisitItem(p, l, q[0]);
      if v.Expanded? {
        RunRest(p, v.l, v.next, q[1..], n - 1);
        var h := Run(p, v.l, v.next, n - 1).value;
        if h.stop == Drained {
          RunIsWalk(p, h.l, q[1..], n - 1);
        }
        RunIsWalk(p, v.l, v.next, n - 1);
        WalkIsRun(p, v.l, v.next, n - 1);
        EndsIs(p, v.l, v.next, n - 1);
        WalkExpands(p, l, q, n, h);
      }
    }
  }

  /** The loop over the growing queue returns `h` exactly when the depth-first walk does. */
  lemma LoopIsDepthFirstWalk(p: Program, l: Local, q: seq<Item>, h: Halt)
    ensures (Halts(p, l, q) && Ends(p, l, q) == h) <==> exists depth: nat :: Walk(p, l, q, depth) == Some(h)
  {
    if Halts(p, l, q) && Ends(p, l, q) == h {
      var n: nat :| Run(p, l, q, n).Some?;
      RunIsWalk(p, l, q, n);
      WalkIsRun(p, l, q, n);
      assert Walk(p, l, q, n) == Some(h);
    }
    if depth: nat :| Walk(p, l, q, depth) == Some(h) {
      WalkIsRun(p, l, q, depth);
    }
  }

  // ---- What the popped items did -------------------------------------------------------------------

  /** The updates an item makes when the session shows `view`. */
  function ItemOps(p: Program, item: Item, view: Data): seq<Op> {
    if item.kind.ExecItem? then p.exec(item, view).ops
    else if item.kind.WaitItem? then p.request(item, view).ops
    else []
  }

  predicate Expands(p: Program, item: Item, view: Data) {
    item.kind.ExecItem? && p.exec(item, view).status.Done?
  }

  /** What the session shows after the given items, each on the session as the ones before it left it. */
  function Folded(p: Program, view: Data, items: seq<Item>): Data
    decreases |items|
  {
    if items == [] then view else Folded(p, Updated(view, ItemOps(p, items[0], view)), items[1..])
  }

  predicate AllExpand(p: Program, view: Data, items: seq<Item>)
    decreases |items|
  {
    items != [] ==>
      Expands(p, items[0], view) && AllExpand(p, Updated(view, ItemOps(p, items[0], view)), items[1..])
  }

  /** What is queued after the given items were popped, each from the head of the queue, and what each returned was put
      there. None if they do not come in that order. */
  function QueueAfter(p: Program, view: Data, q: seq<Item>, items: seq<Item>): Option<seq<Item>>
    decreases |items|
  {
    if items == [] then Some(q)
    else if q == [] || q[0] != items[0] then None
    else
      var next := if Expands(p, q[0], view) then p.exec(q[0], view).next else [];
      QueueAfter(p, Updated(view, ItemOps(p, q[0], view)), next + q[1..], items[1..])
  }

  /** How an item ends the loop. */
  ghost predicate StopsAs(p: Program, item: Item, view: Data, stop: Stop) {
    match item.kind
    case PromptItem => stop == AtUser(item)
    case FinalItem => stop == AtUser(item)
    case OtherItem => stop == Unexpected(item)
    case ExecItem =>
      var status := p.exec(item, view).status;
      !status.Done? && stop == if status.Failed? then ExecFailed(item) else ExecPanicked(item)
    case WaitItem =>
      var status := p.request(item, view).status;
      stop == if status.Done? then AtWait(item) else if status.Failed? then RequestFailed(item) else RequestPanicked(item)
  }

  /** `h` is a complete run from a session that shows `view`: the items popped are those that come to the head of the
      queue, the session shows what they made of it, and all but the last returned without an error. */
  ghost predicate Trajectory(p: Program, view: Data, q: seq<Item>, h: Halt) {
    && QueueAfter(p, view, q, h.trace) == Some(h.rest)
    && View(h.l) == Folded(p, view, h.trace)
    && if h.stop == Drained then h.rest == [] && AllExpand(p, view, h.trace)
       else
         h.trace != []
         && var before := h.trace[..|h.trace| - 1];
            AllExpand(p, view, before) && StopsAs(p, h.trace[|h.trace| - 1], Folded(p, view, before), h.stop)
  }

  /** A run that begins with an item that returned without an error is one from what it leaves. */
  lemma TrajectoryStep(p: Program, view: Data, q: seq<Item>, h: Halt, g: Halt)
    requires q != [] && Expands(p, q[0], view) && h.trace == [q[0]] + g.trace && h == g.(trace := h.trace)
    ensures Trajectory(p, view, q, h) <==>
      Trajectory(p, Updated(view, ItemOps(p, q[0], view)), p.exec(q[0], view).next + q[1..], g)
  {
    assert h.trace[1..] == g.trace;
    if g.trace != [] {
      var before := h.trace[..|h.trace| - 1];
      assert before[0] == q[0] && before[1..] == g.trace[..|g.trace| - 1];
    } else {
      assert h.trace[..0] == [];
    }
  }

  lemma {:induction false} RunTrajectory(p: Program, l: Local, q: seq<Item>, n: nat)
    requires Run(p, l, q, n).Some?
    ensures Trajectory(p, View(l), q, Run(p, l, q, n).value)
    decreases n
  {
    if q != [] {
      var v, h := VisitItem(p, l, q[0]), Run(p, l, q, n).value;
      ViewUpdated(l, p.exec(q[0], View(l)).ops);
      ViewUpdated(l, p.request(q[0], View(l)).ops);
      if v.Expanded? {
        RunTrajectory(p, v.l, v.next + q[1..], n - 1);
        TrajectoryStep(p, View(l), q, h, Run(p, v.l, v.next + q[1..], n - 1).value);
      } else {
        StoppedTrajectory(p, l, q, h);
      }
    }
  }

  lemma StoppedTrajectory(p: Program, l: Local, q: seq<Item>, h: Halt)
    requires q != [] && h.trace == [q[0]] && h.rest == q[1..] && StopsAs(p, q[0], View(l), h.stop)
    requires View(h.l) == Updated(View(l), ItemOps(p, q[0], View(l)))
    ensures Trajectory(p, View(l), q, h)
  {
    assert h.trace[1..] == [] && h.trace[..0] == [] && [] + q[1..] == q[1..];
  }

  lemma {:induction false} OneTrajectory(p: Program, view: Data, q: seq<Item>, h: Halt, g: Halt)
    requires Trajectory(p, view, q, h) && Trajectory(p, view, q, g)
    ensures h.trace == g.trace && h.stop == g.stop && h.rest == g.rest && View(h.l) == View(g.l)
    decreases |h.trace|
  {
    if q != [] {
      assert h.trace != [] && g.trace != [];
      if Expands(p, q[0], view) {
        var h', g' := h.(trace := h.trace[1..]), g.(trace := g.trace[1..]);
        assert h.trace == [q[0]] + h'.trace && g.trace == [q[0]] + g'.trace;
        TrajectoryStep(p, view, q, h, h');
        TrajectoryStep(p, view, q, g, g');
        OneTrajectory(p, Updated(view, ItemOps(p, q[0], view)), p.exec(q[0], view).next + q[1..], h', g');
      } else {
        StopsAtOnce(p, view, q, h);
        StopsAtOnce(p, view, q, g);
      }
    }
  }

  lemma StopsAtOnce(p: Program, view: Data, q: seq<Item>, h: Halt)
    requires q != [] && !Expands(p, q[0], view) && Trajectory(p, view, q, h)
    ensures h.trace == [q[0]] && StopsAs(p, q[0], view, h.stop) && h.rest == q[1..]
  {
    var before := h.trace[..|h.trace| - 1];
    assert h.trace[0] == q[0];
    assert before == [];
    assert h.trace[1..] == [] && [] + q[1..] == q[1..];
    assert QueueAfter(p, Updated(view, ItemOps(p, q[0], view)), q[1..], h.trace[1..]) == Some(q[1..]);
  }

  /** The loop makes the one complete run there is: which items are popped, where it stops, what is left in the queue,
      and what the session shows then are read off the items' own code. */
  lemma LoopIsTheTrajectory(p: Program, l: Local, q: seq<Item>, h: Halt)
    requires Halts(p, l, q)
    ensures Trajectory(p, View(l), q, Ends(p, l, q))
    ensures Trajectory(p, View(l), q, h) ==> var e := Ends(p, l, q);
      h.trace == e.trace && h.stop == e.stop && h.rest == e.rest && View(h.l) == View(e.l)
  {
    var n: nat :| Run(p, l, q, n).Some?;
    EndsIs(p, l, q, n);
    RunTrajectory(p, l, q, n);
    if Trajectory(p, View(l), q, h) {
      OneTrajectory(p, View(l), q, h, Ends(p, l, q));
    }
  }

  // ---- Termination --------------------------------------------------------------------------------

  /** Server items expand only to server items of smaller rank; user and service items need no rank. */
  ghost predicate Ranked(p: Program, rank: Item -> nat) {
    forall item: Item, view: Data, i: nat ::
      (item.kind.ExecItem? && i < |p.exec(item, view).next| && p.exec(item, view).next[i].kind.ExecItem?) ==>
        rank(p.exec(item, view).next[i]) < rank(item)
  }

  /** However long the lists are that items expand to, and however they depend on the session. */
  lemma {:induction false} RankedQueueHalts(p: Program, rank: Item -> nat, bound: nat, l: Local, q: seq<Item>)
    requires Ranked(p, rank)
    requires forall i | 0 <= i < |q| && q[i].kind.ExecItem? :: rank(q[i]) < bound
    ensures Halts(p, l, q)
    decreases bound, |q|
  {
    if q == [] {
      EndsEmpty(p, l);
    } else {
      var v := VisitItem(p, l, q[0]);
      if v.Stopped? {
        EndsIs(p, l, q, 1);
      } else {
        RankedQueueHalts(p, rank, rank(q[0]), v.l, v.next);
        RankedQueueHalts(p, rank, bound, Ends(p, v.l, v.next).l, q[1..]);
        EndsAppend(p, v.l, v.next, q[1..]);
        EndsExpand(p, l, q);
      }
    }
  }

  ghost function MaxRank(rank: Item -> nat, q: seq<Item>): (r: nat)
    ensures forall i | 0 <= i < |q| :: rank(q[i]) <= r
  {
    if q == [] then 0
    else
      var r := MaxRank(rank, q[1..]);
      assert forall i | 1 <= i < |q| :: q[i] == q[1..][i - 1];
      if r < rank(q[0]) then rank(q[0]) else r
  }

  lemma RankedTerminates(p: Program, rank: Item -> nat)
    requires Ranked(p, rank)
    ensures Terminating(p)
  {
    forall l: Local, q: seq<Item>
      ensures Halts(p, l, q)
    {
      RankedQueueHalts(p, rank, MaxRank(rank, q) + 1, l, q);
    }
  }
}
