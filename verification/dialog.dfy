/** Suspending at a prompt and resuming with the next input, against one interpreter that is never cut. */
module Dialog {
  import opened Values
  import opened LocalSessions
  import opened Stores
  import opened Items
  import opened Interpreter
  import opened Lifecycle
  import opened LastShown
  import B = Bisimulation

  datatype Input = Input(text: string, responder: string, key: string)

  /** What a dialog with a list of inputs does: the items it pops, what it sends, and the session it leaves (none
      if the session was ended). */
  datatype Transcript = Transcript(trace: seq<Item>, sent: seq<Effect>, left: Option<Data>)

  function Preceded(trace: seq<Item>, sent: seq<Effect>, t: Transcript): Transcript {
    Transcript(trace + t.trace, sent + t.sent, t.left)
  }

  /** A run of the queue, and then the dialog at the prompt it stops at. `saves` tells the two interpreters apart: the
      uninterrupted one keeps what is queued behind a prompt, the one that suspends does not. */
  ghost function Running(p: Program, sid: string, saves: bool, l: Local, q: seq<Item>, inputs: seq<Input>): Transcript
    requires Terminating(p)
    decreases |inputs|, 1
  {
    var h := Ends(p, l, q);
    var v := Judge(p, sid, h.l, h.stop);
    if h.stop.AtUser? && v.result == Ok && v.keep.Some? then
      Preceded(h.trace, v.effects,
        Asking(p, sid, saves, Stamped(h.l, v.keep.value), h.stop.item, if saves then h.rest else [], inputs))
    else
      Transcript(h.trace, v.effects, match v.keep case Some(id) => Some(Stamped(h.l, id).data) case None => None)
  }

  /** Waiting at a prompt with the next inputs to come: rejected ones repeat it, an accepted one goes on. */
  ghost function Asking(p: Program, sid: string, saves: bool, l: Local, item: Item, pending: seq<Item>,
      inputs: seq<Input>): Transcript
    requires Terminating(p)
    decreases |inputs|, 0
  {
    if inputs == [] then Transcript([], [], Some(l.data))
    else
      var a := p.process(item, View(l), inputs[0].text);
      var l' := ApplyOps(l, a.ops);
      match a.status
      case Failed(message) =>
        Preceded([], [Responded(sid, inputs[0].responder, inputs[0].key, ResponseTypeResponse,
            RepeatText(p, item, l', message), item)],
          Asking(p, sid, saves, l', item, pending, inputs[1..]))
      case Panicked => Asking(p, sid, saves, l', item, pending, inputs[1..])
      case Done =>
        Running(p, sid, saves, Addressed(l', inputs[0].responder, inputs[0].key), a.next + pending, inputs[1..])
  }

  // ---- When suspending loses nothing ---------------------------------------------------------------

  /** In the suspending dialog, no run falls off the end of its queue while the uninterrupted one still has
      something pending. */
  ghost predicate Covered(p: Program, sid: string, l: Local, q: seq<Item>, pending: seq<Item>, inputs: seq<Input>)
    requires Terminating(p)
    decreases |inputs|, 1
  {
    var h := Ends(p, l, q);
    var v := Judge(p, sid, h.l, h.stop);
    && (pending != [] ==> h.stop != Drained)
    && (h.stop.AtUser? && v.result == Ok && v.keep.Some? ==>
      CoveredAt(p, sid, Stamped(h.l, v.keep.value), h.stop.item, h.rest + pending, inputs))
  }

  ghost predicate CoveredAt(p: Program, sid: string, l: Local, item: Item, pending: seq<Item>, inputs: seq<Input>)
    requires Terminating(p)
    decreases |inputs|, 0
  {
    inputs != [] ==>
      var a := p.process(item, View(l), inputs[0].text);
      var l' := ApplyOps(l, a.ops);
      if a.status.Done? then
        Covered(p, sid, Addressed(l', inputs[0].responder, inputs[0].key), a.next, pending, inputs[1..])
      else
        CoveredAt(p, sid, l', item, pending, inputs[1..])
  }

  /** The two dialogs are the same if that holds, and otherwise the suspending one pops strictly fewer items. */
  lemma {:induction false} CutRun(p: Program, sid: string, l: Local, q: seq<Item>, pending: seq<Item>, inputs: seq<Input>)
    requires Terminating(p)
    ensures var whole, cut := Running(p, sid, true, l, q + pending, inputs), Running(p, sid, false, l, q, inputs);
      if Covered(p, sid, l, q, pending, inputs) then whole == cut else |cut.trace| < |whole.trace|
    decreases |inputs|, 1
  {
    EndsAppend(p, l, q, pending);
    var h := Ends(p, l, q);
    var v := Judge(p, sid, h.l, h.stop);
    if h.stop == Drained {
      if pending == [] {
        EndsEmpty(p, h.l);
        assert q + pending == q;
      } else {
        EndsStep(p, h.l, pending);
        assert |Ends(p, h.l, pending).trace| > 0;
      }
    } else {
      assert Ends(p, l, q + pending) == Behind(h, pending);
      if h.stop.AtUser? && v.result == Ok && v.keep.Some? {
        CutAt(p, sid, Stamped(h.l, v.keep.value), h.stop.item, h.rest + pending, inputs);
      }
    }
  }

  lemma {:induction false} CutAt(p: Program, sid: string, l: Local, item: Item, pending: seq<Item>, inputs: seq<Input>)
    requires Terminating(p)
    ensures var whole, cut := Asking(p, sid, true, l, item, pending, inputs), Asking(p, sid, false, l, item, [], inputs);
      if CoveredAt(p, sid, l, item, pending, inputs) then whole == cut else |cut.trace| < |whole.trace|
    decreases |inputs|, 0
  {
    if inputs != [] {
      var a := p.process(item, View(l), inputs[0].text);
      var l' := ApplyOps(l, a.ops);
      if a.status.Done? {
        assert a.next + [] == a.next;
        CutRun(p, sid, Addressed(l', inputs[0].responder, inputs[0].key), a.next, pending, inputs[1..]);
      } else {
        CutAt(p, sid, l', item, pending, inputs[1..]);
      }
    }
  }

  /** Suspending at prompts and resuming agrees with never being cut exactly when no resumed run falls off its queue
      with something left behind a prompt. */
  lemma SuspendResumeAgreement(p: Program, sid: string, l: Local, q: seq<Item>, inputs: seq<Input>)
    requires Terminating(p)
    ensures Running(p, sid, true, l, q, inputs) == Running(p, sid, false, l, q, inputs)
      <==> Covered(p, sid, l, q, [], inputs)
  {
    assert q + [] == q;
    CutRun(p, sid, l, q, [], inputs);
  }

  // ---- Services that lose nothing ------------------------------------------------------------------

  /** Nothing is queued behind any prompt the suspending dialog reaches. */
  ghost predicate NothingBehind(p: Program, sid: string, l: Local, q: seq<Item>, inputs: seq<Input>)
    requires Terminating(p)
    decreases |inputs|, 1
  {
    var h := Ends(p, l, q);
    var v := Judge(p, sid, h.l, h.stop);
    h.stop.AtUser? && v.result == Ok && v.keep.Some? ==>
      h.rest == [] && NothingBehindAt(p, sid, Stamped(h.l, v.keep.value), h.stop.item, inputs)
  }

  ghost predicate NothingBehindAt(p: Program, sid: string, l: Local, item: Item, inputs: seq<Input>)
    requires Terminating(p)
    decreases |inputs|, 0
  {
    inputs != [] ==>
      var a := p.process(item, View(l), inputs[0].text);
      var l' := ApplyOps(l, a.ops);
      if a.status.Done? then NothingBehind(p, sid, Addressed(l', inputs[0].responder, inputs[0].key), a.next, inputs[1..])
      else NothingBehindAt(p, sid, l', item, inputs[1..])
  }

  /** Then suspending agrees with never being cut. */
  lemma {:induction false} NothingBehindCovers(p: Program, sid: string, l: Local, q: seq<Item>, inputs: seq<Input>)
    requires Terminating(p) && NothingBehind(p, sid, l, q, inputs)
    ensures Covered(p, sid, l, q, [], inputs)
    ensures Running(p, sid, true, l, q, inputs) == Running(p, sid, false, l, q, inputs)
    decreases |inputs|, 1
  {
    var h := Ends(p, l, q);
    var v := Judge(p, sid, h.l, h.stop);
    if h.stop.AtUser? && v.result == Ok && v.keep.Some? {
      NothingBehindCoversAt(p, sid, Stamped(h.l, v.keep.value), h.stop.item, inputs);
      NothingAdded(h.rest);
    }
    SuspendResumeAgreement(p, sid, l, q, inputs);
  }

  lemma {:induction false} NothingBehindCoversAt(p: Program, sid: string, l: Local, item: Item, inputs: seq<Input>)
    requires Terminating(p) && NothingBehindAt(p, sid, l, item, inputs)
    ensures CoveredAt(p, sid, l, item, [], inputs)
    decreases |inputs|, 0
  {
    if inputs != [] {
      var a := p.process(item, View(l), inputs[0].text);
      var l' := ApplyOps(l, a.ops);
      if a.status.Done? {
        NothingBehindCovers(p, sid, Addressed(l', inputs[0].responder, inputs[0].key), a.next, inputs[1..]);
      } else {
        NothingBehindCoversAt(p, sid, l', item, inputs[1..]);
      }
    }
  }

  /** Only the last item may be a prompt, or lead to one. */
  ghost predicate Linear(q: seq<Item>, promptless: set<Item>) {
    forall i | 0 <= i < |q| - 1 :: q[i] in promptless
  }

  /** Items of `promptless` are no prompts and expand only to such items; and every list that an item of the service
      returns is linear. An author can read this off the service's definition. */
  ghost predicate PromptsLast(p: Program, promptless: set<Item>) {
    && (forall i | i in promptless :: !i.kind.PromptItem?)
    && (forall i: Item, view: Data, k: nat | i in promptless && i.kind.ExecItem? && k < |p.exec(i, view).next| ::
          p.exec(i, view).next[k] in promptless)
    && (forall i: Item, view: Data :: Linear(p.exec(i, view).next, promptless))
    && (forall i: Item, view: Data, input: string :: Linear(p.process(i, view, input).next, promptless))
  }

  lemma {:induction false} LinearRun(p: Program, promptless: set<Item>, l: Local, q: seq<Item>, n: nat)
    requires PromptsLast(p, promptless) && Linear(q, promptless) && Run(p, l, q, n).Some?
    ensures var h := Run(p, l, q, n).value;
      h.stop.AtUser? && h.stop.item.kind.PromptItem? ==> h.rest == []
    decreases n
  {
    if q != [] {
      var v := VisitItem(p, l, q[0]);
      if v.Expanded? {
        assert v.next == p.exec(q[0], View(l)).next;
        assert Linear(v.next + q[1..], promptless);
        LinearRun(p, promptless, v.l, v.next + q[1..], n - 1);
      }
    }
  }

  /** A service whose prompts come last leaves nothing behind any prompt, in any dialog. */
  lemma {:induction false} PromptsLastCovers(p: Program, promptless: set<Item>, sid: string, l: Local, q: seq<Item>, inputs: seq<Input>)
    requires Terminating(p) && PromptsLast(p, promptless) && Linear(q, promptless)
    ensures NothingBehind(p, sid, l, q, inputs)
    decreases |inputs|, 1
  {
    assert Halts(p, l, q);
    var n: nat :| Run(p, l, q, n).Some?;
    EndsIs(p, l, q, n);
    LinearRun(p, promptless, l, q, n);
    var h := Ends(p, l, q);
    var v := Judge(p, sid, h.l, h.stop);
    if h.stop.AtUser? && v.result == Ok && v.keep.Some? {
      PromptsLastCoversAt(p, promptless, sid, Stamped(h.l, v.keep.value), h.stop.item, inputs);
    }
  }

  lemma {:induction false} PromptsLastCoversAt(p: Program, promptless: set<Item>, sid: string, l: Local, item: Item, inputs: seq<Input>)
    requires Terminating(p) && PromptsLast(p, promptless)
    ensures NothingBehindAt(p, sid, l, item, inputs)
    decreases |inputs|, 0
  {
    if inputs != [] {
      var a := p.process(item, View(l), inputs[0].text);
      var l' := ApplyOps(l, a.ops);
      if a.status.Done? {
        assert Linear(a.next, promptless);
        PromptsLastCovers(p, promptless, sid, Addressed(l', inputs[0].responder, inputs[0].key), a.next, inputs[1..]);
      } else {
        PromptsLastCoversAt(p, promptless, sid, l', item, inputs[1..]);
      }
    }
  }

  // ---- Only what the session shows matters ---------------------------------------------------------

  lemma VisitDataOnly(p: Program, l: Local, k: Local, item: Item)
    requires l.data == k.data
    ensures var v, u := VisitItem(p, l, item), VisitItem(p, k, item);
      v.l.data == u.l.data && (if v.Expanded? then u == Expanded(u.l, v.next) else u == Stopped(u.l, v.stop))
  {
    OpsDataOnly(l, k, p.exec(item, View(l)).ops);
    OpsDataOnly(l, k, p.request(item, View(l)).ops);
  }

  lemma {:induction false} RunDataOnly(p: Program, l: Local, k: Local, q: seq<Item>, n: nat)
    requires l.data == k.data && Run(p, l, q, n).Some?
    ensures Run(p, k, q, n).Some?
    ensures var h, g := Run(p, l, q, n).value, Run(p, k, q, n).value;
      g == h.(l := g.l) && g.l.data == h.l.data
    decreases n
  {
    if q != [] {
      VisitDataOnly(p, l, k, q[0]);
      var v, u := VisitItem(p, l, q[0]), VisitItem(p, k, q[0]);
      if v.Expanded? {
        RunDataOnly(p, v.l, u.l, v.next + q[1..], n - 1);
      }
    }
  }

  lemma {:induction false} RunningDataOnly(p: Program, sid: string, saves: bool, l: Local, k: Local, q: seq<Item>, inputs: seq<Input>)
    requires Terminating(p) && l.data == k.data
    ensures Running(p, sid, saves, l, q, inputs) == Running(p, sid, saves, k, q, inputs)
    decreases |inputs|, 1
  {
    assert Halts(p, l, q);
    var n: nat :| Run(p, l, q, n).Some?;
    RunDataOnly(p, l, k, q, n);
    EndsIs(p, l, q, n);
    EndsIs(p, k, q, n);
    var h, g := Ends(p, l, q), Ends(p, k, q);
    var v := Judge(p, sid, h.l, h.stop);
    assert Judge(p, sid, g.l, g.stop) == v;
    if h.stop.AtUser? && v.result == Ok && v.keep.Some? {
      AskingDataOnly(p, sid, saves, Stamped(h.l, v.keep.value), Stamped(g.l, v.keep.value), h.stop.item,
        if saves then h.rest else [], inputs);
    }
  }

  lemma {:induction false} AskingDataOnly(p: Program, sid: string, saves: bool, l: Local, k: Local, item: Item,
      pending: seq<Item>, inputs: seq<Input>)
    requires Terminating(p) && l.data == k.data
    ensures Asking(p, sid, saves, l, item, pending, inputs) == Asking(p, sid, saves, k, item, pending, inputs)
    decreases |inputs|, 0
  {
    if inputs != [] {
      var a := p.process(item, View(l), inputs[0].text);
      OpsDataOnly(l, k, a.ops);
      var l', k' := ApplyOps(l, a.ops), ApplyOps(k, a.ops);
      if a.status.Done? {
        RunningDataOnly(p, sid, saves, Addressed(l', inputs[0].responder, inputs[0].key),
          Addressed(k', inputs[0].responder, inputs[0].key), a.next + pending, inputs[1..]);
      } else {
        AskingDataOnly(p, sid, saves, l', k', item, pending, inputs[1..]);
      }
    }
  }

  // ---- The suspending dialog is what the calls do --------------------------------------------------

  const KEPT: set<string> := RESERVED + {NEXT_ITEM_IDS}

  /** Unique ids, every prompt registered, and the interpreter's own names left alone. */
  ghost predicate Service(p: Program, items: set<Item>) {
    && Disciplined(p, items, KEPT)
    && forall i | i in items && i.kind.PromptItem? :: i.id in p.itemByID
  }

  /** Nothing is queued for the session in its own data. */
  predicate Unqueued(d: Data) {
    !Lookup(d, NEXT_ITEM_IDS).StrList?
  }

  function Calls(sid: string, inputs: seq<Input>): seq<Event> {
    seq(|inputs|, i requires 0 <= i < |inputs| =>
      UserInput(sid, map[], inputs[i].text, Some(inputs[i].responder), inputs[i].key, Nets(Delivered, Delivered)))
  }

  /** The items popped over a run of calls. */
  ghost function Traces(be: Backend, p: Program, w: World, events: seq<Event>): seq<Item>
    requires Terminating(p)
    decreases |events|
  {
    if events == [] then []
    else Serve(be, p, w.store, events[0]).trace + Traces(be, p, Step(be, p, w, events[0]), events[1..])
  }

  function Kept(store: Store, sid: string, left: Option<Data>): Store {
    match left case None => store - {sid} case Some(d) => store[sid := d]
  }

  /** The calls did what the transcript says. */
  ghost predicate Follows(be: Backend, p: Program, w: World, events: seq<Event>, store: Store, log: seq<Effect>,
      trace: seq<Item>, sid: string, t: Transcript)
    requires Terminating(p)
  {
    && After(be, p, w, events) == World(Kept(store, sid, t.left), log + t.sent)
    && trace + Traces(be, p, w, events) == t.trace
  }

  /** A session that is absent, or whose item takes no input, ignores every input. */
  lemma {:induction false} DeafToCalls(p: Program, w: World, sid: string, inputs: seq<Input>)
    requires Terminating(p) && "" !in p.itemByID
    requires sid in w.store ==> WaitsAt(p, w.store[sid]).None?
    ensures After(InMem, p, w, Calls(sid, inputs)) == w && Traces(InMem, p, w, Calls(sid, inputs)) == []
    decreases |inputs|
  {
    if inputs != [] {
      assert Calls(sid, inputs)[1..] == Calls(sid, inputs[1..]);
      if sid in w.store {
        SetAllNothing(Opened(Some(w.store[sid])));
        SameMap(Leave(InMem, w.store, sid, Opened(Some(w.store[sid]))), w.store);
      }
      assert w.log + [] == w.log;
      DeafToCalls(p, w, sid, inputs[1..]);
    }
  }

  lemma MirroredCommit(through: bool, store: Store, sid: string, l: Local)
    requires Mirrored(l) && (!through ==> sid !in store)
    ensures SyncStore(InMem, if through then Leave(InMem, store, sid, l) else store, sid, l, Delivered) == store[sid := l.data]
  {
    assert (l.data - l.toDel) + l.toSet == l.data;
    assert (map[] - l.toDel) + l.toSet == l.toSet;
  }

  lemma {:induction false} RunMirrored(p: Program, l: Local, q: seq<Item>, n: nat)
    requires Mirrored(l) && Run(p, l, q, n).Some?
    ensures Mirrored(Run(p, l, q, n).value.l)
    decreases n
  {
    if q != [] {
      OpsMirrored(l, p.exec(q[0], View(l)).ops);
      OpsMirrored(l, p.request(q[0], View(l)).ops);
      var v := VisitItem(p, l, q[0]);
      if v.Expanded? {
        RunMirrored(p, v.l, v.next + q[1..], n - 1);
      }
    }
  }

  /** What a run of the queue leaves stored, and at which prompt the stored session then waits. */
  lemma FinishLeaves(p: Program, items: set<Item>, through: bool, store: Store, sid: string, l: Local, q: seq<Item>)
    requires Terminating(p) && Service(p, items) && Within(q, items) && Mirrored(l) && Unqueued(l.data)
    requires Lookup(l.data, RESPONDER_ID).Str? && Lookup(l.data, RESPONDER_KEY).Str?
    requires !through ==> sid !in store
    ensures var h := Ends(p, l, q);
      var v := Judge(p, sid, h.l, h.stop);
      && Finish(InMem, p, through, store, sid, l, q, Delivered) ==
        Call(Kept(store, sid, match v.keep case Some(id) => Some(Stamped(h.l, id).data) case None => None),
          v.effects, v.result, h.trace)
      && (v.keep.Some? ==>
        && Unqueued(Stamped(h.l, v.keep.value).data)
        && WaitsAt(p, Stamped(h.l, v.keep.value).data) ==
          if h.stop.AtUser? && v.result == Ok then Some(h.stop.item) else None)
      && (h.stop.AtUser? ==> h.stop.item in items)
  {
    assert q + [] == q;
    assert Halts(p, l, q);
    var n: nat :| Run(p, l, q, n).Some?;
    EndsIs(p, l, q, n);
    RunMirrored(p, l, q, n);
    EndsStaysWithin(p, items, KEPT, l, q);
    var h := Ends(p, l, q);
    var v := Judge(p, sid, h.l, h.stop);
    assert RESPONDER_ID in KEPT && RESPONDER_KEY in KEPT && NEXT_ITEM_IDS in KEPT;
    if v.keep.Some? {
      MirroredCommit(through, store, sid, Stamped(h.l, v.keep.value));
      assert v.keep.value == h.stop.item.id;
      assert h.stop.item.id in p.itemByID ==> p.itemByID[h.stop.item.id] == h.stop.item;
    }
  }

  /** What follows a call that left the session stored also follows the call itself. */
  lemma FollowsOn(be: Backend, p: Program, events: seq<Event>, store: Store, log: seq<Effect>, sid: string, d: Data,
      trace: seq<Item>, sent: seq<Effect>, t: Transcript)
    requires Terminating(p)
    requires Follows(be, p, World(store[sid := d], log + sent), events, store[sid := d], log + sent, [], sid, t)
    ensures Follows(be, p, World(store[sid := d], log + sent), events, store, log, trace, sid, Preceded(trace, sent, t))
  {
    Regroup(log, sent, t.sent);
    SameMap(Kept(store[sid := d], sid, t.left), Kept(store, sid, t.left));
    NothingAdded(Traces(be, p, World(store[sid := d], log + sent), events));
  }

  /** A call, and what follows it. */
  lemma FollowsFirst(be: Backend, p: Program, w: World, events: seq<Event>, sid: string, t: Transcript)
    requires Terminating(p) && events != []
    requires Follows(be, p, Step(be, p, w, events[0]), events[1..], w.store, w.log, Serve(be, p, w.store, events[0]).trace, sid, t)
    ensures Follows(be, p, w, events, w.store, w.log, [], sid, t)
  {
    NothingAdded(Traces(be, p, w, events));
  }

  /** The next input of a waiting session goes to the item it waits at. */
  lemma InputReaches(p: Program, w: World, sid: string, item: Item, inputs: seq<Input>)
    requires inputs != [] && sid in w.store && WaitsAt(p, w.store[sid]) == Some(item)
    ensures Calls(sid, inputs)[1..] == Calls(sid, inputs[1..])
    ensures var e := Calls(sid, inputs)[0];
      Enter(InMem, p, w.store, e) == Continue(InMem, p, w.store, e, item, inputs[0].responder, Opened(Some(w.store[sid])))
  {
    SetAllNothing(Opened(Some(w.store[sid])));
  }

  /** A call that runs a queue, and the inputs after it, follow the suspending dialog from that queue. */
  lemma {:induction false} RunningIsCalls(p: Program, items: set<Item>, through: bool, store: Store, log: seq<Effect>,
      sid: string, l: Local, q: seq<Item>, inputs: seq<Input>)
    requires Terminating(p) && Service(p, items) && Within(q, items) && Mirrored(l) && Unqueued(l.data)
    requires Lookup(l.data, RESPONDER_ID).Str? && Lookup(l.data, RESPONDER_KEY).Str?
    requires !through ==> sid !in store
    ensures var c := Finish(InMem, p, through, store, sid, l, q, Delivered);
      Follows(InMem, p, World(c.store, log + c.sent), Calls(sid, inputs), store, log, c.trace, sid,
        Running(p, sid, false, l, q, inputs))
    decreases |inputs|, 1
  {
    FinishLeaves(p, items, through, store, sid, l, q);
    var c := Finish(InMem, p, through, store, sid, l, q, Delivered);
    var h := Ends(p, l, q);
    var v := Judge(p, sid, h.l, h.stop);
    var w := World(c.store, log + c.sent);
    if h.stop.AtUser? && v.result == Ok && v.keep.Some? {
      var l' := Stamped(h.l, v.keep.value);
      AskingIsCalls(p, items, w, sid, h.stop.item, inputs);
      AskingDataOnly(p, sid, false, l', Opened(Some(l'.data)), h.stop.item, [], inputs);
      FollowsOn(InMem, p, Calls(sid, inputs), store, log, sid, l'.data, h.trace, v.effects,
        Asking(p, sid, false, l', h.stop.item, [], inputs));
    } else {
      DeafToCalls(p, w, sid, inputs);
      assert c.trace + [] == c.trace;
    }
  }

  /** So do the inputs of a session that waits at a prompt. */
  lemma {:induction false} AskingIsCalls(p: Program, items: set<Item>, w: World, sid: string, item: Item, inputs: seq<Input>)
    requires Terminating(p) && Service(p, items) && item in items
    requires sid in w.store && Unqueued(w.store[sid]) && WaitsAt(p, w.store[sid]) == Some(item)
    ensures Follows(InMem, p, w, Calls(sid, inputs), w.store, w.log, [], sid,
      Asking(p, sid, false, Opened(Some(w.store[sid])), item, [], inputs))
    decreases |inputs|, 0
  {
    var l := Opened(Some(w.store[sid]));
    if inputs == [] {
      SameMap(Kept(w.store, sid, Some(l.data)), w.store);
      NothingAdded(w.log);
    } else {
      var e, rest := Calls(sid, inputs)[0], inputs[1..];
      InputReaches(p, w, sid, item, inputs);
      var a := p.process(item, View(l), inputs[0].text);
      assert Obedient(a, items, KEPT);
      OpsKeep(KEPT, l, a.ops);
      OpsMirrored(l, a.ops);
      var l' := ApplyOps(l, a.ops);
      var c := Serve(InMem, p, w.store, e);
      assert CURRENT_ITEM_ID in KEPT && NEXT_ITEM_IDS in KEPT;
      if a.status.Done? {
        NothingAdded(a.next);
        RunningIsCalls(p, items, true, w.store, w.log, sid, Addressed(l', inputs[0].responder, inputs[0].key), a.next, rest);
      } else {
        assert c.store == w.store[sid := l'.data] && c.trace == [];
        AskingIsCalls(p, items, World(c.store, w.log + c.sent), sid, item, rest);
        AskingDataOnly(p, sid, false, l', Opened(Some(l'.data)), item, [], rest);
        FollowsOn(InMem, p, Calls(sid, rest), w.store, w.log, sid, l'.data, [], c.sent,
          Asking(p, sid, false, l', item, [], rest));
        if a.status.Panicked? {
          Skipped(Asking(p, sid, false, l', item, [], rest));
        }
      }
      FollowsFirst(InMem, p, w, Calls(sid, inputs), sid, Asking(p, sid, false, l, item, [], inputs));
    }
  }

  lemma Skipped(t: Transcript)
    ensures Preceded([], [], t) == t
  {
    NothingAdded(t.trace);
    NothingAdded(t.sent);
  }

  /** A waiting session's calls execute the same items, send the same things and leave the same session as one
      interpreter that is never cut, exactly when no resumed run falls off its queue with something left behind. */
  lemma CallsAgreeWithUncut(p: Program, items: set<Item>, w: World, sid: string, item: Item, inputs: seq<Input>)
    requires Terminating(p) && Service(p, items) && item in items
    requires sid in w.store && Unqueued(w.store[sid]) && WaitsAt(p, w.store[sid]) == Some(item)
    ensures var l := Opened(Some(w.store[sid]));
      Follows(InMem, p, w, Calls(sid, inputs), w.store, w.log, [], sid, Asking(p, sid, true, l, item, [], inputs))
      <==> CoveredAt(p, sid, l, item, [], inputs)
  {
    AskingIsCalls(p, items, w, sid, item, inputs);
    CutAt(p, sid, Opened(Some(w.store[sid])), item, [], inputs);
  }

  /** The same for a session from its first call on. */
  lemma StartedAgreesWithUncut(p: Program, items: set<Item>, w: World, e: Event, inputs: seq<Input>)
    requires Terminating(p) && Service(p, items) && e.Start? && Sid(e) !in w.store
    requires e.item.Some? && e.item.value in items && e.responder.Some?
    requires e.init.Some? ==> e.init.value.Keys !! KEPT
    requires p.exec(e.item.value, View(SetLocal(Opened(e.init), INIT_REQUEST, Str(e.request)))).status.Done?
    ensures var l0 := SetLocal(Opened(e.init), INIT_REQUEST, Str(e.request));
      var a := p.exec(e.item.value, View(l0));
      var l := Addressed(ApplyOps(l0, a.ops), e.responder.value, e.key);
      Follows(InMem, p, Step(InMem, p, w, e), Calls(Sid(e), inputs), w.store, w.log, Serve(InMem, p, w.store, e).trace,
        Sid(e), Running(p, Sid(e), true, l, a.next, inputs))
      <==> Covered(p, Sid(e), l, a.next, [], inputs)
  {
    var l0 := SetLocal(Opened(e.init), INIT_REQUEST, Str(e.request));
    var a := p.exec(e.item.value, View(l0));
    assert Obedient(a, items, KEPT);
    OpsKeep(KEPT, l0, a.ops);
    OpsMirrored(l0, a.ops);
    assert NEXT_ITEM_IDS in KEPT;
    var l := Addressed(ApplyOps(l0, a.ops), e.responder.value, e.key);
    RunningIsCalls(p, items, false, w.store, w.log, Sid(e), l, a.next, inputs);
    CutRun(p, Sid(e), l, a.next, [], inputs);
    assert a.next + [] == a.next;
  }

  /** Every session of a service whose prompts come last: its calls do what the interpreter does that is never cut. */
  lemma PromptsLastAgree(p: Program, items: set<Item>, promptless: set<Item>, w: World, e: Event, inputs: seq<Input>)
    requires Terminating(p) && Service(p, items) && PromptsLast(p, promptless) && e.Start? && Sid(e) !in w.store
    requires e.item.Some? && e.item.value in items && e.responder.Some?
    requires e.init.Some? ==> e.init.value.Keys !! KEPT
    requires p.exec(e.item.value, View(SetLocal(Opened(e.init), INIT_REQUEST, Str(e.request)))).status.Done?
    ensures var l0 := SetLocal(Opened(e.init), INIT_REQUEST, Str(e.request));
      var a := p.exec(e.item.value, View(l0));
      var l := Addressed(ApplyOps(l0, a.ops), e.responder.value, e.key);
      Follows(InMem, p, Step(InMem, p, w, e), Calls(Sid(e), inputs), w.store, w.log, Serve(InMem, p, w.store, e).trace,
        Sid(e), Running(p, Sid(e), true, l, a.next, inputs))
  {
    var l0 := SetLocal(Opened(e.init), INIT_REQUEST, Str(e.request));
    var a := p.exec(e.item.value, View(l0));
    var l := Addressed(ApplyOps(l0, a.ops), e.responder.value, e.key);
    assert Linear(a.next, promptless);
    PromptsLastCovers(p, promptless, Sid(e), l, a.next, inputs);
    NothingBehindCovers(p, Sid(e), l, a.next, inputs);
    StartedAgreesWithUncut(p, items, w, e, inputs);
  }

  // ---- Over REST too -------------------------------------------------------------------------------

  lemma {:induction false} FairCalls(p: Program, w: World, sid: string, inputs: seq<Input>)
    requires Terminating(p) && B.PortableProgram(p)
    ensures B.FairRun(p, w, Calls(sid, inputs))
    decreases |inputs|
  {
    if inputs != [] {
      assert Calls(sid, inputs)[1..] == Calls(sid, inputs[1..]);
      B.CleanIsQuiet(p, w.store, Calls(sid, inputs)[0]);
      FairCalls(p, Step(InMem, p, w, Calls(sid, inputs)[0]), sid, inputs[1..]);
    }
  }

  lemma {:induction false} SameTraces(p: Program, wm: World, wr: World, events: seq<Event>)
    requires Terminating(p) && B.SameCalls(p, wm, wr, events)
    ensures Traces(InMem, p, wm, events) == Traces(Rest, p, wr, events)
    decreases |events|
  {
    if events != [] {
      SameTraces(p, Step(InMem, p, wm, events[0]), Step(Rest, p, wr, events[0]), events[1..]);
    }
  }

  /** For a portable service the REST back-end follows the uncut dialog exactly under the same condition. */
  lemma RestAgreesWithUncut(p: Program, items: set<Item>, wm: World, wr: World, sid: string, item: Item, inputs: seq<Input>)
    requires Terminating(p) && Service(p, items) && B.PortableProgram(p) && item in items
    requires B.Agree(wm.store, wr.store) && wm.log == wr.log
    requires sid in wm.store && Unqueued(wm.store[sid]) && WaitsAt(p, wm.store[sid]) == Some(item)
    ensures var l := Opened(Some(wm.store[sid]));
      CoveredAt(p, sid, l, item, [], inputs) <==>
        Traces(Rest, p, wr, Calls(sid, inputs)) == Asking(p, sid, true, l, item, [], inputs).trace
    ensures var l := Opened(Some(wm.store[sid]));
      var t := Asking(p, sid, true, l, item, [], inputs);
      var w' := After(Rest, p, wr, Calls(sid, inputs));
      CoveredAt(p, sid, l, item, [], inputs) ==>
        && w'.log == wr.log + t.sent
        && (t.left.Some? ==> sid in w'.store && w'.store[sid] == t.left.value)
  {
    var l := Opened(Some(wm.store[sid]));
    AskingIsCalls(p, items, wm, sid, item, inputs);
    CutAt(p, sid, l, item, [], inputs);
    FairCalls(p, wm, sid, inputs);
    B.BackendsBisimilar(p, wm, wr, Calls(sid, inputs));
    SameTraces(p, wm, wr, Calls(sid, inputs));
    NothingAdded(Traces(InMem, p, wm, Calls(sid, inputs)));
  }
}
