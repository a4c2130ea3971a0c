/** The in-memory store and the REST store side by side: which calls a service can tell them apart by, and which not. */
module Bisimulation {
  import opened Values
  import opened LocalSessions
  import opened Stores
  import opened Items
  import opened Interpreter
  import opened Lifecycle

  // ---- What the service and its callers must keep to -----------------------------------------------

  ghost predicate PlainOps(ops: seq<Op>) {
    forall i | 0 <= i < |ops| :: ops[i].SetOp? ==> Plain(ops[i].value)
  }

  /** Items set only strings, booleans and nil, and none is registered under the empty id. */
  ghost predicate PlainProgram(p: Program) {
    && (forall i: Item, view: Data :: PlainOps(p.exec(i, view).ops))
    && (forall i: Item, view: Data :: PlainOps(p.request(i, view).ops))
    && (forall i: Item, view: Data, input: string :: PlainOps(p.process(i, view, input).ops))
    && "" !in p.itemByID
  }

  /** Besides, a prompt that does not accept has not touched the session. */
  ghost predicate PortableProgram(p: Program) {
    PlainProgram(p) && forall i: Item, view: Data, input: string :: CleanProcess(p.process(i, view, input))
  }

  ghost predicate CleanProcess(a: Act) {
    PlainOps(a.ops) && (a.status.Done? || a.ops == [])
  }

  ghost predicate TidyData(d: Data) {
    PlainData(d) && NoNulls(d)
  }

  /** A network that works; caller data without lists (a new session's also without nils) and `current_item_id`. */
  ghost predicate Ordinary(e: Event) {
    && e.net == Nets(Delivered, Delivered)
    && (e.Start? && e.init.Some? ==> TidyData(e.init.value) && CURRENT_ITEM_ID !in e.init.value)
    && (e.UserInput? ==> PlainData(e.data) && CURRENT_ITEM_ID !in e.data)
  }

  /** The stores agree on every waiting session; the REST store may hold others, left by a `Start` that failed. */
  ghost predicate Agree(mem: Store, rest: Store) {
    && (forall id | id in mem :: CURRENT_ITEM_ID in mem[id] && TidyData(mem[id]))
    && (forall id | id in mem :: id in rest && rest[id] == mem[id])
    && (forall id | id in rest && CURRENT_ITEM_ID in rest[id] :: id in mem)
  }

  ghost predicate SameCall(c: Call, d: Call) {
    c.sent == d.sent && c.trace == d.trace && (c.result == d.result || (c.result.Err? && d.result.Err?))
  }

  // ---- When a call keeps them in agreement ---------------------------------------------------------

  /** The session a `Start` hands to its first item. */
  function StartedLocal(e: Event): Local
    requires e.Start?
  {
    SetLocal(Opened(e.init), INIT_REQUEST, Str(e.request))
  }

  /** A `Start` over an entry that writes every name of it: its first item succeeds and, if the session is kept, each
      old name was set or deleted. */
  ghost predicate TakesOver(p: Program, d: Data, e: Event)
    requires Terminating(p) && e.Start? && e.item.Some? && e.responder.Some?
  {
    var a := p.exec(e.item.value, View(StartedLocal(e)));
    && a.status.Done?
    && var o := Proceed(p, Sid(e), Addressed(ApplyOps(StartedLocal(e), a.ops), e.responder.value, e.key), a.next);
      o.verdict.keep.Some? ==>
        var l := Stamped(o.l, o.verdict.keep.value);
        d.Keys <= l.toSet.Keys + l.toDel
  }

  function Prompted(p: Program, l: Local): Option<Item> {
    match ItemByID(p, CurrentItemId(l))
    case Some(item) => if item.kind.PromptItem? then Some(item) else None
    case None => None
  }

  /** The session of an input, with its extra data, as `Process` leaves it (if there is a prompt to process it). */
  function InputLocal(p: Program, d: Data, e: Event): Local
    requires e.UserInput?
  {
    var l := SetAll(Opened(Some(d)), e.data);
    match Prompted(p, l) case Some(item) => ApplyOps(l, p.process(item, View(l), e.input).ops) case None => l
  }

  predicate Accepted(p: Program, d: Data, e: Event)
    requires e.UserInput?
  {
    var l := SetAll(Opened(Some(d)), e.data);
    Prompted(p, l).Some? && p.process(Prompted(p, l).value, View(l), e.input).status.Done?
  }

  /** A `Start` over a waiting session takes over its whole entry; an input that is not accepted changes nothing. */
  ghost predicate Quiet(p: Program, mem: Store, e: Event)
    requires Terminating(p)
  {
    match e
    case Start(_, _, _, _, _, _, _, _) =>
      e.item.Some? && e.responder.Some? && Sid(e) in mem ==> TakesOver(p, mem[Sid(e)], e)
    case UserInput(_, _, _, _, _, _) =>
      e.responder.Some? && e.id in mem && !Accepted(p, mem[e.id], e) ==> InputLocal(p, mem[e.id], e).data == mem[e.id]
    case UserAbort(_, _) => true
  }

  lemma CleanIsQuiet(p: Program, mem: Store, e: Event)
    requires Terminating(p) && PortableProgram(p) && e.UserInput? && e.data == map[]
    ensures Quiet(p, mem, e)
  {
    if e.id in mem {
      var l := Opened(Some(mem[e.id]));
      SetAllNothing(l);
      if Prompted(p, l).Some? {
        assert CleanProcess(p.process(Prompted(p, l).value, View(l), e.input));
      }
    }
  }

  /** Ordinary calls only, and each of them quiet. */
  ghost predicate FairRun(p: Program, w: World, events: seq<Event>)
    requires Terminating(p)
    decreases |events|
  {
    events != [] ==>
      Ordinary(events[0]) && Quiet(p, w.store, events[0]) && FairRun(p, Step(InMem, p, w, events[0]), events[1..])
  }

  // ---- Local sessions that came from one whole map -------------------------------------------------

  ghost predicate Tidy(base: Data, l: Local) {
    Coherent(base, l) && l.data == l.toSet && TidyData(l.data)
  }

  lemma {:induction false} OpsTidy(base: Data, l: Local, ops: seq<Op>)
    requires Tidy(base, l) && PlainOps(ops)
    ensures Tidy(base, ApplyOps(l, ops))
    decreases |ops|
  {
    if ops != [] {
      ApplyCoherent(base, l, ops[0]);
      OpsTidy(base, Apply(l, ops[0]), ops[1..]);
    }
  }

  lemma SetTidy(base: Data, l: Local, n: string, s: string)
    requires Tidy(base, l)
    ensures Tidy(base, SetLocal(l, n, Str(s)))
  {
    ApplyCoherent(base, l, SetOp(n, Str(s)));
  }

  lemma AddressedTidy(base: Data, l: Local, responder: string, key: string)
    requires Tidy(base, l)
    ensures Tidy(base, Addressed(l, responder, key))
  {
    SetTidy(base, l, RESPONDER_ID, responder);
    SetTidy(base, SetLocal(l, RESPONDER_ID, Str(responder)), RESPONDER_KEY, key);
  }

  lemma {:induction false} RunTidy(p: Program, base: Data, l: Local, q: seq<Item>, n: nat)
    requires PlainProgram(p) && Tidy(base, l) && Run(p, l, q, n).Some?
    ensures Tidy(base, Run(p, l, q, n).value.l)
    decreases n
  {
    if q != [] {
      var v := VisitItem(p, l, q[0]);
      OpsTidy(base, l, p.exec(q[0], View(l)).ops);
      OpsTidy(base, l, p.request(q[0], View(l)).ops);
      if v.Expanded? {
        RunTidy(p, base, v.l, v.next + q[1..], n - 1);
      }
    }
  }

  lemma ProceedTidy(p: Program, base: Data, sid: string, l: Local, more: seq<Item>)
    requires PlainProgram(p) && Tidy(base, l) && ProceedHalts(p, l, more)
    ensures Tidy(base, Proceed(p, sid, l, more).l)
  {
    var loaded := LoadNextItems(p, l);
    if loaded.Some? {
      var n: nat :| Run(p, l, more + loaded.value, n).Some?;
      EndsIs(p, l, more + loaded.value, n);
      RunTidy(p, base, l, more + loaded.value, n);
    }
  }

  lemma SetAllTidy(base: Data, l: Local, d: Data)
    requires Tidy(base, l) && PlainData(d)
    ensures Tidy(base, SetAll(l, d))
  {
    SetAllCoherent(base, l, d);
  }

  // ---- Closing a session on both stores ------------------------------------------------------------

  /** In memory a session that did not come from `Get` is merged into what is stored. */
  ghost predicate Covers(through: bool, mem: Store, sid: string, l: Local) {
    !through && sid in mem ==> mem[sid].Keys <= l.toSet.Keys + l.toDel
  }

  lemma CommitInMem(through: bool, mem: Store, sid: string, base: Data, l: Local)
    requires Tidy(base, l)
    ensures var s := SyncStore(InMem, if through then Leave(InMem, mem, sid, l) else mem, sid, l, Delivered);
      sid in s && s - {sid} == mem - {sid} && (s[sid] == l.data <==> Covers(through, mem, sid, l))
  {
    var s := SyncStore(InMem, if through then Leave(InMem, mem, sid, l) else mem, sid, l, Delivered);
    SameMap(s - {sid}, mem - {sid});
    if through {
      assert (l.data - l.toDel) + l.toSet == l.data;
    } else if sid in mem && !Covers(through, mem, sid, l) {
      var n :| n in mem[sid] && n !in l.toSet.Keys + l.toDel;
      assert n in s[sid] && n !in l.data;
    } else {
      SameMap(s[sid], l.data);
    }
  }

  lemma CommitRest(rest: Store, sid: string, base: Data, l: Local)
    requires Tidy(base, l) && sid in rest && rest[sid] == base
    ensures SyncStore(Rest, rest, sid, l, Delivered) == rest[sid := l.data]
  {
    assert Portable(l);
    SyncPublishes(Rest, rest, sid, base, l, Delivered);
  }

  /** `mem` is the in-memory store before the session was opened; `through` says it was opened with `Get`. */
  lemma DeferredAgree(through: bool, mem: Store, rest: Store, sid: string, base: Data, l: Local, keep: Option<string>)
    requires Tidy(base, l) && sid in rest && rest[sid] == base
    requires Agree(mem - {sid}, rest - {sid})
    ensures var m, r := Deferred(InMem, through, mem, sid, l, keep, Delivered), Deferred(Rest, false, rest, sid, l, keep, Delivered);
      && (sid in m <==> sid in r)
      && (Agree(m, r) <==> (keep.Some? ==> Covers(through, mem, sid, Stamped(l, keep.value))))
      && (sid in m ==> (m[sid] == r[sid] <==> Covers(through, mem, sid, Stamped(l, keep.value))))
  {
    if keep.Some? {
      var l' := Stamped(l, keep.value);
      SetTidy(base, l, CURRENT_ITEM_ID, keep.value);
      CommitInMem(through, mem, sid, base, l');
      CommitRest(rest, sid, base, l');
      SameMap(rest[sid := l'.data] - {sid}, rest - {sid});
      AgreeAt(Deferred(InMem, through, mem, sid, l, keep, Delivered), rest[sid := l'.data], sid);
    }
  }

  lemma AgreeAt(mem: Store, rest: Store, sid: string)
    requires sid in mem && sid in rest && CURRENT_ITEM_ID in rest[sid] && TidyData(rest[sid])
    requires Agree(mem - {sid}, rest - {sid})
    ensures Agree(mem, rest) <==> mem[sid] == rest[sid]
  {
    if mem[sid] == rest[sid] {
      forall id | id in mem
        ensures CURRENT_ITEM_ID in mem[id] && TidyData(mem[id]) && id in rest && rest[id] == mem[id]
      {
        assert id != sid ==> id in mem - {sid};
      }
      forall id | id in rest && CURRENT_ITEM_ID in rest[id]
        ensures id in mem
      {
        assert id != sid ==> id in rest - {sid} && id in mem - {sid};
      }
    }
  }

  lemma AgreeElsewhere(mem: Store, rest: Store, sid: string)
    requires Agree(mem, rest)
    ensures Agree(mem - {sid}, rest - {sid})
  {
  }

  lemma FinishAgree(p: Program, through: bool, mem: Store, rest: Store, sid: string, base: Data, l: Local, more: seq<Item>)
    requires PlainProgram(p) && ProceedHalts(p, l, more)
    requires Tidy(base, l) && sid in rest && rest[sid] == base
    requires Agree(mem - {sid}, rest - {sid})
    ensures var c := Finish(InMem, p, through, mem, sid, l, more, Delivered);
      var d := Finish(Rest, p, false, rest, sid, l, more, Delivered);
      var o := Proceed(p, sid, l, more);
      && SameCall(c, d) && (sid in c.store <==> sid in d.store)
      && (Agree(c.store, d.store) <==> (o.verdict.keep.Some? ==> Covers(through, mem, sid, Stamped(o.l, o.verdict.keep.value))))
      && (sid in c.store ==> (c.store[sid] == d.store[sid] <==> Agree(c.store, d.store)))
  {
    ProceedTidy(p, base, sid, l, more);
    var o := Proceed(p, sid, l, more);
    DeferredAgree(through, mem, rest, sid, base, o.l, o.verdict.keep);
  }

  // ---- One call ------------------------------------------------------------------------------------

  function Initial(init: Option<Data>): Data {
    match init case None => map[] case Some(d) => d
  }

  /** Plain data without nils arrives at the REST store as it is, and comes back as it is. */
  lemma RestOpens(rest: Store, sid: string, init: Option<Data>)
    requires TidyData(Initial(init))
    ensures NewStore(Rest, rest, sid, init, Delivered) == rest[sid := Initial(init)]
    ensures NewLocal(Rest, init, Delivered) == Some(Opened(init))
    ensures Tidy(Initial(init), Opened(init))
  {
    PlainJson(Initial(init));
    NoNullsNonNull(Initial(init));
    assert Initial(init) + Initial(init) == Initial(init);
  }

  /** A first item that fails leaves nothing in memory, but over REST the entry is there, waiting for nothing. */
  lemma FailedStart(mem: Store, rest: Store, sid: string, d: Data)
    requires Agree(mem, rest) && CURRENT_ITEM_ID !in d
    ensures Agree(mem, rest[sid := d]) <==> sid !in mem
  {
    if sid !in mem {
      assert forall id | id in mem :: rest[sid := d][id] == rest[id];
    }
  }

  /** From the open session on, with its entry in the REST store. */
  lemma BeginAgrees(p: Program, mem: Store, rest: Store, e: Event)
    requires Terminating(p) && PlainProgram(p) && e.Start? && e.item.Some? && e.responder.Some? && e.net.close == Delivered
    requires Sid(e) in rest && Tidy(rest[Sid(e)], Opened(e.init)) && Agree(mem - {Sid(e)}, rest - {Sid(e)})
    requires Agree(mem, rest) <==> Sid(e) !in mem
    ensures var c := Served(InMem, p, e, Begin(p, mem, e, e.item.value, e.responder.value, Opened(e.init)));
      var c' := Served(Rest, p, e, Begin(p, rest, e, e.item.value, e.responder.value, Opened(e.init)));
      SameCall(c, c') && (Agree(c.store, c'.store) <==> Quiet(p, mem, e))
  {
    var d, l := rest[Sid(e)], StartedLocal(e);
    SetTidy(d, Opened(e.init), INIT_REQUEST, e.request);
    var a := p.exec(e.item.value, View(l));
    if a.status.Done? {
      OpsTidy(d, l, a.ops);
      AddressedTidy(d, ApplyOps(l, a.ops), e.responder.value, e.key);
      FinishAgree(p, false, mem, rest, Sid(e), d, Addressed(ApplyOps(l, a.ops), e.responder.value, e.key), a.next);
    }
  }

  /** A `Start` does the same on both back-ends, whatever was stored; they still agree afterwards exactly if it was
      quiet. */
  lemma StartAgrees(p: Program, mem: Store, rest: Store, e: Event)
    requires Terminating(p) && PlainProgram(p) && Agree(mem, rest) && Ordinary(e) && e.Start?
    ensures SameCall(Serve(InMem, p, mem, e), Serve(Rest, p, rest, e))
    ensures Agree(Serve(InMem, p, mem, e).store, Serve(Rest, p, rest, e).store) <==> Quiet(p, mem, e)
  {
    if e.item.Some? && e.responder.Some? {
      var d, sid := Initial(e.init), Sid(e);
      RestOpens(rest, sid, e.init);
      FailedStart(mem, rest, sid, d);
      AgreeElsewhere(mem, rest, sid);
      SameMap(rest[sid := d] - {sid}, rest - {sid});
      BeginAgrees(p, mem, rest[sid := d], e);
    }
  }

  lemma LeaveAgrees(mem: Store, rest: Store, sid: string, l: Local)
    requires Agree(mem, rest) && sid in mem
    ensures Agree(Leave(InMem, mem, sid, l), rest) <==> l.data == mem[sid]
  {
    if l.data == mem[sid] {
      SameMap(Leave(InMem, mem, sid, l), mem);
    } else {
      assert sid in Leave(InMem, mem, sid, l);
    }
  }

  /** Accepted input for a session both stores hold, from `Process` on. */
  lemma AcceptedAgrees(p: Program, mem: Store, rest: Store, e: Event, item: Item, l: Local)
    requires Terminating(p) && PlainProgram(p) && Agree(mem, rest) && e.UserInput? && e.responder.Some?
    requires e.id in mem && Tidy(mem[e.id], l) && e.net.close == Delivered && p.process(item, View(l), e.input).status.Done?
    ensures var c := Served(InMem, p, e, Continue(InMem, p, mem, e, item, e.responder.value, l));
      var c' := Served(Rest, p, e, Continue(Rest, p, rest, e, item, e.responder.value, l));
      SameCall(c, c') && Agree(c.store, c'.store)
  {
    var a := p.process(item, View(l), e.input);
    OpsTidy(mem[e.id], l, a.ops);
    AddressedTidy(mem[e.id], ApplyOps(l, a.ops), e.responder.value, e.key);
    AgreeElsewhere(mem, rest, e.id);
    FinishAgree(p, true, mem, rest, e.id, mem[e.id], Addressed(ApplyOps(l, a.ops), e.responder.value, e.key), a.next);
  }

  /** Input that is not accepted is never synced. */
  lemma UnacceptedAgrees(p: Program, mem: Store, rest: Store, e: Event)
    requires Terminating(p) && Agree(mem, rest) && e.UserInput? && e.responder.Some?
    requires e.id in mem && !Accepted(p, mem[e.id], e)
    ensures var l0 := Opened(Some(mem[e.id]));
      var c := Served(InMem, p, e, Resume(InMem, p, mem, e, e.responder.value, l0));
      var c' := Served(Rest, p, e, Resume(Rest, p, rest, e, e.responder.value, l0));
      SameCall(c, c') && (Agree(c.store, c'.store) <==> InputLocal(p, mem[e.id], e).data == mem[e.id])
  {
    LeaveAgrees(mem, rest, e.id, InputLocal(p, mem[e.id], e));
  }

  /** An input for a session both stores hold. */
  lemma WaitingInputAgrees(p: Program, mem: Store, rest: Store, e: Event)
    requires Terminating(p) && PlainProgram(p) && Agree(mem, rest) && Ordinary(e) && e.UserInput?
    requires e.responder.Some? && e.id in mem
    ensures SameCall(Serve(InMem, p, mem, e), Serve(Rest, p, rest, e))
    ensures Agree(Serve(InMem, p, mem, e).store, Serve(Rest, p, rest, e).store) <==> Quiet(p, mem, e)
  {
    var d := mem[e.id];
    var l := SetAll(Opened(Some(d)), e.data);
    PlainJson(d);
    if Accepted(p, d, e) {
      SetAllTidy(d, Opened(Some(d)), e.data);
      AcceptedAgrees(p, mem, rest, e, Prompted(p, l).value, l);
    } else {
      UnacceptedAgrees(p, mem, rest, e);
    }
  }

  /** So does an input, with or without extra data. */
  lemma InputAgrees(p: Program, mem: Store, rest: Store, e: Event)
    requires Terminating(p) && PlainProgram(p) && Agree(mem, rest) && Ordinary(e) && e.UserInput?
    ensures SameCall(Serve(InMem, p, mem, e), Serve(Rest, p, rest, e))
    ensures Agree(Serve(InMem, p, mem, e).store, Serve(Rest, p, rest, e).store) <==> Quiet(p, mem, e)
  {
    if e.responder.Some? && e.id in mem {
      WaitingInputAgrees(p, mem, rest, e);
    } else if e.responder.Some? && e.id in rest {
      assert CurrentItemId(SetAll(GetLocal(Rest, rest, e.id, Delivered).value, e.data)) == "";
    }
  }

  lemma StepAgrees(p: Program, mem: Store, rest: Store, e: Event)
    requires Terminating(p) && PlainProgram(p) && Agree(mem, rest) && Ordinary(e)
    ensures SameCall(Serve(InMem, p, mem, e), Serve(Rest, p, rest, e))
    ensures Agree(Serve(InMem, p, mem, e).store, Serve(Rest, p, rest, e).store) <==> Quiet(p, mem, e)
  {
    match e
    case Start(_, _, _, _, _, _, _, _) => StartAgrees(p, mem, rest, e);
    case UserInput(_, _, _, _, _, _) => InputAgrees(p, mem, rest, e);
    case UserAbort(id, _) => AgreeElsewhere(mem, rest, id);
  }

  // ---- Every run -----------------------------------------------------------------------------------

  /** In every fair run from agreeing stores (such as empty ones), the two back-ends send the same things, return the
      same kind of result call by call, pop the same items, and agree on every waiting session. */
  lemma {:induction false} BackendsBisimilar(p: Program, wm: World, wr: World, events: seq<Event>)
    requires Terminating(p) && PlainProgram(p) && Agree(wm.store, wr.store) && wm.log == wr.log
    requires FairRun(p, wm, events)
    ensures After(InMem, p, wm, events).log == After(Rest, p, wr, events).log
    ensures Agree(After(InMem, p, wm, events).store, After(Rest, p, wr, events).store)
    ensures SameCalls(p, wm, wr, events)
    decreases |events|
  {
    if events != [] {
      var e := events[0];
      StepAgrees(p, wm.store, wr.store, e);
      BackendsBisimilar(p, Step(InMem, p, wm, e), Step(Rest, p, wr, e), events[1..]);
    }
  }

  ghost predicate SameCalls(p: Program, wm: World, wr: World, events: seq<Event>)
    requires Terminating(p)
    decreases |events|
  {
    events != [] ==>
      && SameCall(Serve(InMem, p, wm.store, events[0]), Serve(Rest, p, wr.store, events[0]))
      && SameCalls(p, Step(InMem, p, wm, events[0]), Step(Rest, p, wr, events[0]), events[1..])
  }

  ghost predicate AgreeThroughout(p: Program, wm: World, wr: World, events: seq<Event>)
    requires Terminating(p)
    decreases |events|
  {
    && Agree(wm.store, wr.store)
    && (events != [] ==>
      AgreeThroughout(p, Step(InMem, p, wm, events[0]), Step(Rest, p, wr, events[0]), events[1..]))
  }

  /** And no other runs: with a network that works and plain data, the stores agree after every call of a run exactly
      if the run is fair. */
  lemma {:induction false} AgreementExactly(p: Program, wm: World, wr: World, events: seq<Event>)
    requires Terminating(p) && PlainProgram(p) && Agree(wm.store, wr.store)
    requires forall i | 0 <= i < |events| :: Ordinary(events[i])
    ensures AgreeThroughout(p, wm, wr, events) <==> FairRun(p, wm, events)
    decreases |events|
  {
    if events != [] {
      var e := events[0];
      StepAgrees(p, wm.store, wr.store, e);
      var wm', wr' := Step(InMem, p, wm, e), Step(Rest, p, wr, e);
      if Agree(wm'.store, wr'.store) {
        AgreementExactly(p, wm', wr', events[1..]);
      } else {
        assert !AgreeThroughout(p, wm', wr', events[1..]);
      }
    }
  }
}
