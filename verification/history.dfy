/** What a call does, told without the session cache: from what is stored and the items' own code to what is sent,
    returned and stored. Every name reads as the last update of the call's history says. */
module Histories {
  import opened Values
  import opened LocalSessions
  import opened Stores
  import opened Items
  import opened Interpreter
  import opened Lifecycle
  import opened Protocol
  import opened LastShown
  import D = Dialog

  // ---- The items queued in a session's own data ----------------------------------------------------

  /** The registered items of a list of ids, in its order. */
  function Queue(p: Program, view: Data): Option<seq<Item>> {
    match Lookup(view, NEXT_ITEM_IDS)
    case StrList(ids) =>
      if forall i | 0 <= i < |ids| :: ids[i] in p.itemByID then
        Some(seq(|ids|, i requires 0 <= i < |ids| => p.itemByID[ids[i]]))
      else None
    case _ => Some([])
  }

  /** Each id is looked up in order; one unknown id fails the whole. */
  lemma {:induction false} ResolveExactly(p: Program, ids: seq<string>)
    ensures Resolve(p, ids).Some? <==> forall i | 0 <= i < |ids| :: ids[i] in p.itemByID
    ensures Resolve(p, ids).Some? ==>
      && |Resolve(p, ids).value| == |ids|
      && forall i | 0 <= i < |ids| :: Resolve(p, ids).value[i] == p.itemByID[ids[i]]
    decreases |ids|
  {
    if ids != [] {
      var rest := ids[1..];
      ResolveExactly(p, rest);
      assert forall i | 1 <= i < |ids| :: ids[i] == rest[i - 1];
    }
  }

  lemma LoadsQueue(p: Program, l: Local)
    ensures LoadNextItems(p, l) == Queue(p, View(l))
  {
    if Lookup(l.data, NEXT_ITEM_IDS).StrList? {
      var ids := Lookup(l.data, NEXT_ITEM_IDS).items;
      ResolveExactly(p, ids);
      if forall i | 0 <= i < |ids| :: ids[i] in p.itemByID {
        assert Resolve(p, ids).value == seq(|ids|, i requires 0 <= i < |ids| => p.itemByID[ids[i]]);
      }
    }
  }

  // ---- proceed -------------------------------------------------------------------------------------

  /** A user item is sent by the responder, under the key, that the session names, as it renders there. */
  ghost predicate Answered(p: Program, sid: string, view: Data, item: Item, c: Call) {
    var rid, key := Lookup(view, "responder_id"), Lookup(view, "responder_key");
    if !rid.Str? || !key.Str? then c.result == Panic && c.sent == []
    else if rid.s == "" then c.result == Err(ResponderIdEmpty) && c.sent == []
    else if rid.s !in p.responders then c.result == Err(ResponderUnknown) && c.sent == []
    else
      var kind, text := if item.kind.PromptItem? then ResponseTypeResponse else ResponseTypeRelease, p.render(item, view);
      && c.sent == [Responded(sid, rid.s, key.s, kind, text, item)]
      && c.result == if p.respond(rid.s, key.s, kind, text) then Ok else Err(RespondFailed)
  }

  /** The call made the complete run `h`, and answered as the item does at which it stopped. */
  ghost predicate Played(p: Program, sid: string, view: Data, q: seq<Item>, c: Call, h: Halt) {
    && Trajectory(p, view, q, h) && c.trace == h.trace
    && match h.stop
       case AtUser(item) => Answered(p, sid, View(h.l), item, c)
       case AtWait(item) => c.result == Ok && c.sent == [Requested(sid, item)]
       case ExecFailed(_) => c.result == Err(ItemExecFailed) && c.sent == []
       case RequestFailed(_) => c.result == Err(ItemRequestFailed) && c.sent == []
       case ExecPanicked(_) => c.result == Panic && c.sent == []
       case RequestPanicked(_) => c.result == Panic && c.sent == []
       case Unexpected(_) => c.result == Err(NotAnItem) && c.sent == []
       case Drained => c.result == Err(FellOffQueue) && c.sent == []
  }

  function Carried(be: Backend, v: Value): Value {
    if be.InMem? then v else Json(v)
  }

  /** If the session is kept, each name is stored as the session shows it, and `current_item_id` is the item's that was
      popped last. */
  ghost predicate StoredAs(be: Backend, sid: string, view: Data, c: Call) {
    sid in c.store ==>
      && c.trace != []
      && var current := Str(c.trace[|c.trace| - 1].id);
        forall n :: Lookup(c.store[sid], n) == Carried(be, if n == "current_item_id" then current else Lookup(view, n))
  }

  /** What `proceed` does on a session that shows `view`: first the items it was given, then those queued. What is
      stored then follows if the closing exchange arrives and nothing else was stored (`told`). */
  ghost predicate Proceeded(be: Backend, p: Program, sid: string, view: Data, more: seq<Item>, c: Call, told: bool) {
    match Queue(p, view)
    case None => c.result == Err(UnknownQueuedItem) && c.sent == [] && c.trace == [] && (told ==> sid !in c.store)
    case Some(queued) =>
      exists h :: Played(p, sid, view, more + queued, c, h) && (told ==> StoredAs(be, sid, View(h.l), c))
  }

  /** What is stored reads as the session's snapshot. */
  ghost predicate Held(be: Backend, through: bool, store: Store, sid: string, base: Data) {
    match be
    case InMem => !through ==> sid !in store
    case Rest => !through && sid in store && forall n :: Lookup(store[sid], n) == Json(Lookup(base, n))
  }

  lemma CommitReads(be: Backend, through: bool, store: Store, sid: string, base: Data, l: Local, net: Net, n: string)
    requires Mirrored(l) && Coherent(base, l) && Held(be, through, store, sid, base) && Reached(be, net)
    ensures var s := SyncStore(be, if through then Leave(be, store, sid, l) else store, sid, l, net);
      sid in s && Lookup(s[sid], n) == Carried(be, Lookup(l.data, n))
  {
    match be
    case InMem => D.MirroredCommit(through, store, sid, l);
    case Rest =>
      var t := Tombstoned(l);
      assert Lookup(t, n) == Lookup(l.data, n);
      PatchReads(store[sid], JsonData(t), n);
      assert n in t <==> n in l.data || n in l.toDel;
      assert n !in t ==> n !in base;
  }

  lemma {:induction false} RunCoherent(p: Program, base: Data, l: Local, q: seq<Item>, n: nat)
    requires Coherent(base, l) && Run(p, l, q, n).Some?
    ensures Coherent(base, Run(p, l, q, n).value.l)
    decreases n
  {
    if q != [] {
      OpsCoherent(base, l, p.exec(q[0], View(l)).ops);
      OpsCoherent(base, l, p.request(q[0], View(l)).ops);
      var v := VisitItem(p, l, q[0]);
      if v.Expanded? {
        RunCoherent(p, base, v.l, v.next + q[1..], n - 1);
      }
    }
  }

  /** The stamped session is stored as it reads. */
  lemma DeferredReads(be: Backend, through: bool, store: Store, sid: string, base: Data, l: Local, id: string, net: Net)
    requires Mirrored(l) && Coherent(base, l) && Held(be, through, store, sid, base) && Reached(be, net)
    ensures var s := Deferred(be, through, store, sid, l, Some(id), net);
      && sid in s
      && forall n :: Lookup(s[sid], n) == Carried(be, if n == "current_item_id" then Str(id) else Lookup(View(l), n))
  {
    var l' := Stamped(l, id);
    ApplyCoherent(base, l, SetOp(CURRENT_ITEM_ID, Str(id)));
    var s := Deferred(be, through, store, sid, l, Some(id), net);
    forall n
      ensures sid in s && Lookup(s[sid], n) == Carried(be, if n == "current_item_id" then Str(id) else Lookup(View(l), n))
    {
      CommitReads(be, through, store, sid, base, l', net, n);
    }
  }

  lemma FinishStores(be: Backend, p: Program, through: bool, store: Store, sid: string, base: Data, l: Local,
      more: seq<Item>, net: Net)
    requires ProceedHalts(p, l, more) && Mirrored(l) && Coherent(base, l) && Held(be, through, store, sid, base) && Reached(be, net)
    ensures StoredAs(be, sid, View(Proceed(p, sid, l, more).l), Finish(be, p, through, store, sid, l, more, net))
  {
    var o, c := Proceed(p, sid, l, more), Finish(be, p, through, store, sid, l, more, net);
    CommitOrDelete(be, p, through, store, sid, l, more, net);
    DeferredStamps(be, through, store, sid, o.l, o.verdict.keep, net);
    if o.verdict.keep.Some? {
      var q := more + LoadNextItems(p, l).value;
      var n: nat :| Run(p, l, q, n).Some?;
      EndsIs(p, l, q, n);
      D.RunMirrored(p, l, q, n);
      RunCoherent(p, base, l, q, n);
      StopsAtLast(p, l, q, n);
      DeferredReads(be, through, store, sid, base, o.l, o.verdict.keep.value, net);
    }
  }

  lemma FinishPlays(be: Backend, p: Program, through: bool, store: Store, sid: string, l: Local, more: seq<Item>, net: Net)
    requires ProceedHalts(p, l, more) && LoadNextItems(p, l).Some?
    ensures var q := more + LoadNextItems(p, l).value;
      Played(p, sid, View(l), q, Finish(be, p, through, store, sid, l, more, net), Ends(p, l, q))
  {
    var q := more + LoadNextItems(p, l).value;
    LoopIsTheTrajectory(p, l, q, Ends(p, l, q));
  }

  lemma FinishProceeds(be: Backend, p: Program, through: bool, store: Store, sid: string, base: Data, l: Local,
      more: seq<Item>, net: Net, told: bool)
    requires ProceedHalts(p, l, more) && Mirrored(l) && Coherent(base, l)
    requires told ==> Held(be, through, store, sid, base) && Reached(be, net)
    ensures Proceeded(be, p, sid, View(l), more, Finish(be, p, through, store, sid, l, more, net), told)
  {
    LoadsQueue(p, l);
    if LoadNextItems(p, l).Some? {
      FinishPlays(be, p, through, store, sid, l, more, net);
      if told {
        FinishStores(be, p, through, store, sid, base, l, more, net);
      }
    } else if told {
      DeferredStamps(be, through, store, sid, l, None, net);
    }
  }

  // ---- The calls -----------------------------------------------------------------------------------

  /** A session addressed to a responder shows its id and the key, and otherwise what it showed. */
  lemma AddressedView(l: Local, responder: string, key: string)
    ensures View(Addressed(l, responder, key))
         == Updated(View(l), [SetOp("responder_id", Str(responder)), SetOp("responder_key", Str(key))])
  {
    var ops := [SetOp("responder_id", Str(responder)), SetOp("responder_key", Str(key))];
    ViewUpdated(l, ops);
    assert ops[1..] == [ops[1]] && ops[1..][1..] == [];
    assert ApplyOps(l, ops) == ApplyOps(Apply(Apply(l, ops[0]), ops[1]), []);
  }

  /** What an input does, from what the session shows with its extra data: an id that names no prompt is refused;
      rejected input is answered at once, to the responder and key of this call, with the error on a line of its own (if
      it has any text) and the prompt as it renders then; accepted input puts them on record and proceeds. */
  ghost predicate Handled(be: Backend, p: Program, view: Data, e: Event, c: Call, told: bool)
    requires e.UserInput? && e.responder.Some?
  {
    var id := match Lookup(view, "current_item_id") case Str(id) => id case _ => "";
    if id !in p.itemByID then c.sent == [] && c.trace == [] && c.result == Err(UnknownItem)
    else if !p.itemByID[id].kind.PromptItem? then c.sent == [] && c.trace == [] && c.result == Err(NotAPrompt)
    else
      var item := p.itemByID[id];
      var a := p.process(item, view, e.input);
      var left := Updated(view, a.ops);
      match a.status
      case Failed(message) =>
        var page := p.render(item, left);
        var text := if message == "" then page else message + "\n" + page;
        && c.sent == [Responded(e.id, e.responder.value, e.key, ResponseTypeResponse, text, item)]
        && c.trace == [] && c.result == Ok
      case Panicked => c.sent == [] && c.trace == [] && c.result == Panic
      case Done =>
        Proceeded(be, p, e.id,
          Updated(left, [SetOp("responder_id", Str(e.responder.value)), SetOp("responder_key", Str(e.key))]), a.next, c, told)
  }

  lemma ResumeHandles(be: Backend, p: Program, store: Store, e: Event, base: Data, l: Local)
    requires Terminating(p) && e.UserInput? && e.responder.Some? && Mirrored(l) && Coherent(base, l)
    requires Reached(be, e.net.close) ==> Held(be, be.InMem?, store, e.id, base)
    ensures var item := ItemByID(p, CurrentItemId(l));
      item.Some? && item.value.kind.PromptItem? ==>
      Handled(be, p, View(l), e, Served(be, p, e, Continue(be, p, store, e, item.value, e.responder.value, l)), Reached(be, e.net.close))
  {
    var item := ItemByID(p, CurrentItemId(l));
    if item.Some? {
      var a := p.process(item.value, View(l), e.input);
      var l' := ApplyOps(l, a.ops);
      ViewUpdated(l, a.ops);
      OpsMirrored(l, a.ops);
      OpsCoherent(base, l, a.ops);
      AddressedView(l', e.responder.value, e.key);
      ApplyCoherent(base, l', SetOp(RESPONDER_ID, Str(e.responder.value)));
      ApplyCoherent(base, SetLocal(l', RESPONDER_ID, Str(e.responder.value)), SetOp(RESPONDER_KEY, Str(e.key)));
      FinishProceeds(be, p, be.InMem?, store, e.id, base, Addressed(l', e.responder.value, e.key), a.next, e.net.close,
        Reached(be, e.net.close));
    }
  }

  /** `UserInput`, on either back-end (the REST store holds decoded JSON). */
  lemma InputDoes(be: Backend, p: Program, store: Store, e: Event)
    requires Terminating(p) && e.UserInput? && e.responder.Some? && e.id in store
    requires be.Rest? ==> e.net.open == Delivered && JsonData(store[e.id]) == store[e.id]
    ensures Handled(be, p, Patch(NonNull(store[e.id]), e.data), e, Serve(be, p, store, e), Reached(be, e.net.close))
  {
    var l0 := Opened(Some(store[e.id]));
    var l := SetAll(l0, e.data);
    ViewSetAll(l0, e.data);
    SetAllCoherent(store[e.id], l0, e.data);
    forall n
      ensures be.Rest? ==> Lookup(store[e.id], n) == Json(Lookup(store[e.id], n))
    {
      assert be.Rest? && n in store[e.id] ==> JsonData(store[e.id])[n] == store[e.id][n];
    }
    ResumeHandles(be, p, store, e, store[e.id], l);
  }

  /** `Start` from the open session on: the first item sees the dialled code as `init_request`; if it fails, nothing is
      sent or deleted; otherwise the responder and key of this call go on record and the call proceeds. */
  ghost predicate Begun(be: Backend, p: Program, sid: string, view: Data, e: Event, c: Call, told: bool)
    requires e.Start? && e.item.Some? && e.responder.Some?
  {
    var shown := Updated(view, [SetOp("init_request", Str(e.request))]);
    var a := p.exec(e.item.value, shown);
    match a.status
    case Failed(_) => c.sent == [] && c.trace == [] && c.result == Err(InitFailed)
    case Panicked => c.sent == [] && c.trace == [] && c.result == Panic
    case Done =>
      Proceeded(be, p, sid,
        Updated(Updated(shown, a.ops), [SetOp("responder_id", Str(e.responder.value)), SetOp("responder_key", Str(e.key))]),
        a.next, c, told)
  }

  lemma BeginDoes(be: Backend, p: Program, store: Store, e: Event, base: Data, l0: Local, told: bool)
    requires Terminating(p) && e.Start? && e.item.Some? && e.responder.Some? && Mirrored(l0) && Coherent(base, l0)
    requires told ==> Held(be, false, store, Sid(e), base) && Reached(be, e.net.close)
    ensures Begun(be, p, Sid(e), View(l0), e, Served(be, p, e, Begin(p, store, e, e.item.value, e.responder.value, l0)), told)
  {
    var request := [SetOp(INIT_REQUEST, Str(e.request))];
    var l := SetLocal(l0, INIT_REQUEST, Str(e.request));
    ViewUpdated(l0, request);
    ApplyCoherent(base, l0, request[0]);
    assert request[1..] == [];
    assert ApplyOps(l0, request) == l;
    var a := p.exec(e.item.value, View(l));
    var l' := ApplyOps(l, a.ops);
    ViewUpdated(l, a.ops);
    OpsMirrored(l, a.ops);
    OpsCoherent(base, l, a.ops);
    AddressedView(l', e.responder.value, e.key);
    ApplyCoherent(base, l', SetOp(RESPONDER_ID, Str(e.responder.value)));
    ApplyCoherent(base, SetLocal(l', RESPONDER_ID, Str(e.responder.value)), SetOp(RESPONDER_KEY, Str(e.key)));
    if a.status.Done? {
      FinishProceeds(be, p, false, store, Sid(e), base, Addressed(l', e.responder.value, e.key), a.next, e.net.close, told);
    }
  }

  /** `Start`, on either back-end: the session shows the caller's data, as JSON carries it. In memory what is stored is
      the session alone if the id was not waiting (`Limits.StartOverWaitingSession`). */
  lemma StartDoes(be: Backend, p: Program, store: Store, e: Event)
    requires Terminating(p) && e.Start? && e.item.Some? && e.responder.Some?
    requires be.Rest? ==> e.net.open == Delivered
    ensures var sid := if e.id == "" then e.freshId else e.id;
      var data := match e.init case Some(d) => d case None => map[];
      Begun(be, p, sid, NonNull(if be.InMem? then data else JsonData(data)), e, Serve(be, p, store, e),
        Reached(be, e.net.close) && (be.Rest? || sid !in store))
  {
    var l0 := NewLocal(be, e.init, e.net.open).value;
    var data := match e.init case Some(d) => d case None => map[];
    var store' := NewStore(be, store, Sid(e), e.init, e.net.open);
    if be.Rest? {
      JsonShows(data);
      forall n
        ensures Lookup(store'[Sid(e)], n) == Json(Lookup(l0.data, n))
      {
        assert n in data ==> JsonData(data)[n] == Json(data[n]);
      }
    }
    BeginDoes(be, p, store', e, l0.data, l0, Reached(be, e.net.close) && (be.Rest? || Sid(e) !in store));
  }

  lemma JsonShows(d: Data)
    ensures NonNull(d + NonNull(JsonData(d))) == NonNull(JsonData(d))
  {
    SameMap(NonNull(d + NonNull(JsonData(d))), NonNull(JsonData(d)));
  }

  /** A `Start` is refused without an item or a responder, in this order, and an input without a responder or a session. */
  lemma RefusedCalls(be: Backend, p: Program, store: Store, e: Event)
    requires Terminating(p) && !e.UserAbort?
    ensures e.Start? && e.item.None? ==> Serve(be, p, store, e) == Call(store, [], Err(NoInitItem), [])
    ensures (e.UserInput? || e.item.Some?) && e.responder.None? ==> Serve(be, p, store, e) == Call(store, [], Err(NoResponder), [])
    ensures e.UserInput? && e.responder.Some? && e.id !in store ==> Serve(be, p, store, e) == Call(store, [], Err(NoSession), [])
  {
  }

  // ---- Who is answered -----------------------------------------------------------------------------

  lemma ProceedAnswers(p: Program, items: set<Item>, sid: string, l: Local, more: seq<Item>, responder: string, key: string)
    requires Disciplined(p, items, RESERVED) && Within(more, items) && ProceedHalts(p, l, more)
    requires Lookup(l.data, "responder_id") == Str(responder) && Lookup(l.data, "responder_key") == Str(key)
    ensures forall x | x in Proceed(p, sid, l, more).verdict.effects && x.Responded? :: x.responder == responder && x.key == key
  {
    var loaded := LoadNextItems(p, l);
    if loaded.Some? {
      if Lookup(l.data, NEXT_ITEM_IDS).StrList? {
        ResolveStaysWithin(p, items, Lookup(l.data, NEXT_ITEM_IDS).items);
      }
      EndsStaysWithin(p, items, RESERVED, l, more + loaded.value);
      assert RESPONDER_ID in RESERVED && RESPONDER_KEY in RESERVED;
    }
  }

  ghost predicate AddressedTo(entry: Entry, responder: string, key: string) {
    match entry
    case Answers(c) => forall x | x in c.sent && x.Responded? :: x.responder == responder && x.key == key
    case Proceeds(_, l, _) => Lookup(l.data, "responder_id") == Str(responder) && Lookup(l.data, "responder_key") == Str(key)
  }

  lemma EntryAddressed(be: Backend, p: Program, store: Store, e: Event)
    requires !e.UserAbort? && e.responder.Some?
    ensures AddressedTo(Enter(be, p, store, e), e.responder.value, e.key)
  {
  }

  /** In a disciplined service every response goes to the responder and under the key of the very call that sends it:
      started or continued, proceeding or repeating a prompt, over whatever was on record before. */
  lemma ResponderOfThisCall(be: Backend, p: Program, items: set<Item>, store: Store, e: Event)
    requires Terminating(p) && Disciplined(p, items, RESERVED) && Polite(e, items)
    ensures var sent := Serve(be, p, store, e).sent;
      forall x | x in sent && x.Responded? :: !e.UserAbort? && e.responder == Some(x.responder) && e.key == x.key
  {
    match e {
      case Start(_, _, _, _, _, _, _, _) => StartIsPolite(be, p, items, store, e);
      case UserInput(_, _, _, _, _, _) => InputIsPolite(be, p, items, store, e);
      case UserAbort(_, _) =>
    }
    if !e.UserAbort? && e.responder.Some? {
      EntryAddressed(be, p, store, e);
      match Enter(be, p, store, e) {
        case Answers(_) =>
        case Proceeds(_, l, more) => ProceedAnswers(p, items, Sid(e), l, more, e.responder.value, e.key);
      }
    }
  }
}
