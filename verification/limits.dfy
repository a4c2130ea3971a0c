/** What the run-level theorems' conditions keep out: what the code does then, for every service and every store.
    `witnesses.dfy` has inputs at which it shows. */
module Limits {
  import opened Values
  import opened LocalSessions
  import opened Stores
  import opened Items
  import opened Interpreter
  import opened Lifecycle
  import opened Protocol
  import opened LastShown
  import B = Bisimulation
  import D = Dialog
  import P = Prompts
  import S = StandardItems

  /** An input that is not accepted (there is no prompt, or its `Process` fails or panics) is never synced. In memory
      its extra data and whatever `Process` set are stored all the same, because the session works on the store's own
      map; over REST they are lost. The stores still agree exactly if nothing was changed. */
  lemma UnsyncedInput(p: Program, mem: Store, rest: Store, e: Event)
    requires Terminating(p) && B.Agree(mem, rest) && e.UserInput? && e.responder.Some? && e.net == Nets(Delivered, Delivered)
    requires e.id in mem && !B.Accepted(p, mem[e.id], e)
    ensures var l := SetAll(Opened(Some(mem[e.id])), e.data);
      var item := B.Prompted(p, l);
      var left := if item.Some? then ApplyOps(l, p.process(item.value, View(l), e.input).ops).data else Patch(mem[e.id], e.data);
      && Serve(InMem, p, mem, e).store == mem[e.id := left]
      && Serve(Rest, p, rest, e).store == rest
      && (B.Agree(mem[e.id := left], rest) <==> left == mem[e.id])
  {
    PlainJson(mem[e.id]);
    B.LeaveAgrees(mem, rest, e.id, B.InputLocal(p, mem[e.id], e));
  }

  /** A `Start` on an id that is waiting: REST replaces the entry, the in-memory store merges into it. If the first item
      fails, memory keeps the old dialog and REST an entry that waits for nothing. Otherwise both do the same and keep
      or delete the session alike; if it is kept, they store the same exactly if every name of the old entry was set or
      deleted by the new session. */
  lemma StartOverWaitingSession(p: Program, mem: Store, rest: Store, e: Event)
    requires Terminating(p) && B.PlainProgram(p) && B.Agree(mem, rest) && B.Ordinary(e)
    requires e.Start? && e.item.Some? && e.responder.Some? && Sid(e) in mem
    ensures var c, c' := Serve(InMem, p, mem, e), Serve(Rest, p, rest, e);
      var l := B.StartedLocal(e);
      var a := p.exec(e.item.value, View(l));
      if !a.status.Done? then
        c.store == mem && c'.store == rest[Sid(e) := B.Initial(e.init)] && !B.Agree(c.store, c'.store)
      else
        var o := Proceed(p, Sid(e), Addressed(ApplyOps(l, a.ops), e.responder.value, e.key), a.next);
        B.SameCall(c, c') && MergedOrReplaced(mem, Sid(e), o, c.store, c'.store)
  {
    var sid, d, l := Sid(e), B.Initial(e.init), B.StartedLocal(e);
    B.RestOpens(rest, sid, e.init);
    B.FailedStart(mem, rest, sid, d);
    var a := p.exec(e.item.value, View(l));
    if a.status.Done? {
      B.SetTidy(d, Opened(e.init), INIT_REQUEST, e.request);
      B.OpsTidy(d, l, a.ops);
      B.AddressedTidy(d, ApplyOps(l, a.ops), e.responder.value, e.key);
      FinishOverWaiting(p, mem, rest, sid, d, Addressed(ApplyOps(l, a.ops), e.responder.value, e.key), a.next);
    }
  }

  /** Kept or deleted alike, and if kept the same exactly if the new session covers the old entry. */
  ghost predicate MergedOrReplaced(mem: Store, sid: string, o: Outcome, mem': Store, rest': Store)
    requires sid in mem
  {
    && (sid in mem' <==> o.verdict.keep.Some?) && (sid in rest' <==> o.verdict.keep.Some?)
    && (o.verdict.keep.Some? ==>
      var l := Stamped(o.l, o.verdict.keep.value);
      mem'[sid] == rest'[sid] <==> mem[sid].Keys <= l.toSet.Keys + l.toDel)
  }

  lemma FinishOverWaiting(p: Program, mem: Store, rest: Store, sid: string, d: Data, l: Local, more: seq<Item>)
    requires Terminating(p) && B.PlainProgram(p) && B.Agree(mem, rest) && sid in mem && B.Tidy(d, l)
    ensures ProceedHalts(p, l, more)
    ensures var c := Finish(InMem, p, false, mem, sid, l, more, Delivered);
      var c' := Finish(Rest, p, false, rest[sid := d], sid, l, more, Delivered);
      B.SameCall(c, c') && MergedOrReplaced(mem, sid, Proceed(p, sid, l, more), c.store, c'.store)
  {
    B.AgreeElsewhere(mem, rest, sid);
    SameMap(rest[sid := d] - {sid}, rest - {sid});
    B.FinishAgree(p, false, mem, rest[sid := d], sid, d, l, more);
  }

  /** If the exchange that closes a REST call (but a `Start`) is lost, the store is as before, whatever the user was
      told. The picture of the last shown prompt stays right exactly if that was nothing or the same prompt again. */
  lemma LostClose(p: Program, w: World, e: Event)
    requires Terminating(p) && AsShown(p, w) && !e.Start? && e.net.close == RequestLost
    ensures Serve(Rest, p, w.store, e).store == w.store
    ensures AsShown(p, Step(Rest, p, w, e)) <==> Harmless(p, Sid(e), Serve(Rest, p, w.store, e))
  {
    var c := Serve(Rest, p, w.store, e);
    LostCloseStores(p, w.store, e);
    OneEffectPerCall(Rest, p, w.store, e);
    PictureElsewhere(Rest, p, w, e);
    ShownAppend(w.log, c.sent, Sid(e));
    assert AsShownAt(p, w.store, w.log, Sid(e));
  }

  /** A list survives in memory but not over REST: item ids queued in a session's data resume there only. */
  lemma QueuedIdsOverRest(p: Program, store: Store, id: string, ids: seq<string>)
    requires id in store && Lookup(store[id], NEXT_ITEM_IDS) == StrList(ids)
    ensures LoadNextItems(p, GetLocal(InMem, store, id, Delivered).value) == Resolve(p, ids)
    ensures LoadNextItems(p, GetLocal(Rest, store, id, Delivered).value) == Some([])
  {
  }

  /** The library's own prompt returns nothing to go on with. So accepted input always falls off the queue: the call
      fails, nothing is sent and the session is deleted, whatever the menu had queued behind the prompt. */
  lemma AcceptedPromptFallsOff(defs: S.Catalog, itemByID: map<string, Item>, responders: set<string>,
      respond: (string, string, ResponseType, string) -> bool, store: Store, e: Event, item: Item)
    requires var p := S.ServiceOf(defs, itemByID, responders, respond);
      Terminating(p) && S.WellDefined(defs, itemByID)
    requires e.UserInput? && e.responder.Some? && e.data == map[] && e.id in store && D.Unqueued(store[e.id])
    requires item in defs && defs[item].PromptDef?
    requires WaitsAt(S.ServiceOf(defs, itemByID, responders, respond), store[e.id]) == Some(item)
    requires forall i | 0 <= i < |defs[item].validators| :: defs[item].validators[i](e.input).None?
    ensures var p := S.ServiceOf(defs, itemByID, responders, respond);
      Serve(InMem, p, store, e) == Call(store - {e.id}, [], Err(FellOffQueue), [])
  {
    var p := S.ServiceOf(defs, itemByID, responders, respond);
    var d, l := defs[item], Opened(Some(store[e.id]));
    SetAllNothing(l);
    P.AcceptExactly(d.validators, item, d.name, e.input);
    var l' := Addressed(SetLocal(l, d.name, Str(e.input)), e.responder.value, e.key);
    assert p.process(item, View(l), e.input) == Act([SetOp(d.name, Str(e.input))], [], Done);
    assert S.WritesOnly(d) && NEXT_ITEM_IDS in D.KEPT;
    assert ApplyOps(l, [SetOp(d.name, Str(e.input))]) == SetLocal(l, d.name, Str(e.input));
    EndsEmpty(p, l');
    assert Proceed(p, e.id, l', []) == Outcome(l', [], Verdict(Err(FellOffQueue), [], None));
  }
}
