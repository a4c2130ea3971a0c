/** What users see over whole runs: how many responses a call sends, when a session is kept or deleted, when a
    session id falls silent, and what a rejected input leaves behind. */
module Protocol {
  import opened Values
  import opened LocalSessions
  import opened Stores
  import opened Items
  import opened Interpreter
  import opened Lifecycle

  ghost predicate Reached(be: Backend, net: Net) {
    be.InMem? || !net.RequestLost?
  }

  // ---- One call, at most one effect ---------------------------------------------------------------

  /** At most one thing is sent, for the session of the call; a nil return means exactly one response or one
      issued service request; with an error nothing was sent, unless what failed was the sending. */
  ghost predicate Orderly(c: Call, sid: string) {
    && |c.sent| <= 1
    && (forall i | 0 <= i < |c.sent| :: c.sent[i].session == sid)
    && (|c.sent| == 1 <==> c.result == Ok || c.result == Err(RespondFailed))
  }

  lemma FinishIsOrderly(be: Backend, p: Program, through: bool, store: Store, sid: string, l: Local, more: seq<Item>, net: Net)
    requires ProceedHalts(p, l, more)
    ensures Orderly(Finish(be, p, through, store, sid, l, more, net), sid)
  {
    var loaded := LoadNextItems(p, l);
    if loaded.Some? {
      var h := Ends(p, l, more + loaded.value);
      assert h.stop.AtUser? ==> Judge(p, sid, h.l, h.stop) == RespondTo(p, sid, h.l, h.stop.item);
    }
  }

  /** What a call has done when it answers, and what it finds when it enters `proceed`. */
  ghost predicate Shaped(be: Backend, store: Store, e: Event, entry: Entry) {
    match entry
    case Answers(c) =>
      && c.store - {Sid(e)} == store - {Sid(e)} && c.trace == [] && !ProceedError(c.result) && !Final(c.sent)
      && (if e.UserAbort? then c.sent == [] && c.result == Ok else Orderly(c, Sid(e)))
    case Proceeds(store', l, more) =>
      && store' - {Sid(e)} == store - {Sid(e)} && (be.Rest? || e.UserInput? ==> Sid(e) in store')
  }

  lemma StartShape(be: Backend, p: Program, store: Store, e: Event)
    requires e.Start?
    ensures Shaped(be, store, e, EnterStart(be, p, store, e))
  {
    SameMap(NewStore(be, store, Sid(e), e.init, e.net.open) - {Sid(e)}, store - {Sid(e)});
  }

  lemma InputShape(be: Backend, p: Program, store: Store, e: Event)
    requires e.UserInput?
    ensures Shaped(be, store, e, EnterInput(be, p, store, e))
  {
    var l0 := GetLocal(be, store, e.id, e.net.open);
    if l0.Some? {
      var l := SetAll(l0.value, e.data);
      LeaveTouchesOne(be, store, e.id, l);
      var item := ItemByID(p, CurrentItemId(l));
      if item.Some? {
        LeaveTouchesOne(be, store, e.id, ApplyOps(l, p.process(item.value, View(l), e.input).ops));
      }
    }
  }

  lemma EntryShape(be: Backend, p: Program, store: Store, e: Event)
    ensures Shaped(be, store, e, Enter(be, p, store, e))
  {
    match e
    case Start(_, _, _, _, _, _, _, _) => StartShape(be, p, store, e);
    case UserInput(_, _, _, _, _, _) => InputShape(be, p, store, e);
    case UserAbort(id, net) => DelTouchesOne(be, store, id, net.close);
  }

  lemma OneEffectPerCall(be: Backend, p: Program, store: Store, e: Event)
    requires Terminating(p)
    ensures var c := Serve(be, p, store, e);
      if e.UserAbort? then c.sent == [] && c.result == Ok else Orderly(c, Sid(e))
  {
    EntryShape(be, p, store, e);
    match Enter(be, p, store, e)
    case Answers(_) =>
    case Proceeds(store', l, more) =>
      FinishIsOrderly(be, p, e.UserInput? && be.InMem?, store', Sid(e), l, more, e.net.close);
  }

  // ---- Other sessions are left alone --------------------------------------------------------------

  lemma OtherSessionsUntouched(be: Backend, p: Program, store: Store, e: Event)
    requires Terminating(p)
    ensures Serve(be, p, store, e).store - {Sid(e)} == store - {Sid(e)}
  {
    EntryShape(be, p, store, e);
    match Enter(be, p, store, e)
    case Answers(_) =>
    case Proceeds(store', l, more) =>
      var o := Proceed(p, Sid(e), l, more);
      DeferredTouchesOne(be, e.UserInput? && be.InMem?, store', Sid(e), o.l, o.verdict.keep, e.net.close);
  }

  lemma LeaveTouchesOne(be: Backend, store: Store, sid: string, l: Local)
    ensures Leave(be, store, sid, l) - {sid} == store - {sid}
  {
    SameMap(Leave(be, store, sid, l) - {sid}, store - {sid});
  }

  lemma DelTouchesOne(be: Backend, store: Store, sid: string, net: Net)
    ensures DelStore(be, store, sid, net) - {sid} == store - {sid}
  {
    SameMap(DelStore(be, store, sid, net) - {sid}, store - {sid});
  }

  lemma DeferredTouchesOne(be: Backend, through: bool, store: Store, sid: string, l: Local, keep: Option<string>, net: Net)
    ensures Deferred(be, through, store, sid, l, keep, net) - {sid} == store - {sid}
  {
    DelTouchesOne(be, store, sid, net);
    if keep.Some? {
      var l' := SetLocal(l, CURRENT_ITEM_ID, Str(keep.value));
      LeaveTouchesOne(be, store, sid, l');
      var store' := if through then Leave(be, store, sid, l') else store;
      SameMap(SyncStore(be, store', sid, l', net) - {sid}, store' - {sid});
    }
  }

  // ---- Commit or delete ---------------------------------------------------------------------------

  /** The loop either ran dry or stopped at the last item it popped. */
  lemma {:induction false} StopsAtLast(p: Program, l: Local, q: seq<Item>, n: nat)
    requires Run(p, l, q, n).Some?
    ensures var h := Run(p, l, q, n).value;
      h.stop != Drained ==> |h.trace| > 0 && h.stop.item == h.trace[|h.trace| - 1]
    decreases n
  {
    if q != [] {
      var v := VisitItem(p, l, q[0]);
      if v.Expanded? {
        StopsAtLast(p, v.l, v.next + q[1..], n - 1);
      }
    }
  }

  /** The stored entry of a session names what the deferred block kept. */
  lemma DeferredStamps(be: Backend, through: bool, store: Store, sid: string, l: Local, keep: Option<string>, net: Net)
    requires Reached(be, net) && (be.Rest? ==> sid in store)
    ensures var store' := Deferred(be, through, store, sid, l, keep, net);
      match keep
      case None => sid !in store'
      case Some(id) => sid in store' && Lookup(store'[sid], CURRENT_ITEM_ID) == Str(id)
  {
    if be.Rest? && keep.Some? {
      var l' := SetLocal(l, CURRENT_ITEM_ID, Str(keep.value));
      var t := JsonData(Tombstoned(l'));
      assert CURRENT_ITEM_ID in t && t[CURRENT_ITEM_ID] == Str(keep.value);
    }
  }

  predicate Final(sent: seq<Effect>) {
    |sent| == 1 && sent[0].Responded? && sent[0].kind == ResponseTypeRelease
  }

  /** After `proceed`, provided the closing exchange reached the store: the session is gone if and only if an error
      was returned or a final text sent; otherwise it is stored under the id of the item that was popped last. */
  lemma CommitOrDelete(be: Backend, p: Program, through: bool, store: Store, sid: string, l: Local, more: seq<Item>, net: Net)
    requires ProceedHalts(p, l, more) && Reached(be, net) && (be.Rest? ==> sid in store)
    ensures var c := Finish(be, p, through, store, sid, l, more, net);
      && (sid !in c.store <==> c.result.Err? || Final(c.sent))
      && (sid in c.store ==> (|c.trace| > 0
            && Lookup(c.store[sid], CURRENT_ITEM_ID) == Str(c.trace[|c.trace| - 1].id)))
  {
    var o := Proceed(p, sid, l, more);
    DeferredStamps(be, through, store, sid, o.l, o.verdict.keep, net);
    var loaded := LoadNextItems(p, l);
    if loaded.Some? {
      var q := more + loaded.value;
      var n: nat :| Run(p, l, q, n).Some?;
      EndsIs(p, l, q, n);
      StopsAtLast(p, l, q, n);
      var h := Ends(p, l, q);
      assert h.stop.AtUser? ==> o.verdict == RespondTo(p, sid, h.l, h.stop.item);
    }
  }

  /** The given items, taken one after the other: the session they leave, if every one of them is a server item that
      returned without an error. What they expand to is not looked at. */
  function Replay(p: Program, l: Local, items: seq<Item>): Option<Local>
    decreases |items|
  {
    if items == [] then Some(l)
    else
      match VisitItem(p, l, items[0])
      case Stopped(_, _) => None
      case Expanded(l', _) => Replay(p, l', items[1..])
  }

  lemma {:induction false} DrainsExactly(p: Program, l: Local, q: seq<Item>, n: nat)
    requires Run(p, l, q, n).Some?
    ensures var h := Run(p, l, q, n).value;
      && (h.stop == Drained <==> Replay(p, l, h.trace).Some?)
      && (h.stop == Drained ==> Replay(p, l, h.trace) == Some(h.l) && h.rest == [])
    decreases n
  {
    if q != [] {
      var v := VisitItem(p, l, q[0]);
      if v.Expanded? {
        DrainsExactly(p, v.l, v.next + q[1..], n - 1);
        assert Run(p, l, q, n).value.trace[1..] == Run(p, v.l, v.next + q[1..], n - 1).value.trace;
      }
    }
  }

  /** `proceed` falls off the end exactly if every item it popped was a server item that returned without an error.
      That is an error of its own, with nothing sent and the session deleted. */
  lemma FallingOffIsAnError(be: Backend, p: Program, through: bool, store: Store, sid: string, l: Local, more: seq<Item>, net: Net)
    requires ProceedHalts(p, l, more)
    ensures var c := Finish(be, p, through, store, sid, l, more, net);
      && (c.result == Err(FellOffQueue) <==> LoadNextItems(p, l).Some? && Replay(p, l, c.trace).Some?)
      && (c.result == Err(FellOffQueue) ==> c.sent == [] && c.store == DelStore(be, store, sid, net))
  {
    var loaded := LoadNextItems(p, l);
    if loaded.Some? {
      var q := more + loaded.value;
      var n: nat :| Run(p, l, q, n).Some?;
      EndsIs(p, l, q, n);
      DrainsExactly(p, l, q, n);
      var h := Ends(p, l, q);
      assert h.stop.AtUser? ==> Judge(p, sid, h.l, h.stop) == RespondTo(p, sid, h.l, h.stop.item);
    }
  }

  // ---- Silence ------------------------------------------------------------------------------------

  predicate ProceedError(r: Result) {
    r.Err? && r.error in {UnknownQueuedItem, ResponderIdEmpty, ResponderUnknown, RespondFailed,
      ItemExecFailed, ItemRequestFailed, NotAnItem, FellOffQueue}
  }

  /** The call ended the session: an abort, an error of `proceed`, or a final response. */
  predicate EndsSession(e: Event, c: Call) {
    e.UserAbort? || ProceedError(c.result) || Final(c.sent)
  }

  /** The closing delete arrives, or there is nothing to delete. */
  ghost predicate DeleteArrives(be: Backend, store: Store, e: Event) {
    Reached(be, e.net.close) || (e.UserAbort? && e.id !in store)
  }

  /** A call that ends the session leaves it stored exactly if the delete is lost on its way to the store. */
  lemma EndedIsGone(be: Backend, p: Program, store: Store, e: Event)
    requires Terminating(p) && EndsSession(e, Serve(be, p, store, e))
    ensures Sid(e) !in Serve(be, p, store, e).store <==> DeleteArrives(be, store, e)
  {
    EntryShape(be, p, store, e);
    match Enter(be, p, store, e)
    case Answers(_) =>
    case Proceeds(store', l, more) =>
      var c := Finish(be, p, e.UserInput? && be.InMem?, store', Sid(e), l, more, e.net.close);
      if Reached(be, e.net.close) {
        CommitOrDelete(be, p, e.UserInput? && be.InMem?, store', Sid(e), l, more, e.net.close);
      } else {
        assert Sid(e) in c.store;
      }
  }

  /** While a session is not stored, no call but `Start` brings it back or sends anything for it. */
  lemma AbsentStaysSilent(be: Backend, p: Program, store: Store, e: Event, id: string)
    requires Terminating(p) && id !in store && !(e.Start? && Sid(e) == id)
    ensures id !in Serve(be, p, store, e).store
    ensures NothingFor(Serve(be, p, store, e).sent, id)
  {
    OneEffectPerCall(be, p, store, e);
    OtherSessionsUntouched(be, p, store, e);
    if Sid(e) == id {
      assert e.UserInput? ==> GetLocal(be, store, id, e.net.open).None?;
    } else {
      var store' := Serve(be, p, store, e).store;
      assert id in store' ==> id in store' - {Sid(e)};
    }
  }

  ghost predicate NothingFor(log: seq<Effect>, id: string) {
    forall i | 0 <= i < |log| :: log[i].session != id
  }

  ghost predicate NoStart(events: seq<Event>, id: string) {
    forall i | 0 <= i < |events| :: !(events[i].Start? && Sid(events[i]) == id)
  }

  /** Every run in which an absent session is not started sends nothing for it. */
  lemma {:induction false} SilentUntilStart(be: Backend, p: Program, w: World, events: seq<Event>, id: string)
    requires Terminating(p) && id !in w.store
    requires NoStart(events, id)
    ensures id !in After(be, p, w, events).store && NothingFor(Sends(be, p, w.store, events), id)
    decreases |events|
  {
    if events != [] {
      AbsentStaysSilent(be, p, w.store, events[0], id);
      SilentUntilStart(be, p, Step(be, p, w, events[0]), events[1..], id);
    }
  }

  // ---- Rejected input -----------------------------------------------------------------------------

  /** An input, without extra data, that the waiting prompt rejects without touching the session. */
  ghost predicate Rejected(be: Backend, p: Program, store: Store, e: Event) {
    && e.UserInput? && e.data == map[] && e.responder.Some?
    && var l := GetLocal(be, store, e.id, e.net.open);
      && l.Some?
      && var item := ItemByID(p, CurrentItemId(l.value));
        && item.Some? && item.value.kind.PromptItem?
        && var a := p.process(item.value, View(l.value), e.input);
          a.status.Failed? && a.ops == []
  }

  /** It leaves the store as it was, on either back-end, and sends the error, on a line of its own if it has any text,
      and the prompt again. */
  lemma RejectionIsStutter(be: Backend, p: Program, store: Store, e: Event)
    requires Terminating(p) && Rejected(be, p, store, e)
    ensures var l := GetLocal(be, store, e.id, e.net.open).value;
      var item := ItemByID(p, CurrentItemId(l)).value;
      var message := p.process(item, View(l), e.input).status.message;
      var text := if message == "" then p.render(item, View(l)) else message + "\n" + p.render(item, View(l));
      Serve(be, p, store, e) == Call(store, [Responded(e.id, e.responder.value, e.key, ResponseTypeResponse, text, item)], Ok, [])
  {
    var l := GetLocal(be, store, e.id, e.net.open).value;
    SetAllNothing(l);
    if be.InMem? {
      SameMap(Leave(be, store, e.id, l), store);
    }
  }

  /** Any number of rejected inputs and then any call is that call alone, after one repeated prompt each. */
  lemma {:induction false} RejectionsVanish(be: Backend, p: Program, w: World, rejects: seq<Event>, e: Event)
    requires Terminating(p)
    requires forall i | 0 <= i < |rejects| :: Rejected(be, p, w.store, rejects[i])
    ensures var w' := After(be, p, w, rejects);
      && w'.store == w.store && w.log <= w'.log && |w'.log| == |w.log| + |rejects|
      && After(be, p, w, rejects + [e]) == World(Serve(be, p, w.store, e).store, w'.log + Serve(be, p, w.store, e).sent)
    decreases |rejects|
  {
    if rejects == [] {
      assert rejects + [e] == [e];
    } else {
      assert (rejects + [e])[1..] == rejects[1..] + [e];
      RejectionIsStutter(be, p, w.store, rejects[0]);
      RejectionsVanish(be, p, Step(be, p, w, rejects[0]), rejects[1..], e);
    }
  }

  // ---- Silence after the end, exactly -------------------------------------------------------------

  /** After a release, an error of `proceed` or an abort, nothing is sent for the session until it is started
      again, if the delete arrived. */
  lemma EndedSessionIsSilent(be: Backend, p: Program, w: World, e: Event, events: seq<Event>)
    requires Terminating(p) && EndsSession(e, Serve(be, p, w.store, e)) && DeleteArrives(be, w.store, e)
    requires NoStart(events, Sid(e))
    ensures var w1 := Step(be, p, w, e);
      && Sid(e) !in After(be, p, w1, events).store
      && After(be, p, w1, events).log == w1.log + Sends(be, p, w1.store, events)
      && NothingFor(Sends(be, p, w1.store, events), Sid(e))
  {
    EndedIsGone(be, p, w.store, e);
    SilentUntilStart(be, p, Step(be, p, w, e), events, Sid(e));
    LogAfter(be, p, Step(be, p, w, e), events);
  }

  ghost predicate SilentFrom(be: Backend, p: Program, store: Store, id: string)
    requires Terminating(p)
  {
    forall events | NoStart(events, id) :: NothingFor(Sends(be, p, store, events), id)
  }

  /** If the exchange that closes a REST call (but a `Start`) is lost, the store is as before. */
  lemma LostCloseStores(p: Program, store: Store, e: Event)
    requires Terminating(p) && !e.Start? && e.net.close == RequestLost
    ensures Serve(Rest, p, store, e).store == store
  {
  }

  /** A session that was waiting at a prompt which rejects some input, and that a call then ended, is silent in every
      run without a `Start` exactly if the delete arrived. If it was lost, that input is answered. */
  lemma SilentExactly(be: Backend, p: Program, w: World, e: Event, x: Event)
    requires Terminating(p) && EndsSession(e, Serve(be, p, w.store, e)) && !e.Start?
    requires Rejected(be, p, w.store, x) && x.id == e.id
    ensures SilentFrom(be, p, Serve(be, p, w.store, e).store, e.id) <==> Reached(be, e.net.close)
    ensures !Reached(be, e.net.close) ==>
      Serve(be, p, Serve(be, p, w.store, e).store, x) == Serve(be, p, w.store, x) && |Serve(be, p, w.store, x).sent| == 1
  {
    var store := Serve(be, p, w.store, e).store;
    if Reached(be, e.net.close) {
      forall events | NoStart(events, e.id)
        ensures NothingFor(Sends(be, p, store, events), e.id)
      {
        EndedSessionIsSilent(be, p, w, e, events);
      }
    } else {
      LostCloseStores(p, w.store, e);
      RejectionIsStutter(be, p, w.store, x);
      assert NoStart([x], e.id);
      var sent := Serve(be, p, store, x).sent;
      assert Sends(be, p, store, [x]) == sent + Sends(be, p, Serve(be, p, store, x).store, [x][1..]);
      assert Sends(be, p, store, [x])[0] == sent[0];
    }
  }
}
