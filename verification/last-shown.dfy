/** The prompt that gets the next input is the prompt the user was shown last, in every reachable state. */
module LastShown {
  import opened Values
  import opened LocalSessions
  import opened Stores
  import opened Items
  import opened Interpreter
  import opened Lifecycle
  import opened Protocol

  const RESERVED: set<string> := {CURRENT_ITEM_ID, RESPONDER_ID, RESPONDER_KEY}

  /** The items of a service: ids are unique, registered items carry their own id, items lead only to items of the
      service, and none of them writes the given names. */
  ghost predicate Disciplined(p: Program, items: set<Item>, names: set<string>) {
    && (forall i, j | i in items && j in items && i.id == j.id :: i == j)
    && "" !in p.itemByID
    && (forall id | id in p.itemByID :: p.itemByID[id] in items && p.itemByID[id].id == id)
    && (forall i: Item, view: Data | i in items :: Obedient(p.exec(i, view), items, names))
    && (forall i: Item, view: Data, input: string | i in items :: Obedient(p.process(i, view, input), items, names))
    && (forall i: Item, view: Data | i in items :: Avoids(p.request(i, view).ops, names))
  }

  ghost predicate Obedient(a: Act, items: set<Item>, names: set<string>) {
    Avoids(a.ops, names) && Within(a.next, items)
  }

  ghost predicate Within(q: seq<Item>, items: set<Item>) {
    forall i | 0 <= i < |q| :: q[i] in items
  }

  /** Calls that keep to the service: its items, and no data under the interpreter's own names. */
  ghost predicate Polite(e: Event, items: set<Item>) {
    && (e.Start? && e.item.Some? ==> e.item.value in items)
    && (e.Start? && e.init.Some? ==> e.init.value.Keys !! RESERVED)
    && (e.UserInput? ==> e.data.Keys !! RESERVED)
  }

  /** The prompt most recently sent for a session, unless a final text was sent after it. */
  ghost function Shown(log: seq<Effect>, sid: string): Option<Item>
    decreases |log|
  {
    if log == [] then None
    else
      var e := log[|log| - 1];
      if e.Responded? && e.session == sid then (if e.kind == ResponseTypeResponse then Some(e.item) else None)
      else Shown(log[..|log| - 1], sid)
  }

  /** The prompt an entry waits at: none if its `current_item_id` names something else. */
  function WaitsAt(p: Program, d: Data): Option<Item> {
    match Lookup(d, CURRENT_ITEM_ID)
    case Str(id) => (match ItemByID(p, id) case Some(item) => if item.kind.PromptItem? then Some(item) else None case None => None)
    case _ => None
  }

  ghost predicate AsShownAt(p: Program, store: Store, log: seq<Effect>, sid: string) {
    sid in store && WaitsAt(p, store[sid]).Some? ==> Shown(log, sid) == WaitsAt(p, store[sid])
  }

  ghost predicate AsShown(p: Program, w: World) {
    forall sid :: AsShownAt(p, w.store, w.log, sid)
  }

  // ---- The loop stays within the service and off the reserved names --------------------------------

  ghost predicate SameOn(names: set<string>, l: Local, k: Local) {
    forall n | n in names :: Lookup(l.data, n) == Lookup(k.data, n)
  }

  lemma OpsKeep(names: set<string>, l: Local, ops: seq<Op>)
    requires Avoids(ops, names)
    ensures SameOn(names, l, ApplyOps(l, ops))
  {
    forall n | n in names
      ensures Lookup(l.data, n) == Lookup(ApplyOps(l, ops).data, n)
    {
      OpsAvoid(l, ops, names, n);
    }
  }

  lemma VisitStaysWithin(p: Program, items: set<Item>, names: set<string>, l: Local, item: Item)
    requires Disciplined(p, items, names) && item in items
    ensures var v := VisitItem(p, l, item);
      && SameOn(names, l, v.l)
      && (v.Expanded? ==> Within(v.next, items))
      && (v.Stopped? ==> v.stop != Drained && v.stop.item == item && (item.kind.PromptItem? ==> v.stop.AtUser?))
  {
    if item.kind.ExecItem? {
      assert Obedient(p.exec(item, View(l)), items, names);
      OpsKeep(names, l, p.exec(item, View(l)).ops);
    } else if item.kind.WaitItem? {
      OpsKeep(names, l, p.request(item, View(l)).ops);
    }
  }

  lemma {:induction false} RunStaysWithin(p: Program, items: set<Item>, names: set<string>, l: Local, q: seq<Item>, n: nat)
    requires Disciplined(p, items, names) && Within(q, items) && Run(p, l, q, n).Some?
    ensures var h := Run(p, l, q, n).value;
      && SameOn(names, l, h.l) && Within(h.rest, items)
      && (h.stop != Drained ==> h.stop.item in items && (h.stop.item.kind.PromptItem? ==> h.stop.AtUser?))
    decreases n
  {
    if q != [] {
      VisitStaysWithin(p, items, names, l, q[0]);
      var v := VisitItem(p, l, q[0]);
      if v.Expanded? {
        RunStaysWithin(p, items, names, v.l, v.next + q[1..], n - 1);
      }
    }
  }

  lemma EndsStaysWithin(p: Program, items: set<Item>, names: set<string>, l: Local, q: seq<Item>)
    requires Disciplined(p, items, names) && Within(q, items) && Halts(p, l, q)
    ensures var h := Ends(p, l, q);
      && SameOn(names, l, h.l) && Within(h.rest, items)
      && (h.stop != Drained ==> h.stop.item in items && (h.stop.item.kind.PromptItem? ==> h.stop.AtUser?))
  {
    var n: nat :| Run(p, l, q, n).Some?;
    EndsIs(p, l, q, n);
    RunStaysWithin(p, items, names, l, q, n);
  }

  lemma {:induction false} ResolveStaysWithin(p: Program, items: set<Item>, ids: seq<string>)
    requires forall id | id in p.itemByID :: p.itemByID[id] in items
    ensures Resolve(p, ids).Some? ==> Within(Resolve(p, ids).value, items)
    decreases |ids|
  {
    if ids != [] {
      ResolveStaysWithin(p, items, ids[1..]);
    }
  }

  /** Exactly the prompt `item` was sent for the session. */
  predicate Prompts(sent: seq<Effect>, sid: string, item: Item) {
    && |sent| == 1 && sent[0].Responded? && sent[0].session == sid
    && sent[0].kind == ResponseTypeResponse && sent[0].item == item
  }

  /** With a responder on record, `proceed` never panics at a user item, so what it keeps waiting for as a prompt
      it has just shown. */
  lemma ProceedShows(p: Program, items: set<Item>, sid: string, l: Local, more: seq<Item>)
    requires Disciplined(p, items, RESERVED) && Within(more, items) && ProceedHalts(p, l, more)
    requires Lookup(l.data, RESPONDER_ID).Str? && Lookup(l.data, RESPONDER_KEY).Str?
    ensures var v := Proceed(p, sid, l, more).verdict;
      (v.keep.Some? && ItemByID(p, v.keep.value).Some? && ItemByID(p, v.keep.value).value.kind.PromptItem?) ==>
      Prompts(v.effects, sid, ItemByID(p, v.keep.value).value)
  {
    var loaded := LoadNextItems(p, l);
    if loaded.Some? {
      if Lookup(l.data, NEXT_ITEM_IDS).StrList? {
        ResolveStaysWithin(p, items, Lookup(l.data, NEXT_ITEM_IDS).items);
      }
      var q := more + loaded.value;
      EndsStaysWithin(p, items, RESERVED, l, q);
      var h := Ends(p, l, q);
      assert RESPONDER_ID in RESERVED && RESPONDER_KEY in RESERVED;
      if h.stop != Drained && h.stop.item.id in p.itemByID {
        assert p.itemByID[h.stop.item.id] == h.stop.item;
      }
    }
  }

  // ---- What a call does to the picture -------------------------------------------------------------

  lemma {:induction false} ShownAppend(log: seq<Effect>, sent: seq<Effect>, sid: string)
    requires |sent| <= 1
    ensures Shown(log + sent, sid) ==
      if sent == [] || sent[0].Requested? || sent[0].session != sid then Shown(log, sid)
      else if sent[0].kind == ResponseTypeResponse then Some(sent[0].item)
      else None
  {
    if |sent| == 1 {
      assert (log + sent)[..|log + sent| - 1] == log;
    } else {
      assert log + sent == log;
    }
  }

  /** Only the session of the call can get out of the picture. */
  lemma PictureElsewhere(be: Backend, p: Program, w: World, e: Event)
    requires Terminating(p) && AsShown(p, w)
    ensures var w' := Step(be, p, w, e); AsShown(p, w') <==> AsShownAt(p, w'.store, w'.log, Sid(e))
  {
    var c, w' := Serve(be, p, w.store, e), Step(be, p, w, e);
    OneEffectPerCall(be, p, w.store, e);
    OtherSessionsUntouched(be, p, w.store, e);
    forall sid | sid != Sid(e)
      ensures AsShownAt(p, w'.store, w'.log, sid)
    {
      ShownAppend(w.log, c.sent, sid);
      assert AsShownAt(p, w.store, w.log, sid);
      assert sid in c.store ==> sid in c.store - {Sid(e)} && sid in w.store - {Sid(e)};
    }
  }

  /** The session does not wait at a prompt after the call, or the call sent that prompt, or nothing to the user. */
  ghost predicate Harmless(p: Program, sid: string, c: Call) {
    (sid in c.store && WaitsAt(p, c.store[sid]).Some?) ==>
    c.sent == [] || c.sent[0].Requested? || Prompts(c.sent, sid, WaitsAt(p, c.store[sid]).value)
  }

  /** The closing exchange arrives, or nothing depends on it. */
  ghost predicate Told(be: Backend, p: Program, sid: string, c: Call, net: Net) {
    Reached(be, net) || Harmless(p, sid, c)
  }

  /** With a responder on record and a closing exchange that arrives, the session ends absent, not waiting at a prompt,
      or waiting at the prompt shown. */
  lemma FinishShows(be: Backend, p: Program, items: set<Item>, through: bool, store: Store, sid: string, l: Local,
      more: seq<Item>, net: Net)
    requires Disciplined(p, items, RESERVED) && Within(more, items) && ProceedHalts(p, l, more)
    requires Lookup(l.data, RESPONDER_ID).Str? && Lookup(l.data, RESPONDER_KEY).Str?
    requires Reached(be, net) && (be.Rest? ==> sid in store)
    ensures StaysOrShows(p, map[], sid, Finish(be, p, through, store, sid, l, more, net))
  {
    var o := Proceed(p, sid, l, more);
    ProceedShows(p, items, sid, l, more);
    DeferredStamps(be, through, store, sid, o.l, o.verdict.keep, net);
  }

  /** What `proceed` leaves is as shown exactly if the store was told, or did not have to be. */
  lemma FinishTells(be: Backend, p: Program, items: set<Item>, through: bool, store: Store, log: seq<Effect>, sid: string,
      l: Local, more: seq<Item>, net: Net)
    requires Disciplined(p, items, RESERVED) && Within(more, items) && ProceedHalts(p, l, more)
    requires Lookup(l.data, RESPONDER_ID).Str? && Lookup(l.data, RESPONDER_KEY).Str?
    requires be.Rest? ==> sid in store && AsShownAt(p, store, log, sid) && !through
    ensures var c := Finish(be, p, through, store, sid, l, more, net);
      AsShownAt(p, c.store, log + c.sent, sid) <==> Told(be, p, sid, c, net)
  {
    var c := Finish(be, p, through, store, sid, l, more, net);
    FinishIsOrderly(be, p, through, store, sid, l, more, net);
    ShownAppend(log, c.sent, sid);
    if Reached(be, net) {
      FinishShows(be, p, items, through, store, sid, l, more, net);
    } else {
      assert c.store == store;
    }
  }

  /** What polite calls hand to `proceed`: items of the service, a responder on record, and (over REST) an entry that
      waits where it did. If a call answers at once, the session waits where it did, or the prompt was repeated. */
  ghost predicate PoliteEntry(be: Backend, p: Program, items: set<Item>, store: Store, e: Event, entry: Entry) {
    match entry
    case Proceeds(store', l, more) =>
      && Within(more, items) && Lookup(l.data, RESPONDER_ID).Str? && Lookup(l.data, RESPONDER_KEY).Str?
      && (be.Rest? ==> Sid(e) in store' && (WaitsAt(p, store'[Sid(e)]).Some? ==> store' == store))
    case Answers(c) => StaysOrShows(p, store, Sid(e), c)
  }

  /** If the session waits at a prompt after the call, the call showed it, or sent nothing and left it waiting there. */
  ghost predicate StaysOrShows(p: Program, store: Store, sid: string, c: Call) {
    (sid in c.store && WaitsAt(p, c.store[sid]).Some?) ==>
    Prompts(c.sent, sid, WaitsAt(p, c.store[sid]).value)
      || (c.sent == [] && sid in store && WaitsAt(p, c.store[sid]) == WaitsAt(p, store[sid]))
  }

  lemma StartIsPolite(be: Backend, p: Program, items: set<Item>, store: Store, e: Event)
    requires Disciplined(p, items, RESERVED) && Polite(e, items) && e.Start?
    ensures PoliteEntry(be, p, items, store, e, EnterStart(be, p, store, e))
  {
    if e.item.Some? && e.responder.Some? && NewLocal(be, e.init, e.net.open).Some? {
      var l := SetLocal(NewLocal(be, e.init, e.net.open).value, INIT_REQUEST, Str(e.request));
      assert Obedient(p.exec(e.item.value, View(l)), items, RESERVED);
    }
    assert CURRENT_ITEM_ID in RESERVED;
  }

  lemma InputIsPolite(be: Backend, p: Program, items: set<Item>, store: Store, e: Event)
    requires Disciplined(p, items, RESERVED) && Polite(e, items) && e.UserInput?
    ensures PoliteEntry(be, p, items, store, e, EnterInput(be, p, store, e))
  {
    var l0 := GetLocal(be, store, e.id, e.net.open);
    if l0.Some? {
      var l := SetAll(l0.value, e.data);
      assert CURRENT_ITEM_ID in RESERVED;
      assert Lookup(l.data, CURRENT_ITEM_ID) == Lookup(l0.value.data, CURRENT_ITEM_ID);
      var item := ItemByID(p, CurrentItemId(l));
      if item.Some? && item.value.kind.PromptItem? {
        var a := p.process(item.value, View(l), e.input);
        assert Obedient(a, items, RESERVED);
        OpsKeep(RESERVED, l, a.ops);
      }
    }
  }

  // ---- Every run -----------------------------------------------------------------------------------

  /** A call that keeps to the service keeps the picture exactly if the store was told of what was shown: its closing
      exchange arrived, or the session no longer waits at a prompt, or the same prompt was shown again, or nothing. */
  lemma StepKeepsPicture(be: Backend, p: Program, items: set<Item>, w: World, e: Event)
    requires Terminating(p) && Disciplined(p, items, RESERVED) && Polite(e, items) && AsShown(p, w)
    ensures AsShown(p, Step(be, p, w, e)) <==> Told(be, p, Sid(e), Serve(be, p, w.store, e), e.net.close)
  {
    var c := Serve(be, p, w.store, e);
    match e {
      case Start(_, _, _, _, _, _, _, _) => StartIsPolite(be, p, items, w.store, e);
      case UserInput(_, _, _, _, _, _) => InputIsPolite(be, p, items, w.store, e);
      case UserAbort(_, _) =>
    }
    PictureElsewhere(be, p, w, e);
    assert AsShownAt(p, w.store, w.log, Sid(e));
    match Enter(be, p, w.store, e) {
      case Answers(_) =>
        OneEffectPerCall(be, p, w.store, e);
        ShownAppend(w.log, c.sent, Sid(e));
      case Proceeds(store, l, more) =>
        FinishTells(be, p, items, e.UserInput? && be.InMem?, store, w.log, Sid(e), l, more, e.net.close);
    }
  }

  ghost predicate ToldThroughout(be: Backend, p: Program, w: World, events: seq<Event>)
    requires Terminating(p)
    decreases |events|
  {
    events != [] ==>
      && Told(be, p, Sid(events[0]), Serve(be, p, w.store, events[0]), events[0].net.close)
      && ToldThroughout(be, p, Step(be, p, w, events[0]), events[1..])
  }

  ghost predicate AsShownThroughout(be: Backend, p: Program, w: World, events: seq<Event>)
    requires Terminating(p)
    decreases |events|
  {
    AsShown(p, w) && (events != [] ==> AsShownThroughout(be, p, Step(be, p, w, events[0]), events[1..]))
  }

  /** In a run of calls that keep to the service, started from a state where it holds (such as the empty one), a stored
      `current_item_id` that names a prompt names the one shown last, after every call, exactly if the store was told
      by every call; in particular if every closing exchange arrives. */
  lemma {:induction false} LastShownPrompt(be: Backend, p: Program, items: set<Item>, w: World, events: seq<Event>)
    requires Terminating(p) && Disciplined(p, items, RESERVED) && AsShown(p, w)
    requires forall i | 0 <= i < |events| :: Polite(events[i], items)
    ensures AsShownThroughout(be, p, w, events) <==> ToldThroughout(be, p, w, events)
    ensures (forall i | 0 <= i < |events| :: Reached(be, events[i].net.close)) ==>
      AsShownThroughout(be, p, w, events) && AsShown(p, After(be, p, w, events))
    decreases |events|
  {
    if events != [] {
      var e := events[0];
      StepKeepsPicture(be, p, items, w, e);
      var w' := Step(be, p, w, e);
      if AsShown(p, w') {
        LastShownPrompt(be, p, items, w', events[1..]);
      } else {
        assert !AsShownThroughout(be, p, w', events[1..]);
      }
    }
  }

  /** So an input that reaches a prompt is processed by the prompt the user saw. */
  lemma InputGoesToShownPrompt(be: Backend, p: Program, items: set<Item>, w: World, e: Event)
    requires Terminating(p) && Disciplined(p, items, RESERVED) && Polite(e, items) && AsShown(p, w) && e.UserInput?
    ensures var c := Serve(be, p, w.store, e);
      || (c.result.Err? && c.result.error in {NoResponder, NoSession, UnknownItem, NotAPrompt} && c.sent == [])
      || (Shown(w.log, e.id).Some?
          && Enter(be, p, w.store, e) == Continue(be, p, w.store, e, Shown(w.log, e.id).value, e.responder.value,
               SetAll(GetLocal(be, w.store, e.id, e.net.open).value, e.data)))
  {
    var l0 := GetLocal(be, w.store, e.id, e.net.open);
    if e.responder.Some? && l0.Some? {
      assert CURRENT_ITEM_ID in RESERVED && AsShownAt(p, w.store, w.log, e.id);
      assert Lookup(SetAll(l0.value, e.data).data, CURRENT_ITEM_ID) == Lookup(l0.value.data, CURRENT_ITEM_ID);
    }
  }
}
