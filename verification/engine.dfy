/** `ussd/user.go` as it runs: the calls, the work loop and its deferred block, on sessions that may hold the
    store's own maps. Each call is proved to make exactly the transition `Lifecycle` gives for it. */
module Engine {
  import opened Values
  import opened LocalSessions
  import opened Stores
  import opened GoMaps
  import opened Items
  import opened Interpreter
  import opened Lifecycle
  import opened Sessions

  /** An open session and what was stored when it was opened. Either the session holds the stored map of its
      id (`through`), so that its updates show there at once, or it holds no map of the store. */
  datatype Opening = Opening(s: Session, through: bool, store: Store) {
    ghost predicate Tracks()
      reads s, s.data, s.namesToSet
      reads match s.sessions case InMemory(mem) => {mem as object} case Http(server) => {server as object}
      reads s.sessions.Repr()
    {
      match s.sessions
      case InMemory(mem) =>
        && s.Valid() && mem.Valid()
        && (if through then
              && s.id in mem.sessionByID && mem.sessionByID[s.id].data == s.data && s.namesToSet == s.data
              && mem.Contents() == store[s.id := s.data.m]
            else
              && s.data !in mem.maps && s.namesToSet !in mem.maps
              && mem.Contents() == store)
      case Http(server) =>
        && s.Valid() && server.Valid() && !through
        && s.data !in server.maps && s.namesToSet !in server.maps
        && server.Contents() == store
    }
  }

  /** Changing nothing but the maps of an open session changes at most its own entry. */
  twostate lemma OnlyOwnEntry(v: Opening)
    requires old(v.Tracks())
    requires v.s.data == old(v.s.data) && v.s.namesToSet == old(v.s.namesToSet) && v.s.Valid()
    requires forall o: object | o in old(v.s.sessions.Repr()) && o != v.s.data && o != v.s.namesToSet :: unchanged(o)
    ensures v.Tracks() && v.s.sessions.Repr() == old(v.s.sessions.Repr())
  {
    match v.s.sessions
    case InMemory(mem) =>
      assert (mem as object) in old(v.s.sessions.Repr());
      assert forall k | k in mem.sessionByID :: (mem.sessionByID[k].data as object) in old(v.s.sessions.Repr());
      if v.through {
        SameMap(mem.Contents(), v.store[v.s.id := v.s.data.m]);
      } else {
        SameContents(v.s.sessions);
      }
    case Http(server) => SameContents(v.s.sessions);
  }

  /** What an open session from `Get` leaves behind if it is dropped now. */
  lemma Left(v: Opening)
    requires v.Tracks() && v.through == v.s.sessions.InMemory?
    ensures v.s.sessions.Valid()
    ensures v.s.sessions.Contents() == Leave(v.s.sessions.Backend(), v.store, v.s.id, v.s.Model())
  {
  }

  /** Items already looked up, in front of those still to come. */
  ghost function Ahead(items: seq<Item>, rest: Option<seq<Item>>): Option<seq<Item>> {
    match rest case None => None case Some(rest) => Some(items + rest)
  }

  class Engine {
    const p: Program
    const sessions: Sessions
    var log: seq<Effect>
    var popped: seq<Item>  // the items the work loop reports as current

    constructor (p: Program, sessions: Sessions)
      ensures this.p == p && this.sessions == sessions && log == [] && popped == []
    {
      this.p, this.sessions := p, sessions;
      log, popped := [], [];
    }

    /** The call `c`, on top of what was sent and popped before. */
    ghost predicate Did(c: Call, log0: seq<Effect>, popped0: seq<Item>, result: Result)
      reads this, sessions.Repr()
      reads match sessions case InMemory(mem) => {mem as object} case Http(server) => {server as object}
    {
      && sessions.Valid() && sessions.Contents() == c.store
      && log == log0 + c.sent && popped == popped0 + c.trace && result == c.result
    }

    /** The session updates an item makes. */
    method Perform(s: Session, ops: seq<Op>)
      requires s.Valid()
      modifies s`namesToDel, s.data, s.namesToSet
      ensures s.Valid() && s.Model() == ApplyOps(old(s.Model()), ops)
      ensures View(s.Model()) == Updated(old(View(s.Model())), ops)
    {
      ViewUpdated(s.Model(), ops);
      assert ops[0..] == ops;
      for i := 0 to |ops|
        invariant s.Valid() && ApplyOps(s.Model(), ops[i..]) == ApplyOps(old(s.Model()), ops)
      {
        match ops[i] {
          case SetOp(n, v) => s.Set(n, v);
          case DelOp(n) => s.Del(n);
        }
        assert ops[i..][1..] == ops[i + 1..];
      }
    }

    method LoadNextItems(s: Session) returns (items: Option<seq<Item>>)
      ensures items == Lifecycle.LoadNextItems(p, s.Model())
    {
      var v := s.Get(NEXT_ITEM_IDS);
      if !v.StrList? {
        return Some([]);
      }
      var nextItems := [];
      assert v.items[0..] == v.items;
      assert Ahead([], Resolve(p, v.items)) == Resolve(p, v.items) by {
        if Resolve(p, v.items).Some? {
          assert [] + Resolve(p, v.items).value == Resolve(p, v.items).value;
        }
      }
      for i := 0 to |v.items|
        invariant Resolve(p, v.items) == Ahead(nextItems, Resolve(p, v.items[i..]))
      {
        assert v.items[i..][0] == v.items[i];
        if v.items[i] !in p.itemByID {
          return None;
        }
        ghost var before, rest := nextItems, Resolve(p, v.items[i + 1..]);
        nextItems := nextItems + [p.itemByID[v.items[i]]];
        if rest.Some? {
          assert nextItems + rest.value == before + ([p.itemByID[v.items[i]]] + rest.value);
        }
        assert v.items[i..][1..] == v.items[i + 1..];
      }
      assert v.items[|v.items|..] == [] && nextItems + [] == nextItems;
      items := Some(nextItems);
    }

    /** What is returned and sent, and what the deferred block will find in `currentItem`, is what the verdict says. */
    ghost predicate Judged(v: Verdict, log0: seq<Effect>, result: Result, current: Option<Item>)
      reads this
    {
      && result == v.result && log == log0 + v.effects
      && v.keep == (if current.Some? && !result.Err? then Some(current.value.id) else None)
    }

    /** A user item: the responder the session names sends what the item renders. */
    method Respond(s: Session, item: Item) returns (result: Result, waiting: bool)
      requires s.Valid()
      modifies this`log
      ensures Judged(RespondTo(p, s.id, s.Model(), item), old(log), result, if waiting then Some(item) else None)
    {
      waiting := true;
      var rid, key := s.Get(RESPONDER_ID), s.Get(RESPONDER_KEY);
      if !rid.Str? || !key.Str? {
        return Panic, true;
      }
      if rid.s == "" {
        return Err(ResponderIdEmpty), true;
      }
      if rid.s !in p.responders {
        return Err(ResponderUnknown), true;
      }
      var text := p.render(item, NonNull(s.data.m));
      var kind := ResponseTypeResponse;
      if !item.kind.PromptItem? {
        waiting := false;
        kind := ResponseTypeRelease;
      }
      var ok := p.respond(rid.s, key.s, kind, text);
      log := log + [Responded(s.id, rid.s, key.s, kind, text, item)];
      result := if ok then Ok else Err(RespondFailed);
    }

    /** One item in the loop's body: it either expands (`more`), or ends the loop. */
    method Turn(s: Session, item: Item) returns (more: Option<seq<Item>>, result: Result, current: Option<Item>)
      requires s.Valid()
      modifies this`log, s`namesToDel, s.data, s.namesToSet
      ensures s.Valid()
      ensures match VisitItem(p, old(s.Model()), item)
        case Expanded(l, next) => more == Some(next) && s.Model() == l && log == old(log)
        case Stopped(l, stop) =>
          more == None && s.Model() == l && Judged(Judge(p, s.id, l, stop), old(log), result, current)
    {
      more, result, current := None, Ok, Some(item);
      if item.kind.PromptItem? || item.kind.FinalItem? {
        var waiting;
        result, waiting := Respond(s, item);
        if !waiting {
          current := None;
        }
      } else if item.kind.ExecItem? {
        var a := p.exec(item, NonNull(s.data.m));
        Perform(s, a.ops);
        match a.status {
          case Done => more := Some(a.next);
          case Failed(_) => result := Err(ItemExecFailed);
          case Panicked => result := Panic;
        }
      } else if item.kind.WaitItem? {
        var a := p.request(item, NonNull(s.data.m));
        Perform(s, a.ops);
        match a.status {
          case Done => log := log + [Requested(s.id, item)];
          case Failed(_) => result := Err(ItemRequestFailed);
          case Panicked => result := Panic;
        }
      } else {
        result := Err(NotAnItem);
      }
    }

    /** The loop of `proceed`. `current` is its `currentItem`, which a final response sets back to nil. */
    method Work(s: Session, queue: seq<Item>) returns (result: Result, current: Option<Item>)
      requires s.Valid() && Halts(p, s.Model(), queue)
      modifies this, s`namesToDel, s.data, s.namesToSet
      ensures s.Valid()
      ensures var h := Ends(p, old(s.Model()), queue);
        && s.Model() == h.l && popped == old(popped) + h.trace
        && Judged(Judge(p, s.id, h.l, h.stop), old(log), result, current)
    {
      ghost var n: nat :| Run(p, s.Model(), queue, n).Some?;
      EndsIs(p, s.Model(), queue, n);
      ghost var h := Ends(p, s.Model(), queue);
      ghost var done: seq<Item> := [];
      var nextItems := queue;
      current := None;
      NothingAdded(h.trace);
      while |nextItems| > 0
        invariant s.Valid()
        invariant Run(p, s.Model(), nextItems, n).Some?
        invariant h == Onto(done, Run(p, s.Model(), nextItems, n).value)
        invariant log == old(log) && popped == old(popped) + done
        decreases n
      {
        RunTurn(p, s.Model(), done, nextItems, n);
        var item := nextItems[0];
        nextItems := nextItems[1..];
        popped := popped + [item];
        done := done + [item];
        var more;
        more, result, current := Turn(s, item);
        if more == None {
          return;
        }
        nextItems := more.value + nextItems;
        n := n - 1;
      }
      NothingAdded(done);
      result := Err(FellOffQueue);
    }

    method Proceed(s: Session, more: seq<Item>, ghost v: Opening, net: Net, now: nat)
      returns (result: Result)
      requires s.sessions == sessions && v.s == s && v.Tracks()
      requires ProceedHalts(p, s.Model(), more)
      modifies this, s, s.data, s.namesToSet, sessions.Repr()
      ensures fresh(sessions.Repr() - old(sessions.Repr()))
      ensures Did(Finish(sessions.Backend(), p, v.through, v.store, s.id, old(s.Model()), more, net),
          old(log), old(popped), result)
    {
      var current;
      result, current := LoadAndWork(s, more, v);
      Defer(s, result, current, v, net, now);
    }

    /** `proceed` up to its deferred block. */
    method LoadAndWork(s: Session, more: seq<Item>, ghost v: Opening)
      returns (result: Result, current: Option<Item>)
      requires s.sessions == sessions && v.s == s && v.Tracks()
      requires ProceedHalts(p, s.Model(), more)
      modifies this, s`namesToDel, s.data, s.namesToSet
      ensures v.Tracks() && sessions.Repr() == old(sessions.Repr())
      ensures var o := Lifecycle.Proceed(p, s.id, old(s.Model()), more);
        && s.Model() == o.l && popped == old(popped) + o.trace && Judged(o.verdict, old(log), result, current)
    {
      current := None;
      var loaded := LoadNextItems(s);
      if loaded.None? {
        result := Err(UnknownQueuedItem);
      } else {
        result, current := Work(s, more + loaded.value);
      }
      OnlyOwnEntry(v);
    }

    /** One `s.Set`, seen in the store. */
    method Put(s: Session, name: string, value: Value, ghost v: Opening)
      requires v.s == s && v.Tracks()
      modifies s`namesToDel, s.data, s.namesToSet
      ensures v.Tracks() && s.sessions.Repr() == old(s.sessions.Repr())
      ensures s.Model() == SetLocal(old(s.Model()), name, value)
    {
      s.Set(name, value);
      OnlyOwnEntry(v);
    }

    /** The deferred block. */
    method Defer(s: Session, result: Result, current: Option<Item>, ghost v: Opening, net: Net,
        now: nat)
      requires s.sessions == sessions && v.s == s && v.Tracks()
      modifies s, s.data, s.namesToSet, sessions.Repr()
      ensures sessions.Valid() && fresh(sessions.Repr() - old(sessions.Repr()))
      ensures sessions.Contents() == Deferred(sessions.Backend(), v.through, v.store, s.id, old(s.Model()),
          if current.Some? && !result.Err? then Some(current.value.id) else None, net)
    {
      if result.Err? || current.None? {
        var _ := sessions.Del(s.id, net);
        ForgetUpdates(sessions.Backend(), v.through, v.store, s.id, old(s.Model()), net);
      } else {
        Put(s, CURRENT_ITEM_ID, Str(current.value.id), v);
        s.Sync(net, now);
      }
    }

    /** `s.Set` for the responder of this call. */
    method Address(s: Session, responder: string, key: string, ghost v: Opening)
      requires v.s == s && v.Tracks()
      modifies s`namesToDel, s.data, s.namesToSet
      ensures v.Tracks() && s.sessions.Repr() == old(s.sessions.Repr())
      ensures s.Model() == Addressed(old(s.Model()), responder, key)
    {
      s.Set(RESPONDER_ID, Str(responder));
      s.Set(RESPONDER_KEY, Str(key));
      OnlyOwnEntry(v);
    }

    /** What an item does to the session, seen in the store. */
    method PerformIn(s: Session, ops: seq<Op>, ghost v: Opening)
      requires v.s == s && v.Tracks()
      modifies s`namesToDel, s.data, s.namesToSet
      ensures v.Tracks() && s.sessions.Repr() == old(s.sessions.Repr())
      ensures s.Model() == ApplyOps(old(s.Model()), ops)
    {
      Perform(s, ops);
      OnlyOwnEntry(v);
    }

    method Start(id: string, freshId: string, init: GoMap?, initItem: Option<Item>, request: string,
        responder: Option<string>, key: string, net: Nets, now: nat)
      returns (result: Result)
      requires Terminating(p) && sessions.Valid() && freshId != "" && init !in sessions.Repr()
      modifies this, init, sessions.Repr()
      ensures fresh(sessions.Repr() - old(sessions.Repr()))
      ensures Did(Serve(sessions.Backend(), p, old(sessions.Contents()),
          Event.Start(id, freshId, old(Given(init)), initItem, request, responder, key, net)), old(log), old(popped), result)
    {
      ghost var e := Event.Start(id, freshId, Given(init), initItem, request, responder, key, net);
      ghost var c, store := Serve(sessions.Backend(), p, sessions.Contents(), e), sessions.Contents();
      NothingAdded(log);
      NothingAdded(popped);
      var sid := if id == "" then freshId else id;
      if initItem.None? {
        assert c == Call(store, [], Err(NoInitItem), []);
        return Err(NoInitItem);
      }
      if responder.None? {
        assert c == Call(store, [], Err(NoResponder), []);
        return Err(NoResponder);
      }
      var s := sessions.New(sid, init, net.open, now);
      ghost var opening := sessions.Contents();
      if s == null {
        assert c == Call(opening, [], Err(CannotCreate), []);
        return Err(CannotCreate);
      }
      assert c == Served(sessions.Backend(), p, e,
        Lifecycle.Begin(p, opening, e, initItem.value, responder.value, s.Model()));
      result := Begin(s, initItem.value, request, responder.value, key, net, now, e);
      assert Did(c, old(log), old(popped), result);
    }

    method Begin(s: Session, item: Item, request: string, responder: string, key: string, net: Nets, now: nat, ghost e: Event)
      returns (result: Result)
      requires Terminating(p) && s.sessions == sessions && sessions.Valid()
      requires Opening(s, false, sessions.Contents()).Tracks()
      requires e.Start? && e.request == request && e.key == key && e.net == net && Sid(e) == s.id
      modifies this, s, s.data, s.namesToSet, sessions.Repr()
      ensures fresh(sessions.Repr() - old(sessions.Repr()))
      ensures Did(Served(sessions.Backend(), p, e, Lifecycle.Begin(p, old(sessions.Contents()), e, item, responder, old(s.Model()))),
          old(log), old(popped), result)
    {
      ghost var v := Opening(s, false, sessions.Contents());
      NothingAdded(log);
      NothingAdded(popped);
      Put(s, INIT_REQUEST, Str(request), v);
      var a := p.exec(item, NonNull(s.data.m));
      PerformIn(s, a.ops, v);
      match a.status {
        case Failed(_) => return Err(InitFailed);
        case Panicked => return Panic;
        case Done =>
      }
      Address(s, responder, key, v);
      result := Proceed(s, a.next, v, net.close, now);
    }

    /** The caller's extra data, in whatever order its map is traversed. */
    method TakeData(s: Session, data: Data, ghost v: Opening)
      requires v.s == s && v.Tracks()
      modifies s`namesToDel, s.data, s.namesToSet
      ensures v.Tracks() && s.sessions.Repr() == old(s.sessions.Repr())
      ensures s.Model() == SetAll(old(s.Model()), data)
    {
      ghost var l := s.Model();
      var todo := data.Keys;
      SetAllNothing(l);
      assert data - todo == map[];
      while todo != {}
        invariant todo <= data.Keys && s.Valid() && s.Model() == SetAll(l, data - todo)
      {
        var n :| n in todo;
        SetAllStep(l, data, todo, n);
        s.Set(n, data[n]);
        todo := todo - {n};
      }
      assert data - {} == data;
      OnlyOwnEntry(v);
    }

    method UserInput(id: string, data: Data, input: string, responder: Option<string>, key: string, net: Nets, now: nat)
      returns (result: Result)
      requires Terminating(p) && sessions.Valid()
      modifies this, sessions.Repr()
      ensures fresh(sessions.Repr() - old(sessions.Repr()))
      ensures Did(Serve(sessions.Backend(), p, old(sessions.Contents()),
          Event.UserInput(id, data, input, responder, key, net)), old(log), old(popped), result)
    {
      ghost var e, store := Event.UserInput(id, data, input, responder, key, net), sessions.Contents();
      ghost var c := Serve(sessions.Backend(), p, store, e);
      NothingAdded(log);
      NothingAdded(popped);
      if responder.None? {
        assert c == Call(store, [], Err(NoResponder), []);
        return Err(NoResponder);
      }
      var s := sessions.Get(id, net.open, now);
      SameContents(sessions);
      if s == null {
        assert c == Call(store, [], Err(NoSession), []);
        return Err(NoSession);
      }
      ghost var v := Opening(s, sessions.InMemory?, store);
      assert v.store == if v.through then v.store[id := s.data.m] else v.store;
      assert c == Served(sessions.Backend(), p, e,
        Lifecycle.Resume(sessions.Backend(), p, store, e, responder.value, s.Model()));
      result := Resume(s, data, input, responder.value, key, net, now, v, e);
      assert Did(c, old(log), old(popped), result);
    }

    /** `UserInput` from the open session on. */
    method Resume(s: Session, data: Data, input: string, responder: string, key: string, net: Nets, now: nat,
        ghost v: Opening, ghost e: Event)
      returns (result: Result)
      requires Terminating(p) && s.sessions == sessions && v.s == s && v.Tracks() && v.through == sessions.InMemory?
      requires e == Event.UserInput(s.id, data, input, Some(responder), key, net)
      modifies this, s, s.data, s.namesToSet, sessions.Repr()
      ensures fresh(sessions.Repr() - old(sessions.Repr()))
      ensures Did(Served(sessions.Backend(), p, e, Lifecycle.Resume(sessions.Backend(), p, v.store, e, responder, old(s.Model()))),
          old(log), old(popped), result)
    {
      NothingAdded(log);
      NothingAdded(popped);
      TakeData(s, data, v);
      Left(v);
      var value := s.Get(CURRENT_ITEM_ID);
      var current := if value.Str? then value.s else "";
      assert current == CurrentItemId(s.Model());
      if current !in p.itemByID {
        return Err(UnknownItem);
      }
      var item := p.itemByID[current];
      if !item.kind.PromptItem? {
        return Err(NotAPrompt);
      }
      result := Accept(s, item, input, responder, key, net, now, v, e);
    }

    /** Rejected input: the error and the prompt again, to the responder of this call; its error is ignored. */
    method Repeat(s: Session, item: Item, message: string, responder: string, key: string)
      requires s.Valid() && sessions.Valid()
      modifies this`log
      ensures sessions.Valid() && sessions.Contents() == old(sessions.Contents())
      ensures var page := p.render(item, View(s.Model()));
        var text := if message == "" then page else message + "\n" + page;
        log == old(log) + [Responded(s.id, responder, key, ResponseTypeResponse, text, item)]
    {
      var text := message;
      if text != "" {
        text := text + "\n";
      }
      text := text + p.render(item, NonNull(s.data.m));
      NothingAdded(p.render(item, NonNull(s.data.m)));
      log := log + [Responded(s.id, responder, key, ResponseTypeResponse, text, item)];
      SameContents(sessions);
    }

    /** `UserInput` from `Process` on. */
    method Accept(s: Session, item: Item, input: string, responder: string, key: string, net: Nets, now: nat,
        ghost v: Opening, ghost e: Event)
      returns (result: Result)
      requires Terminating(p) && s.sessions == sessions && v.s == s && v.Tracks() && v.through == sessions.InMemory?
      requires e.UserInput? && e.id == s.id && e.input == input && e.key == key && e.net == net
      modifies this, s, s.data, s.namesToSet, sessions.Repr()
      ensures fresh(sessions.Repr() - old(sessions.Repr()))
      ensures Did(Served(sessions.Backend(), p, e, Continue(sessions.Backend(), p, v.store, e, item, responder, old(s.Model()))),
          old(log), old(popped), result)
    {
      NothingAdded(log);
      NothingAdded(popped);
      var a := p.process(item, NonNull(s.data.m), input);
      PerformIn(s, a.ops, v);
      Left(v);
      match a.status {
        case Failed(message) =>
          Repeat(s, item, message, responder, key);
          return Ok;
        case Panicked => return Panic;
        case Done =>
      }
      Address(s, responder, key, v);
      result := Proceed(s, a.next, v, net.close, now);
    }

    method UserAbort(id: string, net: Nets) returns (result: Result)
      requires sessions.Valid()
      modifies sessions.Repr()
      ensures fresh(sessions.Repr() - old(sessions.Repr()))
      ensures Did(Enter(sessions.Backend(), p, old(sessions.Contents()), Event.UserAbort(id, net)).call,
          old(log), old(popped), result)
    {
      var _ := sessions.Del(id, net.close);
      result := Ok;
    }
  }

  lemma ForgetUpdates(be: Backend, through: bool, store: Store, id: string, l: Local, net: Net)
    requires through ==> be.InMem?
    ensures DelStore(be, if through then store[id := l.data] else store, id, net) == DelStore(be, store, id, net)
  {
    SameMap(store[id := l.data] - {id}, store - {id});
  }
}
