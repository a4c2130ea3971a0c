/** `ussd/user.go` as one transition per call: `Start`, `UserInput`, `UserAbort` and what `proceed` does for them. */
module Lifecycle {
  import opened Values
  import opened LocalSessions
  import opened Stores
  import opened Items
  import opened Interpreter

  const CURRENT_ITEM_ID := "current_item_id"
  const RESPONDER_ID := "responder_id"
  const RESPONDER_KEY := "responder_key"
  const INIT_REQUEST := "init_request"
  const NEXT_ITEM_IDS := "next_item_ids"

  datatype Error =
    | NoInitItem | NoResponder | CannotCreate | InitFailed
    | NoSession | UnknownItem | NotAPrompt
    | UnknownQueuedItem | ResponderIdEmpty | ResponderUnknown | RespondFailed
    | ItemExecFailed | ItemRequestFailed | NotAnItem | FellOffQueue

  datatype Result = Ok | Err(error: Error) | Panic

  /** What reaches the outside: a response to the user (with the item it renders) or an issued service request. */
  datatype Effect =
    | Responded(session: string, responder: string, key: string, kind: ResponseType, text: string, item: Item)
    | Requested(session: string, item: Item)

  // ---- proceed ------------------------------------------------------------------------------------

  function Resolve(p: Program, ids: seq<string>): Option<seq<Item>> {
    if ids == [] then Some([])
    else
      match (ItemByID(p, ids[0]), Resolve(p, ids[1..]))
      case (Some(item), Some(items)) => Some([item] + items)
      case _ => None
  }

  function LoadNextItems(p: Program, l: Local): Option<seq<Item>> {
    match Lookup(l.data, NEXT_ITEM_IDS)
    case StrList(ids) => Resolve(p, ids)
    case _ => Some([])
  }

  /** How a call ends: its result, what it sent, and the id the deferred block stores as `current_item_id`;
      without one the deferred block deletes the session. */
  datatype Verdict = Verdict(result: Result, effects: seq<Effect>, keep: Option<string>)

  /** A user item: both type assertions, the responder, the response. A panic leaves `err` nil, so it commits. */
  function RespondTo(p: Program, sid: string, l: Local, item: Item): Verdict {
    var rid, key := Lookup(l.data, RESPONDER_ID), Lookup(l.data, RESPONDER_KEY);
    if !rid.Str? || !key.Str? then Verdict(Panic, [], Some(item.id))
    else if rid.s == "" then Verdict(Err(ResponderIdEmpty), [], None)
    else if rid.s !in p.responders then Verdict(Err(ResponderUnknown), [], None)
    else
      var kind := if item.kind.PromptItem? then ResponseTypeResponse else ResponseTypeRelease;
      var text := p.render(item, View(l));
      var ok := p.respond(rid.s, key.s, kind, text);
      Verdict(if ok then Ok else Err(RespondFailed),
        [Responded(sid, rid.s, key.s, kind, text, item)],
        if ok && item.kind.PromptItem? then Some(item.id) else None)
  }

  function Judge(p: Program, sid: string, l: Local, stop: Stop): Verdict {
    match stop
    case AtUser(item) => RespondTo(p, sid, l, item)
    case AtWait(item) => Verdict(Ok, [Requested(sid, item)], Some(item.id))
    case ExecPanicked(item) => Verdict(Panic, [], Some(item.id))
    case RequestPanicked(item) => Verdict(Panic, [], Some(item.id))
    case ExecFailed(_) => Verdict(Err(ItemExecFailed), [], None)
    case RequestFailed(_) => Verdict(Err(ItemRequestFailed), [], None)
    case Unexpected(_) => Verdict(Err(NotAnItem), [], None)
    case Drained => Verdict(Err(FellOffQueue), [], None)
  }

  datatype Outcome = Outcome(l: Local, trace: seq<Item>, verdict: Verdict)

  ghost predicate ProceedHalts(p: Program, l: Local, more: seq<Item>) {
    var loaded := LoadNextItems(p, l);
    loaded.Some? ==> Halts(p, l, more + loaded.value)
  }

  ghost function Proceed(p: Program, sid: string, l: Local, more: seq<Item>): Outcome
    requires ProceedHalts(p, l, more)
  {
    match LoadNextItems(p, l)
    case None => Outcome(l, [], Verdict(Err(UnknownQueuedItem), [], None))
    case Some(loaded) =>
      var h := Ends(p, l, more + loaded);
      Outcome(h.l, h.trace, Judge(p, sid, h.l, h.stop))
  }

  function Stamped(l: Local, id: string): Local {
    SetLocal(l, CURRENT_ITEM_ID, Str(id))
  }

  /** The deferred block: stamp and sync, or delete. Failures of the store are logged and otherwise ignored.
      `through` says that the session came from `Get`, so an in-memory one has been writing to the store. */
  function Deferred(be: Backend, through: bool, store: Store, sid: string, l: Local, keep: Option<string>, net: Net): Store {
    match keep
    case None => DelStore(be, store, sid, net)
    case Some(id) =>
      var l' := Stamped(l, id);
      SyncStore(be, if through then Leave(be, store, sid, l') else store, sid, l', net)
  }

  // ---- calls --------------------------------------------------------------------------------------

  /** What became of the exchange that opens the session, and of the one that syncs or deletes it. */
  datatype Nets = Nets(open: Net, close: Net)

  datatype Event =
    | Start(id: string, freshId: string, init: Option<Data>, item: Option<Item>, request: string,
            responder: Option<string>, key: string, net: Nets)
    | UserInput(id: string, data: Data, input: string, responder: Option<string>, key: string, net: Nets)
    | UserAbort(id: string, net: Nets)

  /** The session a call is about: `Start` makes up an id when it is given none. */
  function Sid(e: Event): string {
    if e.Start? && e.id == "" then e.freshId else e.id
  }

  /** What one call does: the store it leaves, what it sends, what it returns, and the items its loop popped. */
  datatype Call = Call(store: Store, sent: seq<Effect>, result: Result, trace: seq<Item>)

  /** A call either answers at once or enters `proceed`, with a session and items to put first in the queue. */
  datatype Entry = Answers(call: Call) | Proceeds(store: Store, l: Local, more: seq<Item>)

  function Answer(store: Store, result: Result): Entry {
    Answers(Call(store, [], result, []))
  }

  function Addressed(l: Local, responder: string, key: string): Local {
    SetLocal(SetLocal(l, RESPONDER_ID, Str(responder)), RESPONDER_KEY, Str(key))
  }

  /** `Start` once its arguments are accepted and the session is open. */
  function Begin(p: Program, store: Store, e: Event, item: Item, responder: string, l0: Local): Entry
    requires e.Start?
  {
    var l := SetLocal(l0, INIT_REQUEST, Str(e.request));
    var a := p.exec(item, View(l));
    match a.status
    case Failed(_) => Answer(store, Err(InitFailed))
    case Panicked => Answer(store, Panic)
    case Done => Proceeds(store, Addressed(ApplyOps(l, a.ops), responder, e.key), a.next)
  }

  function EnterStart(be: Backend, p: Program, store: Store, e: Event): Entry
    requires e.Start?
  {
    if e.item == None then Answer(store, Err(NoInitItem))
    else if e.responder == None then Answer(store, Err(NoResponder))
    else
      var store' := NewStore(be, store, Sid(e), e.init, e.net.open);
      match NewLocal(be, e.init, e.net.open)
      case None => Answer(store', Err(CannotCreate))
      case Some(l) => Begin(p, store', e, e.item.value, e.responder.value, l)
  }

  function CurrentItemId(l: Local): string {
    match Lookup(l.data, CURRENT_ITEM_ID)
    case Str(s) => s
    case _ => ""
  }

  function RepeatText(p: Program, item: Item, l: Local, message: string): string {
    if message == "" then p.render(item, View(l)) else message + "\n" + p.render(item, View(l))
  }

  /** `UserInput` once the prompt is known: accepted input proceeds, rejected input repeats the prompt. */
  function Continue(be: Backend, p: Program, store: Store, e: Event, item: Item, responder: string, l: Local): Entry
    requires e.UserInput?
  {
    var a := p.process(item, View(l), e.input);
    var l' := ApplyOps(l, a.ops);
    match a.status
    case Failed(message) =>
      Answers(Call(Leave(be, store, e.id, l'),
        [Responded(e.id, responder, e.key, ResponseTypeResponse, RepeatText(p, item, l', message), item)], Ok, []))
    case Panicked => Answer(Leave(be, store, e.id, l'), Panic)
    case Done => Proceeds(store, Addressed(l', responder, e.key), a.next)
  }

  /** `UserInput` once the session is open: an id that names no prompt is an error that deletes nothing. */
  function Resume(be: Backend, p: Program, store: Store, e: Event, responder: string, l0: Local): Entry
    requires e.UserInput?
  {
    var l := SetAll(l0, e.data);
    match ItemByID(p, CurrentItemId(l))
    case None => Answer(Leave(be, store, e.id, l), Err(UnknownItem))
    case Some(item) =>
      if !item.kind.PromptItem? then Answer(Leave(be, store, e.id, l), Err(NotAPrompt))
      else Continue(be, p, store, e, item, responder, l)
  }

  function EnterInput(be: Backend, p: Program, store: Store, e: Event): Entry
    requires e.UserInput?
  {
    if e.responder == None then Answer(store, Err(NoResponder))
    else
      match GetLocal(be, store, e.id, e.net.open)
      case None => Answer(store, Err(NoSession))
      case Some(l0) => Resume(be, p, store, e, e.responder.value, l0)
  }

  function Enter(be: Backend, p: Program, store: Store, e: Event): Entry {
    match e
    case Start(_, _, _, _, _, _, _, _) => EnterStart(be, p, store, e)
    case UserInput(_, _, _, _, _, _) => EnterInput(be, p, store, e)
    case UserAbort(id, net) => Answer(DelStore(be, store, id, net.close), Ok)
  }

  /** `proceed` and its deferred block. */
  ghost function Finish(be: Backend, p: Program, through: bool, store: Store, sid: string, l: Local, more: seq<Item>,
      net: Net): Call
    requires ProceedHalts(p, l, more)
  {
    var o := Proceed(p, sid, l, more);
    Call(Deferred(be, through, store, sid, o.l, o.verdict.keep, net), o.verdict.effects, o.verdict.result, o.trace)
  }

  ghost function Served(be: Backend, p: Program, e: Event, entry: Entry): Call
    requires Terminating(p)
  {
    match entry
    case Answers(c) => c
    case Proceeds(store, l, more) => Finish(be, p, e.UserInput? && be.InMem?, store, Sid(e), l, more, e.net.close)
  }

  ghost function Serve(be: Backend, p: Program, store: Store, e: Event): Call
    requires Terminating(p)
  {
    Served(be, p, e, Enter(be, p, store, e))
  }

  // ---- runs ---------------------------------------------------------------------------------------

  /** What is stored, and everything sent so far. */
  datatype World = World(store: Store, log: seq<Effect>)

  ghost function Step(be: Backend, p: Program, w: World, e: Event): World
    requires Terminating(p)
  {
    var c := Serve(be, p, w.store, e);
    World(c.store, w.log + c.sent)
  }

  /** The state after a whole run of calls. */
  ghost function After(be: Backend, p: Program, w: World, events: seq<Event>): World
    requires Terminating(p)
    decreases |events|
  {
    if events == [] then w else After(be, p, Step(be, p, w, events[0]), events[1..])
  }

  /** Everything a run of calls sends. */
  ghost function Sends(be: Backend, p: Program, store: Store, events: seq<Event>): seq<Effect>
    requires Terminating(p)
    decreases |events|
  {
    if events == [] then []
    else
      var c := Serve(be, p, store, events[0]);
      c.sent + Sends(be, p, c.store, events[1..])
  }

  lemma {:induction false} LogAfter(be: Backend, p: Program, w: World, events: seq<Event>)
    requires Terminating(p)
    ensures After(be, p, w, events).log == w.log + Sends(be, p, w.store, events)
    decreases |events|
  {
    if events == [] {
      NothingAdded(w.log);
    } else {
      var c := Serve(be, p, w.store, events[0]);
      LogAfter(be, p, Step(be, p, w, events[0]), events[1..]);
      Regroup(w.log, c.sent, Sends(be, p, c.store, events[1..]));
    }
  }
}
