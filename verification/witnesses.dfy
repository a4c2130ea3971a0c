/** One small service of library items, and the inputs at which the limits of the run-level theorems show. */
module Witnesses {
  import opened Values
  import opened LocalSessions
  import opened Stores
  import opened Items
  import opened Interpreter
  import opened Lifecycle
  import opened Protocol
  import opened LastShown
  import B = Bisimulation
  import D = Dialog
  import L = Limits
  import M = Menus
  import N = Decimal
  import P = Prompts
  import R = Routers
  import S = StandardItems

  const ENTRY := Item("e", ExecItem, 0)
  const MENU := Item("m", PromptItem, 1)
  const ASK := Item("a", PromptItem, 2)
  const BYE := Item("b", FinalItem, 3)

  const NOT_EMPTY: P.Validator := input => if input == "" then Some("!") else None
  const OPTIONS := [M.MenuOption("Name", [ASK, BYE]), M.MenuOption("Leave", [BYE])]

  /** One code leads to a menu; its first option asks for a name and then says goodbye, its second only does that. */
  const ENTRY_DEF := S.RouterDef(map["*1#" := [MENU]], map[], [])
  const MENU_DEF := S.MenuDef("Hello", OPTIONS)
  const ASK_DEF := S.PromptDef("Name?", "n", [NOT_EMPTY])
  const BYE_DEF := S.FinalDef("Bye")

  const DEFS: S.Catalog := map[ENTRY := ENTRY_DEF, MENU := MENU_DEF, ASK := ASK_DEF, BYE := BYE_DEF]

  const REGISTRY := map["e" := ENTRY, "m" := MENU, "a" := ASK, "b" := BYE]

  const RESPOND: (string, string, ResponseType, string) -> bool := (id, key, kind, text) => true

  const FLAT: Item -> nat := item => 0

  ghost function Demo(): Program {
    S.ServiceOf(DEFS, REGISTRY, {"console"}, RESPOND)
  }

  /** The names used here are all different. */
  lemma DifferentNames()
    ensures "e" != "m" && "e" != "a" && "e" != "b" && "m" != "a" && "m" != "b" && "a" != "b"
    ensures "n" !in D.KEPT && "c" !in D.KEPT && "n" != INIT_REQUEST && "c" != INIT_REQUEST
  {
    assert "e"[0] == 'e' && "m"[0] == 'm' && "a"[0] == 'a' && "b"[0] == 'b';
    assert |"n"| == 1 && |"c"| == 1;
    assert |CURRENT_ITEM_ID| == 15 && |RESPONDER_ID| == 12 && |RESPONDER_KEY| == 13 && |NEXT_ITEM_IDS| == 13;
  }

  lemma WhatIsDefined()
    ensures DEFS.Keys == {ENTRY, MENU, ASK, BYE}
    ensures DEFS[ENTRY] == ENTRY_DEF && DEFS[MENU] == MENU_DEF && DEFS[ASK] == ASK_DEF && DEFS[BYE] == BYE_DEF
    ensures REGISTRY.Keys == {"e", "m", "a", "b"}
    ensures REGISTRY["e"] == ENTRY && REGISTRY["m"] == MENU && REGISTRY["a"] == ASK && REGISTRY["b"] == BYE
  {
    DifferentNames();
  }

  lemma EachIsWellDefined(i: Item)
    requires i in DEFS
    ensures i.kind == S.KindOf(DEFS[i]) && S.LeadsWithin(DEFS[i], DEFS.Keys) && S.WritesOnly(DEFS[i])
    ensures i.id in REGISTRY && REGISTRY[i.id] == i
  {
    WhatIsDefined();
    DifferentNames();
  }

  lemma EachIsRegistered(id: string)
    requires id in REGISTRY
    ensures id != "" && REGISTRY[id] in DEFS && REGISTRY[id].id == id
  {
    WhatIsDefined();
  }

  lemma DemoIsWellDefined()
    ensures S.WellDefined(DEFS, REGISTRY)
  {
    var defs, registry := DEFS, REGISTRY;
    forall i | i in defs
      ensures i.kind == S.KindOf(defs[i]) && S.LeadsWithin(defs[i], defs.Keys) && S.WritesOnly(defs[i])
      ensures i.id in registry && registry[i.id] == i
    {
      EachIsWellDefined(i);
    }
    forall id | id in registry
      ensures id != "" && registry[id] in defs && registry[id].id == id
    {
      EachIsRegistered(id);
    }
    Together(defs, registry);
  }

  lemma Together(defs: S.Catalog, registry: map<string, Item>)
    requires forall i | i in defs ::
      i.kind == S.KindOf(defs[i]) && S.LeadsWithin(defs[i], defs.Keys) && S.WritesOnly(defs[i])
    requires forall i | i in defs :: i.id in registry && registry[i.id] == i
    requires forall id | id in registry :: id != "" && registry[id] in defs && registry[id].id == id
    ensures S.WellDefined(defs, registry)
  {
    forall i, j | i in defs && j in defs && i.id == j.id
      ensures i == j
    {
      assert registry[i.id] == i && registry[j.id] == j;
    }
  }

  lemma DemoIsFlat()
    ensures S.RoutesDownward(DEFS, FLAT)
  {
    forall i: Item, view: Data, k: nat | i in DEFS && DEFS[i].RouterDef? && k < |S.ExecOf(DEFS, i, view).next|
      ensures S.ExecOf(DEFS, i, view).next[k] == MENU
    {
      WhatIsDefined();
      EntryLeadsToMenu(view);
    }
  }

  lemma DemoIsOrderly()
    ensures var p := Demo(); Terminating(p) && D.Service(p, DEFS.Keys) && Disciplined(p, DEFS.Keys, RESERVED) && B.PortableProgram(p)
  {
    DemoIsWellDefined();
    DemoIsFlat();
    S.LibraryServices(DEFS, REGISTRY, {"console"}, RESPOND, FLAT);
  }

  lemma EntryLeadsToMenu(view: Data)
    ensures var a := S.ExecOf(DEFS, ENTRY, view);
      if Lookup(view, INIT_REQUEST) == Str("*1#") then a == Act([], [MENU], Done) else a.next == [] && !a.status.Done? && a.ops == []
  {
    if Lookup(view, INIT_REQUEST).Str? {
      var code := Lookup(view, INIT_REQUEST).s;
      R.Precedence(map["*1#" := [MENU]], map[], [], R.Listed({}), code);
    }
  }

  const NETS := Nets(Delivered, Delivered)
  const LOST := Nets(Delivered, RequestLost)

  function Input(text: string, data: Data, net: Nets): Event {
    UserInput("s", data, text, Some("console"), "k", net)
  }

  /** A session that waits at an item, as the interpreter stores it. */
  function Waiting(item: Item): Data {
    map[CURRENT_ITEM_ID := Str(item.id), RESPONDER_ID := Str("console"), RESPONDER_KEY := Str("k")]
  }

  // ---- What the demo does --------------------------------------------------------------------------

  lemma UserItemStops(p: Program, l: Local, item: Item, rest: seq<Item>)
    requires item.kind.PromptItem? || item.kind.FinalItem?
    ensures Halts(p, l, [item] + rest) && Ends(p, l, [item] + rest) == Halt(l, [item], AtUser(item), rest)
  {
    var q := [item] + rest;
    assert q[0] == item && q[1..] == rest;
    EndsIs(p, l, q, 1);
  }

  ghost predicate Answerable(l: Local) {
    Lookup(l.data, RESPONDER_ID) == Str("console") && Lookup(l.data, RESPONDER_KEY) == Str("k")
  }

  /** The console takes every response. */
  ghost predicate Staffed(p: Program) {
    "console" in p.responders && forall key, kind, text :: p.respond("console", key, kind, text)
  }

  /** With the console on record and nothing queued in its data, the session is shown the item. */
  lemma UserItemShown(p: Program, sid: string, l: Local, item: Item, rest: seq<Item>)
    requires Staffed(p) && Answerable(l) && D.Unqueued(l.data) && (item.kind.PromptItem? || item.kind.FinalItem?)
    ensures var kind := if item.kind.PromptItem? then ResponseTypeResponse else ResponseTypeRelease;
      && ProceedHalts(p, l, [item] + rest)
      && Proceed(p, sid, l, [item] + rest) == Outcome(l, [item],
        Verdict(Ok, [Responded(sid, "console", "k", kind, p.render(item, View(l)), item)],
          if item.kind.PromptItem? then Some(item.id) else None))
  {
    UserItemStops(p, l, item, rest);
    assert [item] + rest + [] == [item] + rest;
  }

  lemma MenuAnswers()
    ensures S.ProcessOf(DEFS, MENU, "1") == Act([], [ASK, BYE], Done)
    ensures S.ProcessOf(DEFS, MENU, "2") == Act([], [BYE], Done)
  {
    WhatIsDefined();
    N.ParsePrint(1);
    N.ParsePrint(2);
    assert N.Print(1) == "1" && N.Print(2) == "2";
  }

  lemma AskAnswers(input: string)
    ensures S.ProcessOf(DEFS, ASK, input) ==
      if input == "" then Act([], [ASK], Failed("!")) else Act([SetOp("n", Str(input))], [], Done)
  {
    WhatIsDefined();
    P.AcceptExactly([NOT_EMPTY], ASK, "n", input);
    assert [NOT_EMPTY][0] == NOT_EMPTY;
  }

  ghost predicate Registered(p: Program, item: Item) {
    item.kind.PromptItem? && item.id in p.itemByID && p.itemByID[item.id] == item
  }

  lemma DemoIsStaffed()
    ensures Staffed(Demo()) && Registered(Demo(), MENU) && Registered(Demo(), ASK)
  {
    WhatIsDefined();
  }

  /** The prompt of a waiting session gets the next input. */
  lemma InputIsProcessed(be: Backend, p: Program, store: Store, item: Item, text: string, data: Data, net: Nets)
    requires Registered(p, item) && CURRENT_ITEM_ID !in data
    requires "s" in store && store["s"] == Waiting(item) && net.open == Delivered
    ensures var e, l := Input(text, data, net), SetAll(Opened(Some(Waiting(item))), data);
      && B.Prompted(p, l) == Some(item)
      && Enter(be, p, store, e) == Continue(be, p, store, e, item, "console", l)
  {
    PlainJson(Waiting(item));
    assert Lookup(SetAll(Opened(Some(Waiting(item))), data).data, CURRENT_ITEM_ID) == Str(item.id);
  }

  // ---- The two back-ends told apart ----------------------------------------------------------------

  lemma WaitingAgree(item: Item)
    ensures B.Agree(map["s" := Waiting(item)], map["s" := Waiting(item)])
  {
  }

  /** An empty name is rejected, and the session then holds the extra data. */
  lemma EmptyNameRejected(data: Data)
    requires CURRENT_ITEM_ID !in data
    ensures var e := Input("", data, NETS);
      !B.Accepted(Demo(), Waiting(ASK), e) && B.InputLocal(Demo(), Waiting(ASK), e) == SetAll(Opened(Some(Waiting(ASK))), data)
  {
    DemoIsStaffed();
    InputIsProcessed(InMem, Demo(), map["s" := Waiting(ASK)], ASK, "", data, NETS);
    AskAnswers("");
  }

  lemma OneNameIsOrdinary(text: string, name: string, value: string)
    requires name != CURRENT_ITEM_ID
    ensures B.Ordinary(Input(text, map[name := Str(value)], NETS))
  {
  }

  lemma NewName(p: Program, d: Data, name: string, value: string, e: Event)
    requires Terminating(p) && B.Agree(map["s" := d], map["s" := d]) && e == Input("", map[name := Str(value)], NETS)
    requires !B.Accepted(p, d, e) && B.InputLocal(p, d, e) == SetAll(Opened(Some(d)), e.data) && name !in d
    ensures Serve(InMem, p, map["s" := d], e).store == map["s" := d[name := Str(value)]]
    ensures Serve(Rest, p, map["s" := d], e).store == map["s" := d]
    ensures !B.Agree(Serve(InMem, p, map["s" := d], e).store, Serve(Rest, p, map["s" := d], e).store)
  {
    L.UnsyncedInput(p, map["s" := d], map["s" := d], e);
    SameMap(Patch(d, e.data), d[name := Str(value)]);
    assert name in Patch(d, e.data);
    SameMap(map["s" := d]["s" := d[name := Str(value)]], map["s" := d[name := Str(value)]]);
  }

  /** Rejected input with extra data that changes a name: memory keeps the change, REST does not. */
  lemma ExtraDataTellsApart()
    ensures var e, p, store := Input("", map["c" := Str("red")], NETS), Demo(), map["s" := Waiting(ASK)];
      && Terminating(p) && B.Agree(store, store) && B.Ordinary(e)
      && Serve(InMem, p, store, e).store == map["s" := Waiting(ASK)["c" := Str("red")]]
      && Serve(Rest, p, store, e).store == store
      && !B.Agree(Serve(InMem, p, store, e).store, Serve(Rest, p, store, e).store)
  {
    DemoIsOrderly();
    WaitingAgree(ASK);
    DifferentNames();
    OneNameIsOrdinary("", "c", "red");
    EmptyNameRejected(map["c" := Str("red")]);
    NewName(Demo(), Waiting(ASK), "c", "red", Input("", map["c" := Str("red")], NETS));
  }

  function Dial(code: string, init: Option<Data>): Event {
    Start("s", "", init, Some(ENTRY), code, Some("console"), "k", NETS)
  }

  /** The session of a call that dials the demo's code, when the menu is shown. */
  function Dialled(init: Option<Data>): Local {
    Addressed(B.StartedLocal(Dial("*1#", init)), "console", "k")
  }

  lemma DialShowsMenu(init: Option<Data>)
    requires init.Some? ==> NEXT_ITEM_IDS !in init.value
    ensures var p, l := Demo(), B.StartedLocal(Dial("*1#", init));
      && p.exec(ENTRY, View(l)) == Act([], [MENU], Done)
      && ProceedHalts(p, Dialled(init), [MENU])
      && Proceed(p, "s", Dialled(init), [MENU]).l == Dialled(init)
      && Proceed(p, "s", Dialled(init), [MENU]).verdict.keep == Some("m")
  {
    EntryLeadsToMenu(View(B.StartedLocal(Dial("*1#", init))));
    assert [MENU] + [] == [MENU];
    DemoIsStaffed();
    UserItemShown(Demo(), "s", Dialled(init), MENU, []);
  }

  lemma LeavesName(p: Program, d: Data, e: Event, l: Local, next: seq<Item>, id: string, name: string)
    requires Terminating(p) && e.Start? && e.item.Some? && e.responder.Some?
    requires p.exec(e.item.value, View(B.StartedLocal(e))) == Act([], next, Done)
    requires l == Addressed(B.StartedLocal(e), e.responder.value, e.key)
    requires Proceed(p, Sid(e), l, next).l == l && Proceed(p, Sid(e), l, next).verdict.keep == Some(id)
    requires name in d && name !in Stamped(l, id).toSet.Keys + Stamped(l, id).toDel
    ensures !B.TakesOver(p, d, e)
  {
  }

  lemma DialWrites(name: string)
    requires name !in {CURRENT_ITEM_ID, RESPONDER_ID, RESPONDER_KEY, INIT_REQUEST}
    ensures var l := Stamped(Dialled(None), "m"); name !in l.toSet.Keys + l.toDel
  {
  }

  lemma DialLeaves(d: Data, name: string)
    requires Terminating(Demo())
    requires name in d && name !in {CURRENT_ITEM_ID, RESPONDER_ID, RESPONDER_KEY, INIT_REQUEST}
    ensures !B.TakesOver(Demo(), d, Dial("*1#", None))
  {
    DialShowsMenu(None);
    DialWrites(name);
    LeavesName(Demo(), d, Dial("*1#", None), Dialled(None), [MENU], "m", name);
  }

  lemma WaitingWithNameAgree(item: Item, name: string, value: string)
    ensures var store := map["s" := Waiting(item)[name := Str(value)]]; B.Agree(store, store)
  {
  }

  lemma DialIsOrdinary(code: string)
    ensures B.Ordinary(Dial(code, None))
  {
  }

  /** Dialling again while the menu waits: both back-ends show the menu, but memory keeps a name of the old dialog. */
  lemma StartOverTellsApart()
    ensures var e, p, store := Dial("*1#", None), Demo(), map["s" := Waiting(MENU)["n" := Str("Ann")]];
      && Terminating(p) && B.Agree(store, store) && B.Ordinary(e)
      && B.SameCall(Serve(InMem, p, store, e), Serve(Rest, p, store, e))
      && !B.Agree(Serve(InMem, p, store, e).store, Serve(Rest, p, store, e).store)
  {
    DemoIsOrderly();
    DifferentNames();
    WaitingWithNameAgree(MENU, "n", "Ann");
    DialIsOrdinary("*1#");
    var store := map["s" := Waiting(MENU)["n" := Str("Ann")]];
    DialLeaves(store["s"], "n");
    B.StartAgrees(Demo(), store, store, Dial("*1#", None));
  }

  /** Dialling an unknown code while the menu waits: memory keeps the old dialog, REST an empty entry. */
  lemma FailedStartTellsApart()
    ensures var e, p, store := Dial("*9#", None), Demo(), map["s" := Waiting(MENU)];
      && Terminating(p) && B.Agree(store, store) && B.Ordinary(e)
      && Serve(InMem, p, store, e).store == store && Serve(Rest, p, store, e).store == store["s" := map[]]
      && !B.Agree(store, store["s" := map[]])
  {
    DemoIsOrderly();
    WaitingAgree(MENU);
    DialIsOrdinary("*9#");
    assert "*9#"[1] != "*1#"[1];
    var store, e := map["s" := Waiting(MENU)], Dial("*9#", None);
    EntryLeadsToMenu(View(B.StartedLocal(e)));
    L.StartOverWaitingSession(Demo(), store, store, e);
  }

  // ---- A closing exchange that is lost -------------------------------------------------------------

  const SHOWN := Responded("s", "console", "k", ResponseTypeResponse, "", MENU)

  /** A REST session that waits at the menu, which is what the user sees. */
  function AtMenu(): World {
    World(map["s" := Waiting(MENU)], [SHOWN])
  }

  function AddressedMenu(): Local {
    Addressed(Opened(Some(Waiting(MENU))), "console", "k")
  }

  lemma LostFinish(p: Program, store: Store, l: Local, item: Item, more: seq<Item>, sent: Effect, keep: Option<string>)
    requires ProceedHalts(p, l, more) && Proceed(p, "s", l, more) == Outcome(l, [item], Verdict(Ok, [sent], keep))
    requires "s" in store
    ensures Finish(Rest, p, false, store, "s", l, more, RequestLost) == Call(store, [sent], Ok, [item])
  {
  }

  /** The chosen option's first item is sent, but its delete or sync is lost. */
  lemma LostChoice(p: Program, text: string, item: Item, rest: seq<Item>)
    requires Terminating(p) && Staffed(p) && Registered(p, MENU) && (item.kind.PromptItem? || item.kind.FinalItem?)
    requires p.process(MENU, View(Opened(Some(Waiting(MENU)))), text) == Act([], [item] + rest, Done)
    ensures var c := Serve(Rest, p, AtMenu().store, Input(text, map[], LOST));
      && c.store == AtMenu().store && |c.sent| == 1 && c.sent[0].Responded? && c.sent[0].item == item
      && (c.sent[0].kind == ResponseTypeRelease <==> item.kind.FinalItem?)
  {
    InputIsProcessed(Rest, p, AtMenu().store, MENU, text, map[], LOST);
    SetAllNothing(Opened(Some(Waiting(MENU))));
    var l, q := AddressedMenu(), [item] + rest;
    UserItemShown(p, "s", l, item, rest);
    var v := Proceed(p, "s", l, q).verdict;
    LostFinish(p, AtMenu().store, l, item, q, v.effects[0], v.keep);
  }

  lemma MenuIsShown(p: Program)
    requires Registered(p, MENU)
    ensures AsShown(p, AtMenu()) && WaitsAt(p, AtMenu().store["s"]) == Some(MENU)
  {
    assert [SHOWN][..0] == [];
  }

  /** Whoever chooses the first option sees its question, but the next input still goes to the menu. */
  lemma LostSyncMisleads()
    ensures var p, e := Demo(), Input("1", map[], LOST);
      Terminating(p) && AsShown(p, AtMenu()) && !AsShown(p, Step(Rest, p, AtMenu(), e))
  {
    DemoIsOrderly();
    DemoIsStaffed();
    MenuAnswers();
    assert [ASK, BYE] == [ASK] + [BYE];
    LostChoice(Demo(), "1", ASK, [BYE]);
    MenuIsShown(Demo());
    NotAsShown(Demo(), AtMenu(), Input("1", map[], LOST));
  }

  lemma NotAsShown(p: Program, w: World, e: Event)
    requires Terminating(p) && AsShown(p, w) && e.UserInput? && e.net.close == RequestLost && e.id in w.store
    requires WaitsAt(p, w.store[e.id]).Some?
    requires var sent := Serve(Rest, p, w.store, e).sent;
      |sent| == 1 && sent[0].Responded? && Some(sent[0].item) != WaitsAt(p, w.store[e.id])
    ensures !AsShown(p, Step(Rest, p, w, e))
  {
    L.LostClose(p, w, e);
  }

  /** Whoever chooses the second option sees goodbye, but the session still answers. */
  lemma LostDeleteStillAnswers()
    ensures var p, e := Demo(), Input("2", map[], LOST);
      && Terminating(p)
      && EndsSession(e, Serve(Rest, p, AtMenu().store, e))
      && Serve(Rest, p, Serve(Rest, p, AtMenu().store, e).store, Input("1", map[], LOST)).sent != []
  {
    DemoIsOrderly();
    DemoIsStaffed();
    MenuAnswers();
    assert [ASK, BYE] == [ASK] + [BYE] && [BYE] == [BYE] + [];
    LostChoice(Demo(), "1", ASK, [BYE]);
    LostChoice(Demo(), "2", BYE, []);
  }

  // ---- What suspending loses -----------------------------------------------------------------------

  lemma CoveredAtUser(p: Program, l: Local, item: Item, rest: seq<Item>, pending: seq<Item>, inputs: seq<D.Input>)
    requires Terminating(p) && item.kind.PromptItem?
    requires var v := RespondTo(p, "s", l, item); v.result == Ok && v.keep == Some(item.id)
    ensures D.Covered(p, "s", l, [item] + rest, pending, inputs) <==>
      D.CoveredAt(p, "s", Stamped(l, item.id), item, rest + pending, inputs)
  {
    UserItemStops(p, l, item, rest);
  }

  lemma NotCoveredAtEnd(p: Program, l: Local, item: Item, inputs: seq<D.Input>)
    requires Terminating(p)
    ensures !D.Covered(p, "s", l, [], [item], inputs)
  {
    EndsEmpty(p, l);
  }

  const FIRST := D.Input("1", "console", "k")
  const SECOND := D.Input("Ann", "console", "k")

  /** The name is accepted, and nothing follows it. */
  lemma AskLeavesGoodbye(l: Local)
    requires Terminating(Demo()) && Answerable(l)
    ensures !D.Covered(Demo(), "s", l, [ASK] + [BYE], [], [SECOND])
  {
    var l' := Stamped(l, "a");
    CoveredAtUser(Demo(), l, ASK, [BYE], [], [SECOND]);
    AskAnswers("Ann");
    assert [SECOND][1..] == [] && [BYE] + [] == [BYE];
    NotCoveredAtEnd(Demo(), Addressed(ApplyOps(l', [SetOp("n", Str("Ann"))]), "console", "k"), BYE, []);
  }

  lemma NotCoveredNext(p: Program, l: Local, item: Item, input: D.Input, rest: seq<D.Input>)
    requires Terminating(p) && Staffed(p) && Answerable(l) && item.kind.PromptItem?
    requires var l' := Stamped(l, item.id);
      var a := p.process(item, View(l'), input.text);
      a.status.Done? && !D.Covered(p, "s", Addressed(ApplyOps(l', a.ops), input.responder, input.key), a.next, [], rest)
    ensures !D.Covered(p, "s", l, [item] + [], [], [input] + rest)
  {
    CoveredAtUser(p, l, item, [], [], [input] + rest);
    assert ([input] + rest)[0] == input && ([input] + rest)[1..] == rest;
    NothingAdded<Item>([]);
  }

  lemma MenuLeavesGoodbye(l: Local)
    requires Terminating(Demo()) && Answerable(l)
    ensures !D.Covered(Demo(), "s", l, [MENU] + [], [], [FIRST] + [SECOND])
  {
    DemoIsStaffed();
    MenuAnswers();
    assert [ASK, BYE] == [ASK] + [BYE];
    AskLeavesGoodbye(Addressed(Stamped(l, "m"), "console", "k"));
    NotCoveredNext(Demo(), l, MENU, FIRST, [SECOND]);
  }

  /** Whoever chooses the first option and types a name is told goodbye by an interpreter that is never cut, and never
      by the one that suspends. */
  lemma SuspendingLosesGoodbye(l: Local)
    requires Answerable(l)
    ensures Terminating(Demo())
    ensures D.Running(Demo(), "s", true, l, [MENU], [FIRST, SECOND]) != D.Running(Demo(), "s", false, l, [MENU], [FIRST, SECOND])
  {
    DemoIsOrderly();
    MenuLeavesGoodbye(l);
    assert [MENU] + [] == [MENU] && [FIRST] + [SECOND] == [FIRST, SECOND];
    D.SuspendResumeAgreement(Demo(), "s", l, [MENU], [FIRST, SECOND]);
  }

  // ---- Registration and data -----------------------------------------------------------------------

  const TWIN := Item("m", PromptItem, 9)

  lemma NewlyStored(p: Program, l: Local, item: Item, sent: Effect, id: string)
    requires ProceedHalts(p, l, [item]) && Proceed(p, "s", l, [item]) == Outcome(l, [item], Verdict(Ok, [sent], Some(id)))
    ensures var c := Finish(InMem, p, false, map[], "s", l, [item], Delivered);
      c.sent == [sent] && "s" in c.store && Lookup(c.store["s"], CURRENT_ITEM_ID) == Str(id)
  {
    DeferredStamps(InMem, false, map[], "s", l, Some(id), Delivered);
  }

  /** Two prompts with one id: the user is shown one, and the other will get the input. */
  lemma SameIdMixesUp(p: Program, l: Local)
    requires Staffed(p) && Registered(p, MENU) && Answerable(l) && D.Unqueued(l.data)
    ensures ProceedHalts(p, l, [TWIN])
    ensures var c := Finish(InMem, p, false, map[], "s", l, [TWIN], Delivered);
      && Prompts(c.sent, "s", TWIN) && "s" in c.store && WaitsAt(p, c.store["s"]) == Some(MENU)
      && !AsShown(p, World(c.store, c.sent))
  {
    assert [TWIN] + [] == [TWIN];
    UserItemShown(p, "s", l, TWIN, []);
    var sent := Responded("s", "console", "k", ResponseTypeResponse, p.render(TWIN, View(l)), TWIN);
    NewlyStored(p, l, TWIN, sent, "m");
    var store := Finish(InMem, p, false, map[], "s", l, [TWIN], Delivered).store;
    assert [sent][..0] == [];
    assert !AsShownAt(p, store, [sent], "s");
  }

  lemma StartStores(be: Backend, p: Program, e: Event, next: seq<Item>, l: Local, id: string)
    requires Terminating(p) && e.Start? && e.item.Some? && e.responder.Some? && e.net == NETS
    requires NewLocal(be, e.init, Delivered) == Some(Opened(e.init))
    requires p.exec(e.item.value, View(B.StartedLocal(e))) == Act([], next, Done)
    requires l == Addressed(B.StartedLocal(e), e.responder.value, e.key)
    requires Proceed(p, Sid(e), l, next).l == l && Proceed(p, Sid(e), l, next).verdict.keep == Some(id)
    ensures Serve(be, p, map[], e).store ==
      SyncStore(be, NewStore(be, map[], Sid(e), e.init, Delivered), Sid(e), Stamped(l, id), Delivered)
  {
  }

  lemma NilCommits(l: Local, name: string)
    requires name in l.toSet && l.toSet[name] == Null
    ensures name in SyncStore(InMem, map[], "s", l, Delivered)["s"]
    ensures name !in SyncStore(Rest, map["s" := map[]], "s", l, Delivered)["s"]
  {
    assert name in JsonData(Tombstoned(l)) && JsonData(Tombstoned(l))[name] == Null;
  }

  lemma NilOpens(name: string)
    ensures var init := Some(map[name := Null]);
      && NewLocal(Rest, init, Delivered) == Some(Opened(init))
      && NewStore(Rest, map[], "s", init, Delivered) == map["s" := map[]]
  {
    var d: Data := map[name := Null];
    assert NonNull(JsonData(d)) == map[] && d + map[] == d;
  }

  lemma NilIsPending(name: string)
    requires name !in {CURRENT_ITEM_ID, RESPONDER_ID, RESPONDER_KEY, INIT_REQUEST}
    ensures var l := Stamped(Dialled(Some(map[name := Null])), "m"); name in l.toSet && l.toSet[name] == Null
  {
  }

  lemma NilStarts(be: Backend)
    ensures Terminating(Demo())
    ensures var e, init := Dial("*1#", Some(map["c" := Null])), Some(map["c" := Null]);
      Serve(be, Demo(), map[], e).store == SyncStore(be, NewStore(be, map[], "s", init, Delivered), "s", Stamped(Dialled(init), "m"), Delivered)
  {
    DemoIsOrderly();
    DifferentNames();
    var init := Some(map["c" := Null]);
    DialShowsMenu(init);
    NilOpens("c");
    StartStores(be, Demo(), Dial("*1#", init), [MENU], Dialled(init), "m");
  }

  predicate Keeps(store: Store, name: string) {
    "s" in store && name in store["s"]
  }

  /** A nil in a new session's data is stored in memory and dropped over REST. */
  lemma NilTellsApart()
    ensures var e, p := Dial("*1#", Some(map["c" := Null])), Demo();
      Terminating(p) && Keeps(Serve(InMem, p, map[], e).store, "c") && !Keeps(Serve(Rest, p, map[], e).store, "c")
  {
    DifferentNames();
    NilStarts(InMem);
    NilStarts(Rest);
    NilOpens("c");
    NilIsPending("c");
    NilCommits(Stamped(Dialled(Some(map["c" := Null])), "m"), "c");
  }
}
