/** Services made of the library's own items (`ussd/item-*.go`): what the run-level theorems ask of a service, these
    items give by construction. */
module StandardItems {
  import opened Values
  import opened LocalSessions
  import opened Items
  import opened Interpreter
  import opened Lifecycle
  import opened LastShown
  import B = Bisimulation
  import D = Dialog
  import M = Menus
  import P = Prompts
  import R = Routers

  /** One item of the library. `FuncDef` and `WaitDef` hold code of the service; a router traverses its prefixes in
      some fixed order (`Routers.RoutingDeterminism` says when the order does not matter). */
  datatype Def =
    | MenuDef(title: string, options: seq<M.MenuOption>)
    | PromptDef(text: string, name: string, validators: seq<P.Validator>)
    | FinalDef(text: string)
    | SetDef(name: string, value: Value)
    | FuncDef(run: Data -> Ask)
    | RouterDef(byCode: R.Routes, byPrefix: R.Routes, byRegex: seq<R.RegexRoute>)
    | WaitDef(request: Data -> Ask)

  type Catalog = map<Item, Def>

  function KindOf(d: Def): Kind {
    match d
    case MenuDef(_, _) => PromptItem
    case PromptDef(_, _, _) => PromptItem
    case FinalDef(_) => FinalItem
    case SetDef(_, _) => ExecItem
    case FuncDef(_) => ExecItem
    case RouterDef(_, _, _) => ExecItem
    case WaitDef(_) => WaitItem
  }

  ghost function ExecOf(defs: Catalog, item: Item, view: Data): Act {
    if item !in defs then Act([], [], Failed(""))
    else
      match defs[item]
      case SetDef(name, value) => Act([SetOp(name, value)], [], Done)
      case FuncDef(run) => Act(run(view).ops, [], run(view).status)
      case RouterDef(byCode, byPrefix, byRegex) =>
        (match Lookup(view, INIT_REQUEST)
         case Str(code) => R.Route(byCode, byPrefix, byRegex, R.Listed(byPrefix.Keys), code)
         case _ => Act([], [], Panicked))
      case _ => Act([], [], Failed(""))
  }

  function ProcessOf(defs: Catalog, item: Item, input: string): Act {
    if item !in defs then Act([], [], Failed(""))
    else
      match defs[item]
      case MenuDef(_, options) => M.Choose(options, item, input)
      case PromptDef(_, name, validators) => P.Accept(validators, item, name, input)
      case _ => Act([], [], Failed(""))
  }

  function RenderOf(defs: Catalog, item: Item): string {
    if item !in defs then ""
    else
      match defs[item]
      case MenuDef(title, options) => M.Page(title, options)
      case PromptDef(text, _, _) => text
      case FinalDef(text) => text
      case _ => ""
  }

  function RequestOf(defs: Catalog, item: Item, view: Data): Ask {
    if item in defs && defs[item].WaitDef? then defs[item].request(view) else Ask([], Failed(""))
  }

  ghost function ServiceOf(defs: Catalog, itemByID: map<string, Item>, responders: set<string>,
      respond: (string, string, ResponseType, string) -> bool): Program
  {
    Program((i, v) => ExecOf(defs, i, v), (i, v) => RequestOf(defs, i, v), (i, v) => RenderOf(defs, i),
      (i, v, input) => ProcessOf(defs, i, input), itemByID, responders, respond)
  }

  // ---- What a service definition must say ----------------------------------------------------------

  ghost predicate LeadsWithin(d: Def, items: set<Item>) {
    match d
    case MenuDef(_, options) => forall i | 0 <= i < |options| :: Within(options[i].nextItems, items)
    case RouterDef(byCode, byPrefix, byRegex) =>
      && (forall k | k in byCode :: Within(byCode[k], items))
      && (forall k | k in byPrefix :: Within(byPrefix[k], items))
      && (forall i | 0 <= i < |byRegex| :: byRegex[i].item in items)
    case _ => true
  }

  ghost predicate WritesOnly(d: Def) {
    match d
    case PromptDef(_, name, _) => name !in D.KEPT
    case SetDef(name, value) => name !in D.KEPT && Plain(value)
    case FuncDef(run) => forall view :: Avoids(run(view).ops, D.KEPT) && B.PlainOps(run(view).ops)
    case WaitDef(request) => forall view :: Avoids(request(view).ops, D.KEPT) && B.PlainOps(request(view).ops)
    case _ => true
  }

  /** Unique ids, non-empty where registered; every prompt registered; links inside the catalog; and only plain
      values written, under names that are not the interpreter's. */
  ghost predicate WellDefined(defs: Catalog, itemByID: map<string, Item>) {
    && (forall i, j | i in defs && j in defs && i.id == j.id :: i == j)
    && (forall i | i in defs :: i.kind == KindOf(defs[i]) && LeadsWithin(defs[i], defs.Keys) && WritesOnly(defs[i]))
    && (forall id | id in itemByID :: id != "" && itemByID[id] in defs && itemByID[id].id == id)
    && (forall i | i in defs && i.kind.PromptItem? :: i.id in itemByID)
  }

  /** Routers lead to routers, settings and functions of smaller rank only (menus may lead anywhere). */
  ghost predicate RoutesDownward(defs: Catalog, rank: Item -> nat) {
    forall i: Item, view: Data, k: nat ::
      (i in defs && defs[i].RouterDef? && k < |ExecOf(defs, i, view).next| && ExecOf(defs, i, view).next[k].kind.ExecItem?) ==>
      rank(ExecOf(defs, i, view).next[k]) < rank(i)
  }

  // ---- The library's items behave ------------------------------------------------------------------

  lemma ExecBehaves(defs: Catalog, itemByID: map<string, Item>, i: Item, view: Data)
    requires WellDefined(defs, itemByID)
    ensures Obedient(ExecOf(defs, i, view), defs.Keys, D.KEPT) && B.PlainOps(ExecOf(defs, i, view).ops)
  {
    if i in defs && defs[i].RouterDef? && Lookup(view, INIT_REQUEST).Str? {
      var d, code := defs[i], Lookup(view, INIT_REQUEST).s;
      assert LeadsWithin(d, defs.Keys);
      R.Precedence(d.byCode, d.byPrefix, d.byRegex, R.Listed(d.byPrefix.Keys), code);
    } else if i in defs {
      assert WritesOnly(defs[i]);
    }
  }

  lemma ProcessBehaves(defs: Catalog, itemByID: map<string, Item>, i: Item, input: string)
    requires WellDefined(defs, itemByID)
    ensures Obedient(ProcessOf(defs, i, input), defs.Keys, D.KEPT) && B.CleanProcess(ProcessOf(defs, i, input))
  {
    if i in defs {
      assert WritesOnly(defs[i]) && LeadsWithin(defs[i], defs.Keys);
      match defs[i] {
        case PromptDef(_, name, validators) => P.AcceptExactly(validators, i, name, input);
        case _ =>
      }
    }
  }

  lemma LibraryTerminates(defs: Catalog, itemByID: map<string, Item>, responders: set<string>,
      respond: (string, string, ResponseType, string) -> bool, rank: Item -> nat)
    requires RoutesDownward(defs, rank)
    ensures Terminating(ServiceOf(defs, itemByID, responders, respond))
  {
    var p := ServiceOf(defs, itemByID, responders, respond);
    assert Ranked(p, rank);
    RankedTerminates(p, rank);
  }

  /** Every well-defined service of library items meets all the conditions of the theorems on runs. */
  lemma LibraryServices(defs: Catalog, itemByID: map<string, Item>, responders: set<string>,
      respond: (string, string, ResponseType, string) -> bool, rank: Item -> nat)
    requires WellDefined(defs, itemByID) && RoutesDownward(defs, rank)
    ensures var p := ServiceOf(defs, itemByID, responders, respond);
      Terminating(p) && D.Service(p, defs.Keys) && Disciplined(p, defs.Keys, RESERVED) && B.PortableProgram(p)
  {
    var p := ServiceOf(defs, itemByID, responders, respond);
    forall i: Item, view: Data
      ensures Obedient(p.exec(i, view), defs.Keys, D.KEPT) && B.PlainOps(p.exec(i, view).ops)
    {
      ExecBehaves(defs, itemByID, i, view);
    }
    forall i: Item, view: Data, input: string
      ensures Obedient(p.process(i, view, input), defs.Keys, D.KEPT) && B.CleanProcess(p.process(i, view, input))
    {
      ProcessBehaves(defs, itemByID, i, input);
    }
    forall i: Item, view: Data
      ensures Avoids(p.request(i, view).ops, D.KEPT) && B.PlainOps(p.request(i, view).ops)
    {
      assert i in defs ==> WritesOnly(defs[i]);
    }
    LibraryTerminates(defs, itemByID, responders, respond, rank);
    assert RESERVED <= D.KEPT;
  }

  // ---- Dialogs that lose nothing -------------------------------------------------------------------

  ghost predicate LinearLists(d: Def, promptless: set<Item>) {
    match d
    case MenuDef(_, options) => forall i | 0 <= i < |options| :: D.Linear(options[i].nextItems, promptless)
    case RouterDef(byCode, byPrefix, _) =>
      && (forall k | k in byCode :: D.Linear(byCode[k], promptless))
      && (forall k | k in byPrefix :: D.Linear(byPrefix[k], promptless))
    case _ => true
  }

  /** In every option and route only the last item is a menu or a prompt, or a router that leads to one. */
  ghost predicate MenusLast(defs: Catalog, promptless: set<Item>) {
    && (forall i | i in promptless :: !i.kind.PromptItem? && (i in defs && defs[i].RouterDef? ==> LeadsWithin(defs[i], promptless)))
    && (forall i | i in defs :: LinearLists(defs[i], promptless))
  }

  lemma LibraryPromptsLast(defs: Catalog, itemByID: map<string, Item>, responders: set<string>,
      respond: (string, string, ResponseType, string) -> bool, promptless: set<Item>)
    requires MenusLast(defs, promptless)
    ensures D.PromptsLast(ServiceOf(defs, itemByID, responders, respond), promptless)
  {
    forall i: Item, view: Data
      ensures D.Linear(ExecOf(defs, i, view).next, promptless)
      ensures i in promptless ==> Within(ExecOf(defs, i, view).next, promptless)
    {
      ExecLinear(defs, promptless, i, view);
    }
    forall i: Item, input: string
      ensures D.Linear(ProcessOf(defs, i, input).next, promptless)
    {
      if i in defs {
        assert LinearLists(defs[i], promptless);
        match defs[i] {
          case PromptDef(_, name, validators) => P.AcceptExactly(validators, i, name, input);
          case _ =>
        }
      }
    }
  }

  lemma ExecLinear(defs: Catalog, promptless: set<Item>, i: Item, view: Data)
    requires MenusLast(defs, promptless)
    ensures D.Linear(ExecOf(defs, i, view).next, promptless)
    ensures i in promptless ==> Within(ExecOf(defs, i, view).next, promptless)
  {
    if i in defs && defs[i].RouterDef? && Lookup(view, INIT_REQUEST).Str? {
      var d, code := defs[i], Lookup(view, INIT_REQUEST).s;
      assert LinearLists(d, promptless);
      R.Precedence(d.byCode, d.byPrefix, d.byRegex, R.Listed(d.byPrefix.Keys), code);
    }
  }
}
