/** `ussd/item.go` and `ussd/responder.go`: items, the registry and the responders, seen from the interpreter. */
module Items {
  import opened Values
  import opened LocalSessions

  /** The interface an item satisfies, in the order the interpreter asks (Render first, then Exec, then Request). */
  datatype Kind = PromptItem | FinalItem | ExecItem | WaitItem | OtherItem

  /** An item value. Two different items may carry the same id; `object` then tells them apart. */
  datatype Item = Item(id: string, kind: Kind, object: nat)

  datatype Status = Done | Failed(message: string) | Panicked

  /** What a call of `Exec` or `Process` did: its updates of the session, the items it returned, how it ended. */
  datatype Act = Act(ops: seq<Op>, next: seq<Item>, status: Status)

  /** What a call of `Request` did. */
  datatype Ask = Ask(ops: seq<Op>, status: Status)

  datatype ResponseType = ResponseTypeResponse | ResponseTypeRelease

  /** The items' own code, as functions of what the session's `Get` shows, with the two registries. */
  datatype Program = Program(
    exec: (Item, Data) -> Act,
    request: (Item, Data) -> Ask,
    render: (Item, Data) -> string,
    process: (Item, Data, string) -> Act,
    itemByID: map<string, Item>,
    responders: set<string>,
    respond: (string, string, ResponseType, string) -> bool)

  function ItemByID(p: Program, id: string): Option<Item> {
    if id in p.itemByID then Some(p.itemByID[id]) else None
  }

  /** The registry as the item constructors fill it. A later item with the same id takes the earlier one's place. */
  class Registry {
    var itemByID: map<string, Item>
    var objects: nat  // how many items were made

    constructor ()
      ensures itemByID == map[] && objects == 0
    {
      itemByID, objects := map[], 0;
    }

    method Register(id: string, kind: Kind) returns (item: Item)
      modifies this
      ensures item == Item(id, kind, old(objects)) && objects == old(objects) + 1
      ensures itemByID == old(itemByID)[id := item]
    {
      item := Item(id, kind, objects);
      itemByID := itemByID[id := item];
      objects := objects + 1;
    }
  }
}
