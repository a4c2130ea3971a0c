/** `ussd/item-prompt.go`. */
module Prompts {
  import opened Values
  import opened LocalSessions
  import opened Items
  import opened Sessions

  /** A validator's error, if it has one. */
  type Validator = string -> Option<string>

  /** The first validator that objects decides; an input nobody objects to is stored under the prompt's name. */
  function Accept(validators: seq<Validator>, me: Item, name: string, input: string): Act {
    if validators == [] then Act([SetOp(name, Str(input))], [], Done)
    else
      match validators[0](input)
      case Some(message) => Act([], [me], Failed(message))
      case None => Accept(validators[1..], me, name, input)
  }

  class Prompt {
    const item: Item
    const text: string
    const name: string
    var validators: seq<Validator>

    constructor (items: Registry, id: string, text: string, name: string)
      modifies items
      ensures item.id == id && item.kind == PromptItem && this.text == text && this.name == name && validators == []
      ensures items.itemByID == old(items.itemByID)[id := item]
    {
      var made := items.Register(id, PromptItem);
      item, this.text, this.name, validators := made, text, name, [];
    }

    method Process(s: Session, input: string) returns (next: seq<Item>, err: Option<string>)
      requires s.Valid()
      modifies s`namesToDel, s.data, s.namesToSet
      ensures var a := Accept(validators, item, name, input);
        && s.Valid() && s.Model() == ApplyOps(old(s.Model()), a.ops) && next == a.next
        && a.status == (match err case None => Done case Some(message) => Failed(message))
      ensures err.None? ==> s.Get(name) == Str(input)
      ensures forall n | n != name || err.Some? :: s.Get(n) == old(s.Get(n))
    {
      assert validators[0..] == validators;
      for i := 0 to |validators|
        invariant Accept(validators, item, name, input) == Accept(validators[i..], item, name, input)
      {
        var err := validators[i](input);
        if err.Some? {
          return [item], err;
        }
        assert validators[i..][1..] == validators[i + 1..];
      }
      s.Set(name, Str(input));
      next, err := [], None;
    }
  }

  /** The input is stored, as a string and under the prompt's name only, exactly when every validator passes it;
      otherwise nothing is stored and the error is that of the first validator that objects. */
  lemma {:induction false} AcceptExactly(validators: seq<Validator>, me: Item, name: string, input: string)
    ensures var a := Accept(validators, me, name, input);
      if forall i | 0 <= i < |validators| :: validators[i](input).None? then a == Act([SetOp(name, Str(input))], [], Done)
      else exists i ::
        && 0 <= i < |validators| && validators[i](input).Some?
        && a == Act([], [me], Failed(validators[i](input).value))
        && forall j | 0 <= j < i :: validators[j](input).None?
    decreases |validators|
  {
    if validators != [] && validators[0](input).None? {
      var rest := validators[1..];
      AcceptExactly(rest, me, name, input);
      assert forall i | 1 <= i < |validators| :: validators[i] == rest[i - 1];
      if !forall i | 0 <= i < |rest| :: rest[i](input).None? {
        var i :| 0 <= i < |rest| && rest[i](input).Some? && Accept(rest, me, name, input) == Act([], [me], Failed(rest[i](input).value))
          && forall j | 0 <= j < i :: rest[j](input).None?;
        assert validators[i + 1](input).Some?;
      }
    }
  }
}
