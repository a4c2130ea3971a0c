/** `ussd/item-router.go`. */
module Routers {
  import opened Values
  import opened LocalSessions
  import opened Items
  import opened Sessions
  import Lifecycle

  /** A regular expression is the set of inputs it matches. */
  datatype RegexRoute = RegexRoute(matches: string -> bool, item: Item)

  type Routes = map<string, seq<Item>>

  const UNKNOWN_CODE := "unknown USSD code"

  function FirstRegex(routes: seq<RegexRoute>, input: string): Act {
    if routes == [] then Act([], [], Failed(UNKNOWN_CODE))
    else if routes[0].matches(input) then Act([], [routes[0].item], Done)
    else FirstRegex(routes[1..], input)
  }

  function FirstPrefix(order: seq<string>, input: string): Option<string> {
    if order == [] then None
    else if order[0] <= input then Some(order[0])
    else FirstPrefix(order[1..], input)
  }

  /** Every prefix, in some order: one traversal of the map. */
  ghost predicate Traverses(order: seq<string>, keys: set<string>) {
    forall k :: k in order <==> k in keys
  }

  /** Where a code is routed if the prefixes are traversed in the given order. */
  function Route(byCode: Routes, byPrefix: Routes, byRegex: seq<RegexRoute>, order: seq<string>, input: string): Act
    requires forall k | k in order :: k in byPrefix
  {
    if input in byCode then Act([], byCode[input], Done)
    else
      match FirstPrefix(order, input)
      case Some(prefix) => PrefixInOrder(order, input); Act([], byPrefix[prefix], Done)
      case None => FirstRegex(byRegex, input)
  }

  lemma {:induction false} PrefixInOrder(order: seq<string>, input: string)
    ensures match FirstPrefix(order, input)
      case Some(prefix) => prefix in order && prefix <= input
      case None => forall k | k in order :: !(k <= input)
    decreases |order|
  {
    if order != [] && !(order[0] <= input) {
      PrefixInOrder(order[1..], input);
      assert forall k | k in order :: k == order[0] || k in order[1..];
    }
  }

  class Router {
    const item: Item
    var byCode: Routes
    var byPrefix: Routes
    var byRegex: seq<RegexRoute>

    constructor (items: Registry, id: string)
      modifies items
      ensures item.id == id && item.kind == ExecItem && byCode == map[] && byPrefix == map[] && byRegex == []
      ensures items.itemByID == old(items.itemByID)[id := item]
    {
      var made := items.Register(id, ExecItem);
      item, byCode, byPrefix, byRegex := made, map[], map[], [];
    }

    method WithCode(code: string, nextItems: seq<Item>) returns (r: Router)
      modifies this`byCode
      ensures r == this && byCode == old(byCode)[code := nextItems]
    {
      byCode := byCode[code := nextItems];
      r := this;
    }

    method WithPrefix(prefix: string, nextItems: seq<Item>) returns (r: Router)
      modifies this`byPrefix
      ensures r == this && byPrefix == old(byPrefix)[prefix := nextItems]
    {
      byPrefix := byPrefix[prefix := nextItems];
      r := this;
    }

    method WithRegex(matches: string -> bool, item: Item) returns (r: Router)
      modifies this`byRegex
      ensures r == this && byRegex == old(byRegex) + [RegexRoute(matches, item)]
    {
      byRegex := byRegex + [RegexRoute(matches, item)];
      r := this;
    }

    /** What some traversal of the prefixes makes of a code; a code that is not a string panics. */
    ghost predicate RoutesTo(code: Value, a: Act)
      reads this
    {
      if !code.Str? then a == Act([], [], Panicked)
      else exists order :: Traverses(order, byPrefix.Keys) && a == Route(byCode, byPrefix, byRegex, order, code.s)
    }

    method Exec(s: Session) returns (a: Act)
      ensures RoutesTo(Lookup(s.Model().data, Lifecycle.INIT_REQUEST), a)
    {
      var value := s.Get(Lifecycle.INIT_REQUEST);
      if !value.Str? {
        return Act([], [], Panicked);
      }
      var input := value.s;
      if input in byCode {
        assert Traverses(Listed(byPrefix.Keys), byPrefix.Keys);
        return Act([], byCode[input], Done);
      }
      var todo := byPrefix.Keys;
      ghost var seen: seq<string> := [];
      while todo != {}
        invariant todo <= byPrefix.Keys
        invariant forall k :: k in seen <==> k in byPrefix.Keys && k !in todo
        invariant forall k | k in seen :: !(k <= input)
      {
        var prefix :| prefix in todo;
        if prefix <= input {
          ghost var order := seen + [prefix] + Listed(todo - {prefix});
          assert Traverses(order, byPrefix.Keys);
          FirstAfter(seen, prefix, Listed(todo - {prefix}), input);
          return Act([], byPrefix[prefix], Done);
        }
        todo := todo - {prefix};
        seen := seen + [prefix];
      }
      assert Traverses(seen, byPrefix.Keys);
      PrefixInOrder(seen, input);
      for i := 0 to |byRegex|
        invariant FirstRegex(byRegex, input) == FirstRegex(byRegex[i..], input)
      {
        if byRegex[i].matches(input) {
          return Act([], [byRegex[i].item], Done);
        }
        assert byRegex[i..][1..] == byRegex[i + 1..];
      }
      a := Act([], [], Failed(UNKNOWN_CODE));
    }
  }

  ghost function Listed(keys: set<string>): (order: seq<string>)
    ensures Traverses(order, keys)
  {
    if keys == {} then []
    else
      var k :| k in keys;
      [k] + Listed(keys - {k})
  }

  lemma {:induction false} FirstAfter(seen: seq<string>, prefix: string, rest: seq<string>, input: string)
    requires (forall k | k in seen :: !(k <= input)) && prefix <= input
    ensures FirstPrefix(seen + [prefix] + rest, input) == Some(prefix)
    decreases |seen|
  {
    var order := seen + [prefix] + rest;
    if seen == [] {
      assert order[0] == prefix;
    } else {
      assert seen[0] in seen && forall k | k in seen[1..] :: k in seen;
      assert order[0] == seen[0] && order[1..] == seen[1..] + [prefix] + rest;
      FirstAfter(seen[1..], prefix, rest, input);
    }
  }

  // ---- Precedence and determinism ------------------------------------------------------------------

  /** An exact code beats every prefix, any matching prefix beats every pattern, and the first registered pattern that
      matches wins over the later ones. */
  lemma {:induction false} Precedence(byCode: Routes, byPrefix: Routes, byRegex: seq<RegexRoute>, order: seq<string>, input: string)
    requires Traverses(order, byPrefix.Keys)
    ensures var a := Route(byCode, byPrefix, byRegex, order, input);
      if input in byCode then a == Act([], byCode[input], Done)
      else if exists k :: k in byPrefix && k <= input then
        exists k :: k in byPrefix && k <= input && a == Act([], byPrefix[k], Done)
      else if exists i :: 0 <= i < |byRegex| && byRegex[i].matches(input) then
        exists i :: 0 <= i < |byRegex| && byRegex[i].matches(input) && a == Act([], [byRegex[i].item], Done)
          && forall j | 0 <= j < i :: !byRegex[j].matches(input)
      else a == Act([], [], Failed(UNKNOWN_CODE))
  {
    PrefixInOrder(order, input);
    if input !in byCode {
      match FirstPrefix(order, input) {
        case Some(prefix) => assert prefix in byPrefix && prefix <= input;
        case None => FirstRegexIsFirst(byRegex, input);
      }
    }
  }

  lemma {:induction false} FirstRegexIsFirst(routes: seq<RegexRoute>, input: string)
    ensures var a := FirstRegex(routes, input);
      if exists i :: 0 <= i < |routes| && routes[i].matches(input) then
        exists i :: 0 <= i < |routes| && routes[i].matches(input) && a == Act([], [routes[i].item], Done)
          && forall j | 0 <= j < i :: !routes[j].matches(input)
      else a == Act([], [], Failed(UNKNOWN_CODE))
    decreases |routes|
  {
    if routes != [] {
      if routes[0].matches(input) {
        assert routes[0].matches(input);
      } else {
        var rest := routes[1..];
        FirstRegexIsFirst(rest, input);
        assert forall i | 1 <= i < |routes| :: routes[i] == rest[i - 1];
        if exists i :: 0 <= i < |rest| && rest[i].matches(input) {
          var i :| 0 <= i < |rest| && rest[i].matches(input) && FirstRegex(rest, input) == Act([], [rest[i].item], Done)
            && forall j | 0 <= j < i :: !rest[j].matches(input);
          assert routes[i + 1].matches(input);
        }
      }
    }
  }

  /** Prefixes of one another lead to the same items. */
  ghost predicate Consistent(byPrefix: Routes) {
    forall j, k | j in byPrefix && k in byPrefix && j <= k :: byPrefix[j] == byPrefix[k]
  }

  ghost predicate OrderIndependent(byCode: Routes, byPrefix: Routes, byRegex: seq<RegexRoute>) {
    forall o1, o2, input | Traverses(o1, byPrefix.Keys) && Traverses(o2, byPrefix.Keys) ::
      Route(byCode, byPrefix, byRegex, o1, input) == Route(byCode, byPrefix, byRegex, o2, input)
  }

  /** Routing does not depend on the order the map is traversed in exactly if no prefix of a registered prefix is
      registered with other items (whatever exact codes are registered besides). */
  lemma RoutingDeterminism(byCode: Routes, byPrefix: Routes, byRegex: seq<RegexRoute>)
    ensures OrderIndependent(byCode, byPrefix, byRegex) <==> Consistent(byPrefix)
  {
    if Consistent(byPrefix) {
      forall o1, o2, input | Traverses(o1, byPrefix.Keys) && Traverses(o2, byPrefix.Keys)
        ensures Route(byCode, byPrefix, byRegex, o1, input) == Route(byCode, byPrefix, byRegex, o2, input)
      {
        PrefixInOrder(o1, input);
        PrefixInOrder(o2, input);
        SameItems(byPrefix, FirstPrefix(o1, input), FirstPrefix(o2, input), input);
      }
    } else {
      var j, k :| j in byPrefix && k in byPrefix && j <= k && byPrefix[j] != byPrefix[k];
      var input := Beyond(byCode.Keys, k);
      var o1 := StartingAt(byPrefix.Keys, j, input);
      var o2 := StartingAt(byPrefix.Keys, k, input);
      assert Route(byCode, byPrefix, byRegex, o1, input) != Route(byCode, byPrefix, byRegex, o2, input);
    }
  }

  /** Some traversal finds a given matching prefix first. */
  lemma StartingAt(keys: set<string>, k: string, input: string) returns (order: seq<string>)
    requires k in keys && k <= input
    ensures Traverses(order, keys) && FirstPrefix(order, input) == Some(k)
  {
    order := [k] + Listed(keys);
  }

  /** Two prefixes of one input are prefixes of one another. */
  lemma SameItems(byPrefix: Routes, j: Option<string>, k: Option<string>, input: string)
    requires Consistent(byPrefix)
    requires j.Some? ==> j.value in byPrefix && j.value <= input
    requires k.Some? ==> k.value in byPrefix && k.value <= input
    ensures j.Some? && k.Some? ==> byPrefix[j.value] == byPrefix[k.value]
  {
    if j.Some? && k.Some? {
      if |j.value| <= |k.value| {
        assert j.value <= k.value;
      } else {
        assert k.value <= j.value;
      }
    }
  }

  /** Some input starts with `k` and is longer than every exact code. */
  lemma Beyond(codes: set<string>, k: string) returns (input: string)
    ensures k <= input && input !in codes
  {
    input := k + seq(Longest(codes) + 1, _ => '#');
    LongestBounds(codes);
  }

  ghost function Longest(codes: set<string>): nat {
    if codes == {} then 0
    else
      var c :| c in codes;
      var rest := Longest(codes - {c});
      if rest < |c| then |c| else rest
  }

  lemma {:induction false} LongestBounds(codes: set<string>)
    ensures forall c | c in codes :: |c| <= Longest(codes)
  {
    if codes != {} {
      var c :| c in codes && Longest(codes) == if Longest(codes - {c}) < |c| then |c| else Longest(codes - {c});
      LongestBounds(codes - {c});
      assert forall d | d in codes :: d == c || d in codes - {c};
    }
  }
}
