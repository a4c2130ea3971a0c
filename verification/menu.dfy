/** `strconv.ParseInt(s, 10, 64)` and the decimal numbers `fmt` prints. */
module Decimal {
  import opened Values

  const TWO_TO_THE_63: int := 0x8000_0000_0000_0000
  const TWO_TO_THE_64: int := 0x1_0000_0000_0000_0000

  predicate IsDigit(c: char) {
    '0' <= c <= '9'
  }

  function DigitValue(c: char): nat
    requires IsDigit(c)
  {
    c as nat - '0' as nat
  }

  function Digit(d: nat): char
    requires d < 10
  {
    ('0' as nat + d) as char
  }

  predicate AllDigits(s: string) {
    forall i | 0 <= i < |s| :: IsDigit(s[i])
  }

  predicate IsNumeral(s: string) {
    s != "" && AllDigits(s)
  }

  /** The number a string of digits denotes. */
  function Number(s: string): nat
    requires AllDigits(s)
  {
    if s == "" then 0 else 10 * Number(s[..|s| - 1]) + DigitValue(s[|s| - 1])
  }

  /** `%d` of a number that is not negative. */
  function Print(n: nat): string {
    if n < 10 then [Digit(n)] else Print(n / 10) + [Digit(n % 10)]
  }

  /** The digit loop of an unsigned 64-bit parse: it gives up at the first character that is no digit and as soon as
      the value would no longer fit. */
  function ParseDigits(s: string, n: nat): Option<nat>
    decreases |s|
  {
    if s == "" then Some(n)
    else if !IsDigit(s[0]) then None
    else if n > (TWO_TO_THE_64 - 1) / 10 then None
    else if 10 * n + DigitValue(s[0]) >= TWO_TO_THE_64 then None
    else ParseDigits(s[1..], 10 * n + DigitValue(s[0]))
  }

  function ParseInt(s: string): Option<int> {
    if s == "" then None
    else
      var digits := if s[0] == '+' || s[0] == '-' then s[1..] else s;
      if digits == "" then None
      else
        match ParseDigits(digits, 0)
        case None => None
        case Some(n) =>
          var signed := if s[0] == '-' then -(n as int) else n as int;
          if -TWO_TO_THE_63 <= signed < TWO_TO_THE_63 then Some(signed) else None
  }

  // ---- What is parsed is what was written ----------------------------------------------------------

  lemma {:induction false} NumberOfPrefix(s: string, t: string)
    requires AllDigits(s)
    requires AllDigits(t)
    ensures Number(s) <= Number(s + t)
    decreases |t|
  {
    if t == "" {
      assert s + t == s;
    } else {
      var t' := t[..|t| - 1];
      assert (s + t)[..|s + t| - 1] == s + t';
      NumberOfPrefix(s, t');
    }
  }

  /** The loop, having read `done`, reads `s`: it succeeds exactly on digits whose number fits in 64 bits. */
  lemma {:induction false} ParseDigitsIs(done: string, s: string)
    requires AllDigits(done)
    requires Number(done) < TWO_TO_THE_64
    ensures ParseDigits(s, Number(done)) ==
      if AllDigits(s) && Number(done + s) < TWO_TO_THE_64 then Some(Number(done + s)) else None
    decreases |s|
  {
    if s == "" {
      assert done + s == done;
    } else if IsDigit(s[0]) {
      var more := done + [s[0]];
      assert more[..|more| - 1] == done;
      assert AllDigits(s) <==> AllDigits(s[1..]) by {
        assert s == [s[0]] + s[1..];
      }
      assert Number(more) == 10 * Number(done) + DigitValue(s[0]);
      assert more + s[1..] == done + s;
      if Number(more) < TWO_TO_THE_64 {
        ParseDigitsIs(more, s[1..]);
      } else if AllDigits(s) {
        NumberOfPrefix(more, s[1..]);
      }
    }
  }

  /** A positive result comes from decimal digits, with at most a plus sign before them. */
  lemma ParseIntPositive(s: string, k: int)
    requires k >= 1
    ensures ParseInt(s) == Some(k) <==>
      k < TWO_TO_THE_63
      && var digits := if s != "" && s[0] == '+' then s[1..] else s;
        IsNumeral(digits) && Number(digits) == k
  {
    if s != "" {
      var digits := if s[0] == '+' || s[0] == '-' then s[1..] else s;
      ParseDigitsIs("", digits);
      assert "" + digits == digits;
    }
  }

  /** The printed number has that value, and no leading zero. */
  lemma {:induction false} PrintIsNumeral(n: nat)
    ensures IsNumeral(Print(n)) && Number(Print(n)) == n
    ensures n > 0 ==> Print(n)[0] != '0'
  {
    if n >= 10 {
      PrintIsNumeral(n / 10);
      assert Print(n)[..|Print(n)| - 1] == Print(n / 10);
    } else {
      assert Print(n)[..0] == "";
    }
  }

  lemma ParsePrint(k: nat)
    requires 1 <= k < TWO_TO_THE_63
    ensures ParseInt(Print(k)) == Some(k)
  {
    PrintIsNumeral(k);
    ParseIntPositive(Print(k), k);
  }
}

/** `ussd/item-menu.go`. */
module Menus {
  import opened Values
  import opened LocalSessions
  import opened Items
  import opened Decimal

  datatype MenuOption = MenuOption(caption: string, nextItems: seq<Item>)

  function Line(n: nat, caption: string): string {
    "\n" + Print(n) + ". " + caption
  }

  function Page(title: string, options: seq<MenuOption>): string {
    if options == [] then title
    else Page(title, options[..|options| - 1]) + Line(|options|, options[|options| - 1].caption)
  }

  /** The number of the option an input chooses; none if it is to be shown the menu again. */
  function Choice(options: seq<MenuOption>, input: string): Option<nat> {
    match ParseInt(input)
    case None => None
    case Some(n) => if 1 <= n <= |options| then Some(n) else None
  }

  const NOT_YET_IMPLEMENTED := "not yet implemented"

  function Choose(options: seq<MenuOption>, me: Item, input: string): Act {
    match Choice(options, input)
    case None => Act([], [me], Done)
    case Some(n) =>
      if options[n - 1].nextItems == [] then Act([], [me], Failed(NOT_YET_IMPLEMENTED))
      else Act([], options[n - 1].nextItems, Done)
  }

  class Menu {
    const item: Item
    const title: string
    var options: seq<MenuOption>
    var rendered: bool

    constructor (items: Registry, id: string, title: string)
      modifies items
      ensures item.id == id && item.kind == PromptItem && this.title == title && options == []
      ensures items.itemByID == old(items.itemByID)[id := item]
    {
      var made := items.Register(id, PromptItem);
      item, this.title, options, rendered := made, title, [], false;
    }

    method With(caption: string, nextItems: seq<Item>) returns (m: Menu)
      modifies this`options
      ensures m == this && options == old(options) + [MenuOption(caption, nextItems)]
    {
      options := options + [MenuOption(caption, nextItems)];
      m := this;
    }

    method Render() returns (page: string)
      modifies this`rendered
      ensures page == Page(title, options)
    {
      if !rendered {
        rendered := true;
      }
      page := title;
      for n := 0 to |options|
        invariant page == Page(title, options[..n])
      {
        assert options[..n + 1][..n] == options[..n];
        page := page + ("\n" + Print(n + 1) + ". " + options[n].caption);
      }
      assert options[..|options|] == options;
    }

    /** Choosing an option that leads nowhere is an error, which repeats the menu. */
    method Process(input: string) returns (a: Act)
      ensures a == Choose(options, item, input)
    {
      var i64 := ParseInt(input);
      if i64.Some? && i64.value >= 1 && i64.value <= |options| {
        var nextItems := options[i64.value - 1].nextItems;
        if |nextItems| == 0 {
          return Act([], [item], Failed(NOT_YET_IMPLEMENTED));
        }
        return Act([], nextItems, Done);
      }
      a := Act([], [item], Done);
    }
  }

  /** The page up to an option is a beginning of the whole page. */
  lemma {:induction false} PagePrefix(title: string, options: seq<MenuOption>, k: nat)
    requires k <= |options|
    ensures Page(title, options[..k]) <= Page(title, options)
    decreases |options|
  {
    if k < |options| {
      var shorter := options[..|options| - 1];
      PagePrefix(title, shorter, k);
      assert shorter[..k] == options[..k];
    } else {
      assert options[..k] == options;
    }
  }

  /** The page shows, right after everything printed before it, the line of option `k`; and the number at the start
      of that line, typed in, chooses that option. */
  lemma PrintedNumberChooses(title: string, options: seq<MenuOption>, k: nat)
    requires 1 <= k <= |options| < TWO_TO_THE_63
    ensures Page(title, options[..k - 1]) + "\n" + Print(k) + ". " + options[k - 1].caption <= Page(title, options)
    ensures Choice(options, Print(k)) == Some(k)
  {
    PageReads(title, options, k);
    PagePrefix(title, options, k);
    ParsePrint(k);
  }

  /** The whole page: the title, and for each option in order a new line with its number, a point and its caption. */
  lemma PageReads(title: string, options: seq<MenuOption>, k: nat)
    requires 1 <= k <= |options|
    ensures Page(title, []) == title
    ensures Page(title, options[..k]) == Page(title, options[..k - 1]) + "\n" + Print(k) + ". " + options[k - 1].caption
  {
    assert options[..k][..k - 1] == options[..k - 1];
    var before := Page(title, options[..k - 1]);
    assert before + ("\n" + Print(k) + ". " + options[k - 1].caption) == before + "\n" + Print(k) + ". " + options[k - 1].caption;
  }

  /** An input chooses option `k` exactly if it is a decimal numeral, perhaps after a plus sign and with leading
      zeros, of value `k`, and then leads to that option's items (or is rejected if it has none); every other input
      gets the menu again, without an error. Never is the session touched. */
  lemma ChoiceExactly(options: seq<MenuOption>, me: Item, input: string, k: nat)
    requires |options| < TWO_TO_THE_63
    ensures Choice(options, input) == Some(k) <==>
      1 <= k <= |options|
      && var digits := if input != "" && input[0] == '+' then input[1..] else input;
        IsNumeral(digits) && Number(digits) == k
    ensures Choice(options, input) == Some(k) ==> var a := Choose(options, me, input);
      a == if options[k - 1].nextItems == [] then Act([], [me], Failed("not yet implemented"))
           else Act([], options[k - 1].nextItems, Done)
    ensures Choice(options, input) == None ==> Choose(options, me, input) == Act([], [me], Done)
    ensures Choose(options, me, input).ops == []
  {
    if k >= 1 {
      ParseIntPositive(input, k);
    }
  }
}
