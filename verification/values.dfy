/** Session values as Go's `interface{}` holds them, and the map algebra the stores are built from. */
module Values {

  datatype Option<+T> = None | Some(value: T)

  /** `StrList` is a Go `[]string`; `AnyList` is the `[]interface{}` that JSON decoding makes of it. */
  datatype Value =
    | Null
    | Bool(b: bool)
    | Str(s: string)
    | StrList(items: seq<string>)
    | AnyList(items: seq<string>)

  type Data = map<string, Value>

  /** The value that comes back after being JSON-encoded and decoded into an `interface{}`. */
  function Json(v: Value): Value {
    match v
    case StrList(items) => AnyList(items)
    case _ => v
  }

  function JsonData(d: Data): Data {
    map n | n in d :: Json(d[n])
  }

  predicate Plain(v: Value) {
    v.Null? || v.Bool? || v.Str?
  }

  ghost predicate PlainData(d: Data) {
    forall n | n in d :: Plain(d[n])
  }

  ghost predicate NoNulls(d: Data) {
    forall n | n in d :: d[n] != Null
  }

  function NonNull(d: Data): Data {
    map n | n in d && d[n] != Null :: d[n]
  }

  function Lookup(d: Data, n: string): Value {
    if n in d then d[n] else Null
  }

  /** One null-tombstone patch: a null removes the name, anything else sets it. */
  function Patch(base: Data, patch: Data): Data {
    (base - patch.Keys) + NonNull(patch)
  }

  /** The same patch for one name, as one turn of a loop over the patch applies it. */
  function PatchOne(base: Data, n: string, v: Value): Data {
    if v == Null then base - {n} else base[n := v]
  }

  lemma SameMap<K, V>(a: map<K, V>, b: map<K, V>)
    requires forall k :: k in a <==> k in b
    requires forall k | k in a :: a[k] == b[k]
    ensures a == b
  {
  }

  lemma Regroup<T>(a: seq<T>, b: seq<T>, c: seq<T>)
    ensures (a + b) + c == a + (b + c)
  {
  }

  lemma NothingAdded<T>(a: seq<T>)
    ensures a + [] == a && [] + a == a
  {
  }

  /** Whatever name a traversal picks next, applying it to the patch done so far is the larger patch. */
  lemma PatchStep(base: Data, patch: Data, todo: set<string>, n: string)
    requires n in todo && todo <= patch.Keys
    ensures Patch(base, patch - (todo - {n})) == PatchOne(Patch(base, patch - todo), n, patch[n])
  {
    var before, after := patch - todo, patch - (todo - {n});
    assert after == before[n := patch[n]];
    assert after.Keys == before.Keys + {n};
  }

  /** Two successive patches are one patch: the second laid over the first, null as tombstone. */
  lemma PatchCompose(base: Data, first: Data, second: Data)
    ensures Patch(Patch(base, first), second) == Patch(base, first + second)
  {
    var l, r := Patch(Patch(base, first), second), Patch(base, first + second);
    assert l.Keys == r.Keys;
    assert forall n | n in r :: l[n] == r[n];
  }

  /** What every name reads as after a patch. */
  lemma PatchReads(base: Data, patch: Data, n: string)
    ensures Lookup(Patch(base, patch), n) == if n in patch then patch[n] else Lookup(base, n)
  {
  }

  lemma PlainJson(d: Data)
    requires PlainData(d)
    ensures JsonData(d) == d
  {
  }

  lemma NoNullsNonNull(d: Data)
    requires NoNulls(d)
    ensures NonNull(d) == d
  {
  }
}
