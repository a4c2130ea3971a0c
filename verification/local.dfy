/** `ussd/session.go` on values: the local copy of a session and its pending updates. */
module LocalSessions {
  import opened Values

  datatype Op = SetOp(name: string, value: Value) | DelOp(name: string)

  /** The contents of the three maps of one open session, whether or not two of them are one object. */
  datatype Local = Local(data: Data, toSet: Data, toDel: set<string>)

  /** A new local session: a given map is used for both `data` and `namesToSet`. */
  function Opened(init: Option<Data>): Local {
    match init
    case None => Local(map[], map[], {})
    case Some(d) => Local(d, d, {})
  }

  function DelLocal(l: Local, n: string): Local {
    Local(l.data - {n}, l.toSet - {n}, l.toDel + {n})
  }

  function SetLocal(l: Local, n: string, v: Value): Local {
    if v == Null then DelLocal(l, n) else Local(l.data[n := v], l.toSet[n := v], l.toDel - {n})
  }

  function Apply(l: Local, op: Op): Local {
    match op
    case SetOp(n, v) => SetLocal(l, n, v)
    case DelOp(n) => DelLocal(l, n)
  }

  function ApplyOps(l: Local, ops: seq<Op>): Local
    decreases |ops|
  {
    if ops == [] then l else ApplyOps(Apply(l, ops[0]), ops[1..])
  }

  /** Setting every name of a caller's map, as `UserInput` does with its extra data. */
  function SetAll(l: Local, d: Data): Local {
    Local(Patch(l.data, d), Patch(l.toSet, d), l.toDel - NonNull(d).Keys + (d.Keys - NonNull(d).Keys))
  }

  /** What `Get` answers: a name that is absent or holds nil reads as nil. */
  function View(l: Local): Data {
    NonNull(l.data)
  }

  /** The cache invariant, relative to the snapshot the session was opened (or last synced) with. */
  ghost predicate Coherent(base: Data, l: Local) {
    && (forall n | n in l.toSet :: n in l.data && l.data[n] == l.toSet[n])
    && l.toDel !! l.data.Keys
    && l.data == (base - l.toDel) + l.toSet
  }

  lemma SyncedCoherent(d: Data)
    ensures Coherent(d, Local(d, map[], {}))
  {
  }

  lemma ApplyCoherent(base: Data, l: Local, op: Op)
    requires Coherent(base, l)
    ensures Coherent(base, Apply(l, op))
    ensures l.data == l.toSet ==> Apply(l, op).data == Apply(l, op).toSet
  {
    var l' := Apply(l, op);
    assert l'.data == (base - l'.toDel) + l'.toSet;
  }

  /** Every sequence of updates keeps the cache coherent, and keeps `data` and `namesToSet` equal if they
      were equal to begin with (which is what one shared map amounts to). */
  lemma {:induction false} OpsCoherent(base: Data, l: Local, ops: seq<Op>)
    requires Coherent(base, l)
    ensures Coherent(base, ApplyOps(l, ops))
    ensures l.data == l.toSet ==> ApplyOps(l, ops).data == ApplyOps(l, ops).toSet
    decreases |ops|
  {
    if ops != [] {
      ApplyCoherent(base, l, ops[0]);
      OpsCoherent(base, Apply(l, ops[0]), ops[1..]);
    }
  }

  /** A session opened with a whole map, as long as it has not been synced: everything it shows is to be set. */
  ghost predicate Mirrored(l: Local) {
    l.toSet == l.data && l.toDel !! l.data.Keys
  }

  lemma {:induction false} OpsMirrored(l: Local, ops: seq<Op>)
    requires Mirrored(l)
    ensures Mirrored(ApplyOps(l, ops))
    decreases |ops|
  {
    if ops != [] {
      OpsMirrored(Apply(l, ops[0]), ops[1..]);
    }
  }

  lemma SetAllNothing(l: Local)
    ensures SetAll(l, map[]) == l
  {
    assert Patch(l.data, map[]) == l.data && Patch(l.toSet, map[]) == l.toSet;
  }

  /** One more name of the caller's map, in whatever order the map is traversed. */
  lemma SetAllStep(l: Local, d: Data, todo: set<string>, n: string)
    requires n in todo && todo <= d.Keys
    ensures SetAll(l, d - (todo - {n})) == SetLocal(SetAll(l, d - todo), n, d[n])
  {
    PatchStep(l.data, d, todo, n);
    PatchStep(l.toSet, d, todo, n);
    var before, after := d - todo, d - (todo - {n});
    assert after == before[n := d[n]];
    assert NonNull(after).Keys == if d[n] == Null then NonNull(before).Keys else NonNull(before).Keys + {n};
    assert after.Keys - NonNull(after).Keys ==
      if d[n] == Null then (before.Keys - NonNull(before).Keys) + {n} else before.Keys - NonNull(before).Keys;
    assert SetAll(l, after).toDel == SetLocal(SetAll(l, before), n, d[n]).toDel;
  }

  lemma SetAllCoherent(base: Data, l: Local, d: Data)
    requires Coherent(base, l)
    ensures Coherent(base, SetAll(l, d))
    ensures l.data == l.toSet ==> SetAll(l, d).data == SetAll(l, d).toSet
  {
    var l' := SetAll(l, d);
    assert l'.data == (base - l'.toDel) + l'.toSet;
  }

  /** Updates act on `data` alone as far as `Get` can tell: the pending maps never show. */
  lemma {:induction false} OpsDataOnly(l: Local, k: Local, ops: seq<Op>)
    requires l.data == k.data
    ensures ApplyOps(l, ops).data == ApplyOps(k, ops).data
    decreases |ops|
  {
    if ops != [] {
      OpsDataOnly(Apply(l, ops[0]), Apply(k, ops[0]), ops[1..]);
    }
  }

  /** The updates write none of the names. */
  ghost predicate Avoids(ops: seq<Op>, names: set<string>) {
    forall i | 0 <= i < |ops| :: ops[i].name !in names
  }

  lemma {:induction false} OpsAvoid(l: Local, ops: seq<Op>, names: set<string>, n: string)
    requires Avoids(ops, names) && n in names
    ensures Lookup(ApplyOps(l, ops).data, n) == Lookup(l.data, n)
    decreases |ops|
  {
    if ops != [] {
      assert ops[0].name != n;
      OpsAvoid(Apply(l, ops[0]), ops[1..], names, n);
    }
  }

  // ---- What updates do, read off their list --------------------------------------------------------

  /** The value that the last of the updates naming `n` gives it: nil for a delete. */
  function LastUpdate(ops: seq<Op>, n: string): Option<Value>
    decreases |ops|
  {
    if ops == [] then None
    else
      var last := ops[|ops| - 1];
      if last.name == n then Some(if last.SetOp? then last.value else Null)
      else LastUpdate(ops[..|ops| - 1], n)
  }

  lemma {:induction false} LastUpdateFirst(ops: seq<Op>, n: string)
    requires ops != []
    ensures LastUpdate(ops, n) ==
      if LastUpdate(ops[1..], n).Some? then LastUpdate(ops[1..], n) else LastUpdate([ops[0]], n)
    decreases |ops|
  {
    assert [ops[0]][..0] == [];
    if |ops| > 1 {
      var front := ops[..|ops| - 1];
      assert ops[1..][..|ops| - 2] == front[1..];
      LastUpdateFirst(front, n);
    } else {
      assert ops == [ops[0]] && ops[1..] == [];
    }
  }

  /** Whatever the updates, each name ends up as the last of them says, in the data and in the pending maps, and as it
      was if none names it. */
  lemma {:induction false} UpdatesTakeEffect(l: Local, ops: seq<Op>, n: string)
    ensures var l' := ApplyOps(l, ops);
      match LastUpdate(ops, n)
      case None =>
        && (n in l'.data <==> n in l.data) && Lookup(l'.data, n) == Lookup(l.data, n)
        && (n in l'.toSet <==> n in l.toSet) && Lookup(l'.toSet, n) == Lookup(l.toSet, n)
        && (n in l'.toDel <==> n in l.toDel)
      case Some(v) =>
        && (n in l'.data <==> v != Null) && Lookup(l'.data, n) == v
        && (n in l'.toSet <==> v != Null) && Lookup(l'.toSet, n) == v
        && (n in l'.toDel <==> v == Null)
    decreases |ops|
  {
    if ops != [] {
      LastUpdateFirst(ops, n);
      assert [ops[0]][..0] == [];
      UpdatesTakeEffect(Apply(l, ops[0]), ops[1..], n);
    }
  }

  function NamesOf(ops: seq<Op>): set<string> {
    set i | 0 <= i < |ops| :: ops[i].name
  }

  /** What a name reads as after the updates, if `view` is what the session showed before. */
  function Reads(view: Data, ops: seq<Op>, n: string): Value {
    match LastUpdate(ops, n) case Some(v) => v case None => Lookup(view, n)
  }

  /** Everything the session shows after the updates. */
  function Updated(view: Data, ops: seq<Op>): Data {
    map n | n in view.Keys + NamesOf(ops) && Reads(view, ops, n) != Null :: Reads(view, ops, n)
  }

  lemma {:induction false} UpdatedNames(ops: seq<Op>, n: string)
    requires LastUpdate(ops, n).Some?
    ensures n in NamesOf(ops)
    decreases |ops|
  {
    var front := ops[..|ops| - 1];
    if ops[|ops| - 1].name != n {
      UpdatedNames(front, n);
      assert forall i | 0 <= i < |front| :: front[i] == ops[i];
    }
  }

  lemma UpdatedReads(view: Data, ops: seq<Op>, n: string)
    ensures Lookup(Updated(view, ops), n) == Reads(view, ops, n)
  {
    if LastUpdate(ops, n).Some? {
      UpdatedNames(ops, n);
    }
  }

  /** A session shows exactly what its updates say. */
  lemma ViewUpdated(l: Local, ops: seq<Op>)
    ensures View(ApplyOps(l, ops)) == Updated(View(l), ops)
  {
    forall n
      ensures Lookup(View(ApplyOps(l, ops)), n) == Lookup(Updated(View(l), ops), n)
    {
      UpdatesTakeEffect(l, ops, n);
      UpdatedReads(View(l), ops, n);
    }
    SameReadings(View(ApplyOps(l, ops)), Updated(View(l), ops));
  }

  lemma SameReadings(a: Data, b: Data)
    requires NoNulls(a) && NoNulls(b) && forall n :: Lookup(a, n) == Lookup(b, n)
    ensures a == b
  {
    forall n
      ensures n in a <==> n in b
    {
      assert Lookup(a, n) == Lookup(b, n);
    }
    forall n | n in a
      ensures a[n] == b[n]
    {
      assert Lookup(a, n) == Lookup(b, n);
    }
  }

  /** The caller's extra data shows as it was given, nil for absent. */
  lemma ViewSetAll(l: Local, d: Data)
    ensures View(SetAll(l, d)) == Patch(View(l), d)
  {
    SameMap(View(SetAll(l, d)), Patch(View(l), d));
  }
}
