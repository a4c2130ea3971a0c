/** The two session stores as transitions on their contents: what each operation leaves stored, and what
    it hands to the session, under every outcome of the network for the REST one. */
module Stores {
  import opened Values
  import opened LocalSessions

  datatype Backend = InMem | Rest

  /** What became of one REST exchange. The in-memory store never looks at it. */
  datatype Net = Delivered | RequestLost | ReplyLost

  type Store = map<string, Data>

  function StoredOr(store: Store, id: string, default: Data): Data {
    if id in store then store[id] else default
  }

  // ---- New ----------------------------------------------------------------------------------------

  function NewStore(be: Backend, store: Store, id: string, init: Option<Data>, net: Net): Store {
    if be.InMem? || net.RequestLost? then store
    else store[id := match init case None => map[] case Some(d) => NonNull(JsonData(d))]
  }

  /** The REST client decodes the reply over the caller's own map before it opens the session with it. */
  function NewLocal(be: Backend, init: Option<Data>, net: Net): Option<Local> {
    if be.InMem? then Some(Opened(init))
    else if net != Delivered then None
    else Some(Opened(match init case None => None case Some(d) => Some(d + NonNull(JsonData(d)))))
  }

  // ---- Get ----------------------------------------------------------------------------------------

  function GetLocal(be: Backend, store: Store, id: string, net: Net): Option<Local> {
    if id !in store || (be.Rest? && net != Delivered) then None
    else Some(Opened(Some(if be.InMem? then store[id] else JsonData(store[id]))))
  }

  /** An in-memory session that came from `Get` works on the store's own map: its updates are stored at once. */
  function Leave(be: Backend, store: Store, id: string, l: Local): Store {
    if be.InMem? then store[id := l.data] else store
  }

  // ---- Sync ---------------------------------------------------------------------------------------

  /** The REST client writes a nil for every deleted name into the map of values to set. */
  function Tombstoned(l: Local): Data {
    l.toSet + map n | n in l.toDel :: Null
  }

  function SyncStore(be: Backend, store: Store, id: string, l: Local, net: Net): Store {
    match be
    case InMem => store[id := (StoredOr(store, id, map[]) - l.toDel) + l.toSet]
    case Rest =>
      if net.RequestLost? || id !in store then store
      else store[id := Patch(store[id], JsonData(Tombstoned(l)))]
  }

  function DelStore(be: Backend, store: Store, id: string, net: Net): Store {
    if be.Rest? && net.RequestLost? then store else store - {id}
  }

  /** What the session's own data map holds after `Sync`, when it is also the map of values to set. The REST
      client has by then put its nulls there, and decoded the reply (if it got one) over it. */
  function SharedAfterSync(be: Backend, store: Store, id: string, l: Local, net: Net): Data {
    if be.InMem? then l.data
    else if net != Delivered || id !in store then Tombstoned(l)
    else Tombstoned(l) + JsonData(SyncStore(be, store, id, l, net)[id])
  }

  // ---- Sync agreement -----------------------------------------------------------------------------

  /** The delta means the same to both stores. */
  ghost predicate Portable(l: Local) {
    && l.toSet.Keys !! l.toDel
    && forall n | n in l.toSet :: l.toSet[n] != Null && Json(l.toSet[n]) == l.toSet[n]
  }

  ghost predicate SyncsAgree(l: Local) {
    forall base: Data, id: string ::
      SyncStore(InMem, map[id := base], id, l, Delivered) == SyncStore(Rest, map[id := base], id, l, Delivered)
  }

  /** The two ways of applying a delta leave the same map, whatever is stored, exactly when no name is both
      set and deleted and every value set survives JSON and is not nil. */
  lemma SyncAgreement(l: Local)
    ensures SyncsAgree(l) <==> Portable(l)
  {
    if Portable(l) {
      forall base: Data, id: string
        ensures SyncStore(InMem, map[id := base], id, l, Delivered) == SyncStore(Rest, map[id := base], id, l, Delivered)
      {
        PortableDelta(base, l);
      }
    } else {
      var n :| n in l.toSet && (n in l.toDel || l.toSet[n] == Null || Json(l.toSet[n]) != l.toSet[n]);
      var one: Store := map["" := map[]];
      var mem, rest := SyncStore(InMem, one, "", l, Delivered), SyncStore(Rest, one, "", l, Delivered);
      assert n in JsonData(Tombstoned(l));
      assert mem[""][n] == l.toSet[n];
      assert n !in rest[""] || rest[""][n] != l.toSet[n];
      assert mem[""] != rest[""];
    }
  }

  lemma PortableDelta(base: Data, l: Local)
    requires Portable(l)
    ensures (base - l.toDel) + l.toSet == Patch(base, JsonData(Tombstoned(l)))
  {
    var t := Tombstoned(l);
    assert forall n | n in t :: t[n] == if n in l.toDel then Null else l.toSet[n];
    assert JsonData(t) == t;
    assert NonNull(t) == l.toSet;
    assert t.Keys == l.toSet.Keys + l.toDel;
    assert (base - l.toDel) + l.toSet == (base - t.Keys) + l.toSet;
  }

  // ---- Sync publishes the local view --------------------------------------------------------------

  /** A session that holds the whole stored entry publishes exactly its own data; in memory and over REST. */
  lemma SyncPublishes(be: Backend, store: Store, id: string, base: Data, l: Local, net: Net)
    requires id in store && store[id] == base && Coherent(base, l)
    requires be.Rest? ==> Portable(l) && !net.RequestLost?
    ensures SyncStore(be, store, id, l, net) == store[id := l.data]
  {
    if be.Rest? {
      PortableDelta(base, l);
    }
  }

  /** A new in-memory session publishes what it shows if and only if every other name the store already had
      under that id (and that holds a value) was deleted locally or set locally. */
  lemma NewSyncPublishes(store: Store, id: string, l: Local, net: Net)
    requires Coherent(l.data, l) && l.data == l.toSet
    ensures NonNull(SyncStore(InMem, store, id, l, net)[id]) == View(l)
      <==> NonNull(StoredOr(store, id, map[])).Keys <= l.toSet.Keys + l.toDel
  {
    var old_ := StoredOr(store, id, map[]);
    var new_ := (old_ - l.toDel) + l.toSet;
    if NonNull(old_).Keys <= l.toSet.Keys + l.toDel {
      assert NonNull(new_) == View(l);
    } else {
      var n :| n in NonNull(old_) && n !in l.toSet.Keys + l.toDel;
      assert n in NonNull(new_) && n !in View(l);
    }
  }

  /** A REST session with shared maps shows, after a delivered `Sync`, exactly what is stored, even if someone
      else changed the entry in the meantime: the reply was decoded over its own map. */
  lemma SharedSyncCatchesUp(store: Store, id: string, base: Data, l: Local)
    requires id in store && NoNulls(store[id]) && Coherent(base, l) && l.data == l.toSet
    ensures NonNull(SharedAfterSync(Rest, store, id, l, Delivered))
         == JsonData(SyncStore(Rest, store, id, l, Delivered)[id])
  {
    var t, stored := Tombstoned(l), SyncStore(Rest, store, id, l, Delivered)[id];
    forall n
      ensures n in t && t[n] != Null ==> n in stored
      ensures n in stored ==> stored[n] != Null && Json(stored[n]) != Null
    {
      assert n in t && t[n] != Null ==> n in JsonData(t) && JsonData(t)[n] != Null;
    }
    SameMap(NonNull(t + JsonData(stored)), JsonData(stored));
  }

  // ---- Whole lives of one open session ------------------------------------------------------------

  /** What is done with an open session: one update, or `Sync` with its exchange. */
  datatype Move = Update(op: Op) | Push(net: Net)

  /** An open session and what is stored. `base` is its snapshot; `shared` says that `data` and `namesToSet` are still
      one map, and `through` that `data` is the stored map itself. */
  datatype Holding = Holding(store: Store, base: Data, l: Local, shared: bool, through: bool)

  function Moved(be: Backend, id: string, h: Holding, m: Move): Holding {
    match m
    case Update(op) =>
      var l := Apply(h.l, op);
      h.(l := l, store := if h.through then h.store[id := l.data] else h.store)
    case Push(net) =>
      var data := if h.shared then SharedAfterSync(be, h.store, id, h.l, net) else h.l.data;
      Holding(SyncStore(be, h.store, id, h.l, net), data, Local(data, map[], {}), false, h.through)
  }

  function AfterMoves(be: Backend, id: string, h: Holding, moves: seq<Move>): Holding
    decreases |moves|
  {
    if moves == [] then h else AfterMoves(be, id, Moved(be, id, h, moves[0]), moves[1..])
  }

  /** Every sequence of updates and syncs, whatever becomes of the exchanges, keeps the cache coherent with the
      snapshot of the last sync. */
  lemma {:induction false} MovesCoherent(be: Backend, id: string, h: Holding, moves: seq<Move>)
    requires Coherent(h.base, h.l)
    ensures var h' := AfterMoves(be, id, h, moves); Coherent(h'.base, h'.l)
    decreases |moves|
  {
    if moves != [] {
      if moves[0].Update? {
        ApplyCoherent(h.base, h.l, moves[0].op);
      } else {
        SyncedCoherent(Moved(be, id, h, moves[0]).base);
      }
      MovesCoherent(be, id, Moved(be, id, h, moves[0]), moves[1..]);
    }
  }

  /** The snapshot is what is stored, and nobody else writes the entry. */
  ghost predicate Exclusive(be: Backend, id: string, h: Holding) {
    && Coherent(h.base, h.l) && id in h.store && (h.shared ==> h.l.data == h.l.toSet)
    && match be
      case InMem => h.store[id] == if h.through then h.l.data else h.base
      case Rest => !h.through && h.store[id] == NonNull(h.base) && PlainData(h.store[id]) && PlainData(h.l.toSet)
  }

  /** The request arrives and carries only values that JSON keeps. */
  predicate Carried(be: Backend, m: Move) {
    be.Rest? ==> if m.Update? then m.op.SetOp? ==> Plain(m.op.value) else !m.net.RequestLost?
  }

  lemma PushPublishesInMem(id: string, h: Holding, net: Net)
    requires Exclusive(InMem, id, h)
    ensures var h' := Moved(InMem, id, h, Push(net));
      Exclusive(InMem, id, h') && NonNull(h'.store[id]) == View(h.l) == View(h'.l)
  {
    assert h.l.data == (h.base - h.l.toDel) + h.l.toSet;
    assert h.l.data == (h.l.data - h.l.toDel) + h.l.toSet;
  }

  lemma PushPublishesRest(id: string, h: Holding, net: Net)
    requires Exclusive(Rest, id, h) && !net.RequestLost?
    ensures var h' := Moved(Rest, id, h, Push(net));
      Exclusive(Rest, id, h') && NonNull(h'.store[id]) == View(h.l) == View(h'.l)
  {
    var stored := SyncStore(Rest, h.store, id, h.l, net)[id];
    RestPatchIsView(h.store[id], h.base, h.l);
    assert stored == View(h.l);
    NoNullsNonNull(stored);
    PlainJson(stored);
    var h' := Moved(Rest, id, h, Push(net));
    if h.shared {
      SharedShows(h.l, stored, h'.base);
    }
    SyncedCoherent(h'.base);
  }

  lemma RestPatchIsView(stored: Data, base: Data, l: Local)
    requires Coherent(base, l) && stored == NonNull(base) && PlainData(l.toSet)
    ensures Patch(stored, JsonData(Tombstoned(l))) == View(l)
    ensures PlainData(stored) ==> PlainData(View(l))
  {
    var t := Tombstoned(l);
    PlainJson(t);
    assert forall n | n in t :: t[n] == if n in l.toDel then Null else l.toSet[n];
    SameMap(Patch(stored, t), View(l));
  }

  /** What the decoded reply shows in a map that holds the tombstoned delta. */
  lemma SharedShows(l: Local, stored: Data, data: Data)
    requires l.data == l.toSet && l.toDel !! l.data.Keys && stored == View(l)
    requires data == Tombstoned(l) || data == Tombstoned(l) + stored
    ensures NonNull(data) == stored
  {
    SameMap(NonNull(data), stored);
  }

  /** Whatever sequence of updates and syncs a session makes, as long as the requests arrive and nobody else writes its
      entry: after every sync the stored entry answers every name as the session does. */
  lemma {:induction false} MovesPublish(be: Backend, id: string, h: Holding, moves: seq<Move>)
    requires Exclusive(be, id, h) && forall i | 0 <= i < |moves| :: Carried(be, moves[i])
    ensures var h' := AfterMoves(be, id, h, moves);
      Exclusive(be, id, h') && (moves != [] && moves[|moves| - 1].Push? ==> NonNull(h'.store[id]) == View(h'.l))
    decreases |moves|
  {
    if moves != [] {
      if moves[0].Update? {
        ApplyCoherent(h.base, h.l, moves[0].op);
      } else {
        match be {
          case InMem => PushPublishesInMem(id, h, moves[0].net);
          case Rest => PushPublishesRest(id, h, moves[0].net);
        }
      }
      MovesPublish(be, id, Moved(be, id, h, moves[0]), moves[1..]);
    }
  }

  /** Sessions from `Get` start out that way, on either store. */
  lemma GetIsExclusive(be: Backend, store: Store, id: string)
    requires id in store && (be.Rest? ==> PlainData(store[id]) && NoNulls(store[id]))
    ensures var l := GetLocal(be, store, id, Delivered).value;
      Exclusive(be, id, Holding(store, l.data, l, true, be.InMem?))
  {
    if be.Rest? {
      PlainJson(store[id]);
      NoNullsNonNull(store[id]);
    }
  }
}
