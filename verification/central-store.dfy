/** A Go map of session data: a heap object, so that two holders of it see each other's updates. */
module GoMaps {
  import opened Values

  class GoMap {
    var m: Data

    constructor (m: Data)
      ensures this.m == m
    {
      this.m := m;
    }
  }

  /** Reading from a map that may be nil. */
  function InMap(g: GoMap?): Data
    reads g
  {
    if g == null then map[] else g.m
  }

  /** `delete` of a set of names from a map in place, in no particular order. */
  method DeleteAll(g: GoMap, names: set<string>)
    modifies g
    ensures g.m == old(g.m) - names
  {
    var todo := names;
    while todo != {}
      invariant todo <= names
      invariant g.m == old(g.m) - (names - todo)
    {
      var n :| n in todo;
      g.m := g.m - {n};
      todo := todo - {n};
    }
  }
}

/** `rest-sessions/main.go`: the central store behind its four HTTP handlers. */
module CentralStore {
  import opened Values
  import opened GoMaps

  /** A session as the store keeps it and as it goes over the wire (`data` is omitted when it is empty). */
  datatype Record = Record(id: string, data: Data, start: Option<nat>, last: Option<nat>)

  datatype Body = Body(id: string, data: Option<Data>, start: Option<nat>, last: Option<nat>)

  datatype Request =
    | Post(id: string, body: Body, now: nat)
    | Fetch(id: string, names: seq<string>)
    | Put(id: string, body: Body, now: nat)
    | Delete(id: string)

  datatype Reply = Session(body: Body) | BadRequest | NotFound | Empty

  type Records = map<string, Record>

  function Encode(r: Record): Body {
    Body(r.id, if r.data == map[] then None else Some(JsonData(r.data)), r.start, r.last)
  }

  function DataOf(b: Body): Data {
    match b.data case None => map[] case Some(d) => d
  }

  /** A body that names another session, or that sets the times, is refused. */
  predicate Refused(id: string, b: Body) {
    (b.id != "" && b.id != id) || b.start.Some? || b.last.Some?
  }

  function Select(d: Data, names: seq<string>): Data {
    map n | n in d && n in names :: d[n]
  }

  function Handle(st: Records, req: Request): (Records, Reply) {
    if req.id == "" then (st, BadRequest)
    else
      match req
      case Post(id, body, now) =>
        if Refused(id, body) then (st, BadRequest)
        else
          var r := Record(id, NonNull(DataOf(body)), Some(now), Some(now));
          (st[id := r], Session(Encode(r)))
      case Fetch(id, names) =>
        if id !in st then (st, NotFound)
        else if names == [] then (st, Session(Encode(st[id])))
        else (st, Session(Encode(st[id].(data := Select(st[id].data, names)))))
      case Put(id, body, now) =>
        if id !in st then (st, NotFound)
        else if Refused(id, body) then (st, BadRequest)
        else
          var r := st[id].(data := Patch(st[id].data, DataOf(body)), last := Some(now));
          (st[id := r], Session(Encode(r)))
      case Delete(id) => (st - {id}, Empty)
  }

  function DataIn(st: Records): map<string, Data> {
    map k | k in st :: st[k].data
  }

  // ---- The store as the handlers update it in place ------------------------------------------------

  datatype Stored = Stored(id: string, data: GoMap?, start: Option<nat>, last: Option<nat>)

  /** The loop of `handleUpdSession` over the names of an update, in any order. A nil map is replaced on demand. */
  method Update(base: GoMap?, upd: Data) returns (data: GoMap?)
    modifies base
    ensures base != null ==> data == base
    ensures base == null ==> data == null || fresh(data)
    ensures InMap(data) == Patch(old(InMap(base)), upd)
  {
    data := base;
    var todo := upd.Keys;
    assert upd - todo == map[];
    while todo != {}
      invariant todo <= upd.Keys
      invariant base != null ==> data == base
      invariant base == null ==> data == null || fresh(data)
      invariant InMap(data) == Patch(old(InMap(base)), upd - todo)
    {
      var n :| n in todo;
      PatchStep(old(InMap(base)), upd, todo, n);
      if upd[n] != Null {
        if data == null {
          data := new GoMap(map[n := upd[n]]);
        } else {
          data.m := data.m[n := upd[n]];
        }
      } else if data != null {
        data.m := data.m - {n};
      }
      todo := todo - {n};
    }
    assert upd - {} == upd;
  }

  class Server {
    var sessions: map<string, Stored>
    ghost var maps: set<GoMap>  // the data maps of the stored sessions

    constructor ()
      ensures Valid() && Model() == map[] && maps == {}
    {
      sessions := map[];
      maps := {};
    }

    /** The data maps of distinct sessions are distinct objects. */
    ghost predicate Valid()
      reads this
    {
      && "" !in sessions
      && (forall k | k in sessions && sessions[k].data != null :: sessions[k].data in maps)
      && forall j, k | j in sessions && k in sessions && j != k && sessions[j].data != null ::
        sessions[j].data != sessions[k].data
    }

    ghost function Model(): Records
      requires Valid()
      reads this, maps
    {
      map k | k in sessions ::
        Record(sessions[k].id, InMap(sessions[k].data), sessions[k].start, sessions[k].last)
    }

    /** The stored data alone. */
    ghost function Contents(): map<string, Data>
      requires Valid()
      reads this, maps
    {
      DataIn(Model())
    }

    method HandleNewSession(id: string, body: Body, now: nat) returns (reply: Reply)
      requires Valid()
      modifies this
      ensures Valid() && fresh(maps - old(maps))
      ensures (Model(), reply) == Handle(old(Model()), Post(id, body, now))
    {
      if id == "" {
        return BadRequest;
      }
      if body.id != "" && body.id != id {
        return BadRequest;
      }
      if body.start.Some? || body.last.Some? {
        return BadRequest;
      }
      var data: GoMap? := null;
      if body.data.Some? {
        data := new GoMap(body.data.value);
        var todo := data.m.Keys;
        while todo != {}
          invariant fresh(data) && unchanged(this)
          invariant todo <= body.data.value.Keys
          invariant forall n :: n in data.m <==>
            n in body.data.value && (n in todo || body.data.value[n] != Null)
          invariant forall n | n in data.m :: data.m[n] == body.data.value[n]
        {
          var n :| n in todo;
          if n in data.m && data.m[n] == Null {
            data.m := data.m - {n};
          }
          todo := todo - {n};
        }
        assert data.m == NonNull(body.data.value);
      }
      ghost var r := Record(id, NonNull(DataOf(body)), Some(now), Some(now));
      var s := Stored(id, data, Some(now), Some(now));
      sessions := sessions[id := s];
      maps := if data == null then maps else maps + {data};
      SameMap(Model(), old(Model())[id := r]);
      reply := Session(Encode(Record(id, InMap(data), Some(now), Some(now))));
    }

    method HandleGetSession(id: string, names: seq<string>) returns (reply: Reply)
      requires Valid()
      ensures (Model(), reply) == Handle(Model(), Fetch(id, names))
    {
      if id == "" {
        return BadRequest;
      }
      if id !in sessions {
        return NotFound;
      }
      var s := sessions[id];
      var data := InMap(s.data);
      if |names| == 0 {
        return Session(Encode(Record(s.id, data, s.start, s.last)));
      }
      var out: Data := map[];
      for i := 0 to |names|
        invariant out == Select(data, names[..i])
      {
        assert names[..i + 1] == names[..i] + [names[i]];
        if names[i] in data {
          out := out[names[i] := data[names[i]]];
        }
      }
      assert names[..|names|] == names;
      reply := Session(Encode(Record(s.id, out, s.start, s.last)));
    }

    method HandleUpdSession(id: string, body: Body, now: nat) returns (reply: Reply)
      requires Valid()
      modifies this, maps
      ensures Valid() && fresh(maps - old(maps))
      ensures (Model(), reply) == Handle(old(Model()), Put(id, body, now))
    {
      if id == "" {
        return BadRequest;
      }
      if id !in sessions {
        return NotFound;
      }
      var s := sessions[id];
      if body.id != "" && body.id != id {
        return BadRequest;
      }
      if body.start.Some? || body.last.Some? {
        return BadRequest;
      }
      ghost var model := Model();
      ghost var r := model[id].(data := Patch(model[id].data, DataOf(body)), last := Some(now));
      ApplyUpdate(id, DataOf(body));
      s := sessions[id].(last := Some(now));
      ghost var updated := Model();
      assert Record(s.id, InMap(s.data), s.start, s.last) == updated[id].(last := Some(now)) == r;
      sessions := sessions[id := s];
      assert Model()[id] == r;
      SameMap(Model(), updated[id := r]);
      SameMap(updated[id := r], model[id := r]);
      reply := Session(Encode(Record(s.id, InMap(s.data), s.start, s.last)));
    }

    /** The update of one session's data, in place. */
    method ApplyUpdate(id: string, upd: Data)
      requires Valid() && id in sessions
      modifies this, sessions[id].data
      ensures Valid() && fresh(maps - old(maps)) && id in sessions
      ensures Model() == old(Model())[id := old(Model())[id].(data := Patch(old(Model())[id].data, upd))]
    {
      ghost var model := Model();
      var s := sessions[id];
      var data := Update(s.data, upd);
      sessions := sessions[id := s.(data := data)];
      maps := if data == null then maps else maps + {data};
      assert forall k | k in model && k != id :: InMap(sessions[k].data) == model[k].data;
      SameMap(Model(), model[id := model[id].(data := Patch(model[id].data, upd))]);
    }

    method HandleDelSession(id: string) returns (reply: Reply)
      requires Valid()
      modifies this
      ensures Valid() && maps == old(maps)
      ensures (Model(), reply) == Handle(old(Model()), Delete(id))
    {
      if id == "" {
        return BadRequest;
      }
      sessions := sessions - {id};
      SameMap(Model(), old(Model()) - {id});
      reply := Empty;
    }
  }

  // ---- What every run of the handlers keeps -------------------------------------------------------

  /** Each session is kept under its own id, holds no null, and was last used no earlier than it was started. */
  ghost predicate Sound(st: Records, clock: nat) {
    forall id | id in st ::
      && id != "" && st[id].id == id
      && NoNulls(st[id].data)
      && st[id].start.Some? && st[id].last.Some?
      && st[id].start.value <= st[id].last.value <= clock
  }

  function Clock(req: Request, clock: nat): nat {
    if req.Post? || req.Put? then req.now else clock
  }

  ghost predicate Monotone(reqs: seq<Request>, clock: nat)
    decreases |reqs|
  {
    reqs != [] ==> clock <= Clock(reqs[0], clock) && Monotone(reqs[1..], Clock(reqs[0], clock))
  }

  function HandleAll(st: Records, reqs: seq<Request>): Records
    decreases |reqs|
  {
    if reqs == [] then st else HandleAll(Handle(st, reqs[0]).0, reqs[1..])
  }

  /** A request that re-creates or removes a session. */
  predicate Resets(req: Request, id: string) {
    req.id == id && (req.Delete? || (req.Post? && !Refused(id, req.body)))
  }

  predicate NeverResets(reqs: seq<Request>, id: string) {
    forall i | 0 <= i < |reqs| :: !Resets(reqs[i], id)
  }

  function ClockAfter(reqs: seq<Request>, clock: nat): nat
    decreases |reqs|
  {
    if reqs == [] then clock else ClockAfter(reqs[1..], Clock(reqs[0], clock))
  }

  /** Over every run with a clock that does not go back: the store stays sound, and a session that is neither
      re-created nor deleted is still there with its start time. */
  lemma {:induction false} RunsStaySound(st: Records, reqs: seq<Request>, clock: nat)
    requires Sound(st, clock) && Monotone(reqs, clock)
    ensures Sound(HandleAll(st, reqs), ClockAfter(reqs, clock))
    ensures forall id | id in st && NeverResets(reqs, id) ::
      id in HandleAll(st, reqs) && HandleAll(st, reqs)[id].start == st[id].start
    decreases |reqs|
  {
    if reqs != [] {
      var st', clock' := Handle(st, reqs[0]).0, Clock(reqs[0], clock);
      StepStaysSound(st, reqs[0], clock);
      RunsStaySound(st', reqs[1..], clock');
      forall id | id in st && NeverResets(reqs, id)
        ensures id in HandleAll(st, reqs) && HandleAll(st, reqs)[id].start == st[id].start
      {
        assert !Resets(reqs[0], id);
        assert forall i | 0 <= i < |reqs[1..]| :: reqs[1..][i] == reqs[i + 1];
        assert NeverResets(reqs[1..], id);
      }
    }
  }

  lemma StepStaysSound(st: Records, req: Request, clock: nat)
    requires Sound(st, clock) && clock <= Clock(req, clock)
    ensures Sound(Handle(st, req).0, Clock(req, clock))
    ensures Handle(st, req).1 == BadRequest || Handle(st, req).1 == NotFound ==> Handle(st, req).0 == st
    ensures forall id | id in st && !Resets(req, id) ::
      id in Handle(st, req).0 && Handle(st, req).0[id].start == st[id].start
  {
  }

  predicate Unfit(req: Request)
    requires req.Post? || req.Put?
  {
    (req.body.id != "" && req.body.id != req.id) || req.body.start != None || req.body.last != None
  }

  /** Who is refused: an empty id, a body that names another session or gives times; and who is not found. Nothing else
      is, and a refusal leaves the store. */
  lemma RefusedExactly(st: Records, req: Request)
    ensures var (st', reply) := Handle(st, req);
      && (reply == BadRequest <==> req.id == "" || ((req.Post? || (req.Put? && req.id in st)) && Unfit(req)))
      && (reply == NotFound <==> req.id != "" && (req.Fetch? || req.Put?) && req.id !in st)
      && (reply == Empty <==> req.id != "" && req.Delete?)
      && (!reply.Session? && reply != Empty ==> st' == st)
  {
  }

  /** What a session's own answer shows of it. */
  ghost predicate Shows(b: Body, r: Record) {
    b.id == r.id && b.start == r.start && b.last == r.last && forall n :: Lookup(DataOf(b), n) == Json(Lookup(r.data, n))
  }

  lemma EncodeShows(r: Record)
    ensures Shows(Encode(r), r)
  {
    forall n
      ensures Lookup(DataOf(Encode(r)), n) == Json(Lookup(r.data, n))
    {
      assert n in r.data ==> JsonData(r.data)[n] == Json(r.data[n]);
    }
  }

  /** What an accepted request stores and answers, name by name: a new session has the data given, without nulls, and
      both times now; an update changes the names given, null removing them, and the last time; a fetch answers the
      names asked for, or all. No other session changes. */
  lemma AcceptedExactly(st: Records, req: Request)
    requires Handle(st, req).1.Session?
    ensures var (st', reply) := Handle(st, req);
      req.id in st' && (req.Fetch? || Shows(reply.body, st'[req.id]))
      && forall k | k != req.id :: (k in st' <==> k in st) && (k in st ==> st'[k] == st[k])
    ensures var r := Handle(st, req).0[req.id];
      match req
      case Post(id, body, now) =>
        && r.id == id && r.start == r.last == Some(now) && NoNulls(r.data)
        && forall n :: Lookup(r.data, n) == Lookup(DataOf(body), n)
      case Put(id, body, now) =>
        && id in st && r.id == st[id].id && r.start == st[id].start && r.last == Some(now)
        && forall n :: Lookup(r.data, n) == if n in DataOf(body) then DataOf(body)[n] else Lookup(st[id].data, n)
      case Fetch(id, names) =>
        && Handle(st, req).0 == st
        && var b := Handle(st, req).1.body;
          && b.id == r.id && b.start == r.start && b.last == r.last
          && forall n :: Lookup(DataOf(b), n) == if names == [] || n in names then Json(Lookup(r.data, n)) else Null
      case Delete(_) => false
  {
    var (st', reply) := Handle(st, req);
    EncodeShows(st'[req.id]);
    match req
    case Fetch(id, names) =>
      var chosen := st[id].(data := Select(st[id].data, names));
      EncodeShows(chosen);
    case _ =>
  }

  /** A deletion takes the session away, and no other. */
  lemma DeletedExactly(st: Records, id: string)
    requires id != ""
    ensures var st' := Handle(st, Delete(id)).0;
      id !in st' && forall k | k != id :: (k in st' <==> k in st) && (k in st ==> st'[k] == st[k])
  {
  }

  /** Two accepted updates in a row store, and answer, what one update would with the second laid over the first. */
  lemma UpdatesCompose(st: Records, id: string, first: Body, second: Body, earlier: nat, now: nat)
    requires id != "" && id in st && !Refused(id, first) && !Refused(id, second)
    ensures Handle(Handle(st, Put(id, first, earlier)).0, Put(id, second, now))
         == Handle(st, Put(id, second.(data := Some(DataOf(first) + DataOf(second))), now))
  {
    PatchCompose(st[id].data, DataOf(first), DataOf(second));
    var once := Handle(st, Put(id, second.(data := Some(DataOf(first) + DataOf(second))), now)).0;
    assert Handle(Handle(st, Put(id, first, earlier)).0, Put(id, second, now)).0 == once;
  }
}
