/** The session cache (`ussd/session.go`), the in-memory store (`ussd/sessions.go`) and the REST client
    (`rest-sessions/client/rest-session-client.go`), on Go maps that may be one and the same object. */
module Sessions {
  import opened Values
  import opened LocalSessions
  import opened Stores
  import opened GoMaps
  import CS = CentralStore

  ghost function Given(init: GoMap?): Option<Data>
    reads init
  {
    if init == null then None else Some(init.m)
  }

  class Session {
    const sessions: Sessions
    const id: string
    const startTime: nat
    const lastTime: nat
    var data: GoMap
    var namesToSet: GoMap
    var namesToDel: set<string>  // a Go map of its own; no one else ever holds it
    ghost var base: Data  // what `data` was when the session was opened or last synced

    ghost function Model(): Local
      reads this, data, namesToSet
    {
      Local(data.m, namesToSet.m, namesToDel)
    }

    ghost predicate Valid()
      reads this, data, namesToSet
    {
      id != "" && Coherent(base, Model())
    }

    /** A map that is given serves as `data` and as `namesToSet`: one object under two names. */
    constructor (sessions: Sessions, id: string, t0: nat, t1: nat, init: GoMap?)
      requires id != ""
      ensures Valid() && Model() == Opened(Given(init)) && base == Model().data
      ensures this.sessions == sessions && this.id == id && startTime == t0 && lastTime == t1
      ensures init != null ==> data == init && namesToSet == init
      ensures init == null ==> fresh(data) && fresh(namesToSet) && data != namesToSet
    {
      this.sessions, this.id, startTime, lastTime := sessions, id, t0, t1;
      namesToDel := {};
      var d, s := init, init;
      if init == null {
        d := new GoMap(map[]);
        s := new GoMap(map[]);
      }
      data, namesToSet := d, s;
      base := d.m;
    }

    function Get(name: string): (v: Value)
      reads this, data, namesToSet
      ensures v == Lookup(View(Model()), name)
    {
      if name in data.m then data.m[name] else Null
    }

    method Del(name: string)
      requires Valid()
      modifies this`namesToDel, data, namesToSet
      ensures Valid() && Model() == DelLocal(old(Model()), name)
    {
      ApplyCoherent(base, Model(), DelOp(name));
      data.m := data.m - {name};
      namesToSet.m := namesToSet.m - {name};
      namesToDel := namesToDel + {name};
    }

    method Set(name: string, value: Value)
      requires Valid()
      modifies this`namesToDel, data, namesToSet
      ensures Valid() && Model() == SetLocal(old(Model()), name, value)
    {
      ApplyCoherent(base, Model(), SetOp(name, value));
      if value == Null {
        Del(name);
        return;
      }
      data.m := data.m[name := value];
      namesToSet.m := namesToSet.m[name := value];
      namesToDel := namesToDel - {name};
    }

    /** The store's error is dropped and the pending changes are forgotten either way. */
    method Sync(net: Net, now: nat)
      requires Valid() && sessions.Valid() && sessions.Apart(this)
      modifies this, namesToSet, sessions.Touched(id)
      ensures Valid() && data == old(data) && fresh(namesToSet)
      ensures base == data.m && Model() == Local(data.m, map[], {})
      ensures data.m == if data == old(namesToSet)
        then SharedAfterSync(sessions.Backend(), old(sessions.Contents()), id, old(Model()), net)
        else old(data.m)
      ensures sessions.Valid() && fresh(sessions.Repr() - old(sessions.Repr()))
      ensures sessions.Contents() == SyncStore(sessions.Backend(), old(sessions.Contents()), id, old(Model()), net)
      ensures forall s: Session | old(allocated(s)) && old(sessions.Apart(s)) :: sessions.Apart(s)
    {
      ghost var shows := if data == namesToSet
        then SharedAfterSync(sessions.Backend(), sessions.Contents(), id, Model(), net) else data.m;
      Push(net, now);
      label pushed:
      Forget();
      assert data.m == shows;
      SameContents@pushed(sessions);
    }

    /** Two fresh maps for what is to come; whoever held the old ones keeps them. */
    method Forget()
      requires id != ""
      modifies this
      ensures Valid() && data == old(data) && fresh(namesToSet)
      ensures base == data.m && Model() == Local(data.m, map[], {})
    {
      namesToSet := new GoMap(map[]);
      namesToDel := {};
      base := data.m;
      SyncedCoherent(base);
    }

    /** The store's part of `Sync`: in memory it never changes what the session shows. */
    method Push(net: Net, now: nat)
      requires Valid() && sessions.Valid() && sessions.Apart(this)
      modifies namesToSet, sessions.Touched(id)
      ensures data.m == if data == namesToSet
        then SharedAfterSync(sessions.Backend(), old(sessions.Contents()), id, old(Model()), net)
        else old(data.m)
      ensures sessions.Valid() && fresh(sessions.Repr() - old(sessions.Repr()))
      ensures sessions.Contents() == SyncStore(sessions.Backend(), old(sessions.Contents()), id, old(Model()), net)
      ensures forall s: Session | old(allocated(s)) && old(sessions.Apart(s)) :: sessions.Apart(s)
    {
      ghost var l, before := Model(), sessions.Contents();
      var _ := sessions.Sync(id, namesToSet, namesToDel, net, now);
      if sessions.InMemory? && id in before && data == old(sessions.mem.sessionByID[id].data) {
        assert (l.data - l.toDel) + l.toSet == l.data;
        assert sessions.Contents()[id] == data.m;
      }
    }
  }

  /** What is stored depends on the store's own objects only. */
  twostate lemma SameContents(ss: Sessions)
    requires old(ss.Valid()) && unchanged(old(ss.Repr()))
    ensures ss.Valid() && ss.Repr() == old(ss.Repr()) && ss.Contents() == old(ss.Contents())
  {
    match ss
    case InMemory(mem) => SameMap(mem.Contents(), old(mem.Contents()));
    case Http(server) => SameMap(server.Model(), old(server.Model()));
  }

  /** Whatever is done to the two maps of an open session, no other id's stored data changes; over REST none does. */
  twostate lemma OtherIdsUntouched(s: Session)
    requires old(s.sessions.Valid()) && old(s.sessions.Apart(s))
    requires forall o: object | o in old(s.sessions.Repr()) && o != old(s.data) && o != old(s.namesToSet) :: unchanged(o)
    ensures s.sessions.Valid() && s.sessions.Repr() == old(s.sessions.Repr())
    ensures s.sessions.Contents() - {s.id} == old(s.sessions.Contents()) - {s.id}
    ensures s.sessions.Http? ==> s.sessions.Contents() == old(s.sessions.Contents())
  {
    match s.sessions
    case InMemory(mem) =>
      assert (mem as object) in old(s.sessions.Repr());
      assert forall k | k in mem.sessionByID :: (mem.sessionByID[k].data as object) in old(s.sessions.Repr());
      SameMap(mem.Contents() - {s.id}, old(mem.Contents()) - {s.id});
    case Http(server) => SameContents(s.sessions);
  }

  datatype InMemSession = InMemSession(startTime: nat, lastTime: nat, data: GoMap)

  class InMemorySessions {
    var sessionByID: map<string, InMemSession>
    ghost var maps: set<GoMap>  // the data maps of the stored sessions

    constructor ()
      ensures sessionByID == map[] && Valid() && maps == {}
    {
      sessionByID := map[];
      maps := {};
    }

    /** The maps of distinct ids are distinct objects. */
    ghost predicate Valid()
      reads this
    {
      && "" !in sessionByID
      && (forall k | k in sessionByID :: sessionByID[k].data in maps)
      && forall j, k | j in sessionByID && k in sessionByID && j != k :: sessionByID[j].data != sessionByID[k].data
    }

    ghost function Contents(): Store
      requires Valid()
      reads this, maps
    {
      map k | k in sessionByID :: sessionByID[k].data.m
    }

    /** A delete loop, then a set loop, each over a Go map in no particular order; `values` may be the stored map itself. */
    method Sync(id: string, values: GoMap, del: set<string>, now: nat)
      requires Valid() && id != ""
      requires forall k | k in sessionByID && sessionByID[k].data == values :: k == id && values.m.Keys !! del
      modifies this, if id in sessionByID then {sessionByID[id].data} else {}
      ensures Valid() && fresh(maps - old(maps))
      ensures Contents() == old(Contents())[id := (StoredOr(old(Contents()), id, map[]) - del) + old(values.m)]
      ensures id in sessionByID && sessionByID[id].lastTime == now
      ensures forall k | k in sessionByID ::
        if k in old(sessionByID) then sessionByID[k].data == old(sessionByID[k].data)
        else k == id && fresh(sessionByID[k].data)
      ensures sessionByID[id].startTime == if id in old(sessionByID) then old(sessionByID[id].startTime) else now
    {
      var ims := Entry(id, now);
      ghost var stored := Contents();
      ApplyDelta(ims.data, values, del);
      assert forall k | k in sessionByID && k != id :: sessionByID[k].data.m == stored[k];
      Keep(id, ims.(lastTime := now), stored);
    }

    /** The entry of an id, or a new one that is not stored yet. */
    method Entry(id: string, now: nat) returns (ims: InMemSession)
      requires Valid()
      ensures if id in sessionByID then ims == sessionByID[id]
        else ims.startTime == now && fresh(ims.data) && ims.data.m == map[]
    {
      if id in sessionByID {
        return sessionByID[id];
      }
      var made := new GoMap(map[]);
      ims := InMemSession(now, now, made);
    }

    /** `sessionByID[id] = ims`. The other entries are known from `stored`. */
    method Keep(id: string, ims: InMemSession, ghost stored: Store)
      requires Valid() && id != ""
      requires forall k | k in sessionByID && k != id :: sessionByID[k].data != ims.data
      requires stored.Keys == sessionByID.Keys && forall k | k in stored && k != id :: sessionByID[k].data.m == stored[k]
      modifies this
      ensures Valid() && maps == old(maps) + {ims.data} && sessionByID == old(sessionByID)[id := ims]
      ensures Contents() == stored[id := ims.data.m]
    {
      sessionByID := sessionByID[id := ims];
      maps := maps + {ims.data};
      SameMap(Contents(), stored[id := ims.data.m]);
    }
  }

  method ApplyDelta(target: GoMap, values: GoMap, del: set<string>)
    requires target == values ==> values.m.Keys !! del
    modifies target
    ensures target.m == (old(target.m) - del) + old(values.m)
  {
    DeleteAll(target, del);
    assert values.m == old(values.m);
    SetAllIn(target, values);
  }

  /** `for name, value := range values { target[name] = value }`; the two may be one map. */
  method SetAllIn(target: GoMap, values: GoMap)
    modifies target
    ensures target.m == old(target.m) + old(values.m)
  {
    var todo := values.m.Keys;
    while todo != {}
      invariant todo <= old(values.m).Keys
      invariant target.m == old(target.m) + (old(values.m) - todo)
      invariant values.m == old(values.m)
    {
      var n :| n in todo;
      target.m := target.m[n := values.m[n]];
      assert old(values.m) - (todo - {n}) == (old(values.m) - todo)[n := old(values.m)[n]];
      todo := todo - {n};
    }
    assert old(values.m) - {} == old(values.m);
  }

  // ---- The REST client ----------------------------------------------------------------------------

  function Omitted(d: Data): Option<Data> {
    if d == map[] then None else Some(JsonData(d))
  }

  /** Decoding a reply over a map keeps the entries the reply does not mention. */
  function Decoded(over: Data, data: Option<Data>): Data {
    match data case None => over case Some(d) => over + d
  }

  function NewBody(id: string, init: Option<Data>): CS.Body {
    CS.Body(id, match init case None => None case Some(d) => Omitted(d), None, None)
  }

  function SyncBody(id: string, d: Data): CS.Body {
    CS.Body(id, Omitted(d), None, None)
  }

  /** A delivered create request, read as a change of the stored data. */
  lemma PostIsNew(st: CS.Records, id: string, init: Option<Data>, now: nat)
    requires id != ""
    ensures var (st', reply) := CS.Handle(st, CS.Post(id, NewBody(id, init), now));
      && CS.DataIn(st') == NewStore(Rest, CS.DataIn(st), id, init, Delivered)
      && reply.Session?
      && (init.Some? ==> Decoded(init.value, reply.body.data) == init.value + NonNull(JsonData(init.value)))
  {
    var (st', reply) := CS.Handle(st, CS.Post(id, NewBody(id, init), now));
    var r := st'[id];
    assert r.data == match init case None => map[] case Some(d) => NonNull(JsonData(d));
    SameMap(CS.DataIn(st'), CS.DataIn(st)[id := r.data]);
    assert JsonData(r.data) == r.data;
  }

  /** A delivered update request, likewise. */
  lemma PutIsSync(st: CS.Records, id: string, l: Local, now: nat)
    requires id != ""
    ensures var (st', reply) := CS.Handle(st, CS.Put(id, SyncBody(id, Tombstoned(l)), now));
      && CS.DataIn(st') == SyncStore(Rest, CS.DataIn(st), id, l, Delivered)
      && (reply.Session? <==> id in st)
      && (id in st ==>
        Decoded(Tombstoned(l), reply.body.data) == SharedAfterSync(Rest, CS.DataIn(st), id, l, Delivered))
  {
    var (st', reply) := CS.Handle(st, CS.Put(id, SyncBody(id, Tombstoned(l)), now));
    assert CS.DataOf(SyncBody(id, Tombstoned(l))) == JsonData(Tombstoned(l));
    if id in st {
      SameMap(CS.DataIn(st'), CS.DataIn(st)[id := st'[id].data]);
    }
  }

  /** `hs.Data[n] = nil` for every deleted name. */
  method WriteNulls(values: GoMap, del: set<string>)
    modifies values
    ensures values.m == old(values.m) + map n | n in del :: Null
  {
    var todo := del;
    while todo != {}
      invariant todo <= del
      invariant values.m == old(values.m) + map n | n in del - todo :: Null
    {
      var n :| n in todo;
      values.m := values.m[n := Null];
      todo := todo - {n};
    }
  }

  datatype Sessions = InMemory(mem: InMemorySessions) | Http(server: CS.Server) {

    function Backend(): Backend {
      if InMemory? then InMem else Rest
    }

    ghost function Repr(): set<object>
      reads match this case InMemory(mem) => {mem as object} case Http(server) => {server as object}
    {
      match this
      case InMemory(mem) => {mem as object} + mem.maps
      case Http(server) => {server as object} + server.maps
    }

    ghost predicate Valid()
      reads match this case InMemory(mem) => {mem as object} case Http(server) => {server as object}
    {
      match this case InMemory(mem) => mem.Valid() case Http(server) => server.Valid()
    }

    ghost function Contents(): Store
      requires Valid()
      reads match this case InMemory(mem) => {mem as object} case Http(server) => {server as object}
      reads Repr()
    {
      match this case InMemory(mem) => mem.Contents() case Http(server) => server.Contents()
    }

    /** The objects an operation on one id may change. */
    ghost function Touched(id: string): set<object>
      reads match this case InMemory(mem) => {mem as object} case Http(server) => {server as object}
    {
      match this
      case InMemory(mem) =>
        {mem as object} + if id in mem.sessionByID then {mem.sessionByID[id].data as object} else {}
      case Http(server) => Repr()
    }

    /** An open session shares a map with the store only under its own id, and with the REST store never. */
    ghost predicate Apart(s: Session)
      reads s, Repr()
    {
      match this
      case InMemory(mem) =>
        forall k | k in mem.sessionByID && mem.sessionByID[k].data in {s.data, s.namesToSet} :: k == s.id
      case Http(server) => s.data !in server.maps && s.namesToSet !in server.maps
    }

    method New(id: string, init: GoMap?, net: Net, now: nat) returns (s: Session?)
      requires Valid() && id != "" && init !in Repr()
      modifies Repr(), init
      ensures Valid() && fresh(Repr() - old(Repr()))
      ensures Contents() == NewStore(Backend(), old(Contents()), id, old(Given(init)), net)
      ensures (if s == null then None else Some(s.Model())) == NewLocal(Backend(), old(Given(init)), net)
      ensures s != null ==> fresh(s) && OpenedFor(this, id, s) && s.data !in Repr() && s.namesToSet !in Repr()
      ensures s != null ==> (s.data == init && s.namesToSet == init) || (fresh(s.data) && fresh(s.namesToSet))
      ensures s != null ==> Apart(s) && s.startTime == s.lastTime == now
      ensures forall s: Session | old(allocated(s)) && old(Apart(s)) :: Apart(s)
    {
      match this
      case InMemory(mem) => s := new Session(this, id, now, now, init);
      case Http(server) => s := HttpNew(server, id, init, net, now);
    }

    /** An in-memory session gets the store's own map. */
    method Get(id: string, net: Net, now: nat) returns (s: Session?)
      requires Valid()
      ensures (if s == null then None else Some(s.Model())) == GetLocal(Backend(), Contents(), id, net)
      ensures s != null ==> fresh(s) && OpenedFor(this, id, s)
      ensures s != null && InMemory? ==>
        id in mem.sessionByID && s.data == mem.sessionByID[id].data && s.namesToSet == s.data
      ensures s != null && Http? ==> fresh(s.data) && fresh(s.namesToSet)
      ensures s != null && InMemory? ==>
        s.startTime == mem.sessionByID[id].startTime && s.lastTime == mem.sessionByID[id].lastTime
      ensures s != null && Http? ==> id in server.Model() && TimesOf(server.Model()[id], now, s)
      ensures s != null ==> Apart(s)
    {
      s := null;
      match this
      case InMemory(mem) =>
        if id in mem.sessionByID {
          var ims := mem.sessionByID[id];
          s := new Session(this, id, ims.startTime, ims.lastTime, ims.data);
        }
      case Http(server) => s := HttpGet(server, id, net, now);
    }

    method Del(id: string, net: Net) returns (ok: bool)
      requires Valid()
      modifies Repr()
      ensures Valid() && Repr() == old(Repr())
      ensures Contents() == DelStore(Backend(), old(Contents()), id, net)
      ensures forall s: Session | old(allocated(s)) && old(Apart(s)) :: Apart(s)
    {
      match this
      case InMemory(mem) =>
        mem.sessionByID := mem.sessionByID - {id};
        assert mem.Contents() == old(mem.Contents()) - {id};
        ok := true;
      case Http(server) =>
        if net.RequestLost? {
          return false;
        }
        var reply := server.HandleDelSession(id);
        SameMap(server.Contents(), old(server.Contents()) - {id});
        ok := net.Delivered? && reply == CS.Empty;
    }

    method Sync(id: string, values: GoMap, del: set<string>, net: Net, now: nat) returns (ok: bool)
      requires Valid() && id != ""
      requires values.m.Keys !! del
      requires match this
        case InMemory(mem) => forall k | k in mem.sessionByID && mem.sessionByID[k].data == values :: k == id
        case Http(server) => values !in server.maps
      modifies Touched(id), values
      ensures Valid() && fresh(Repr() - old(Repr()))
      ensures var l := Local(old(values.m), old(values.m), del);
        && Contents() == SyncStore(Backend(), old(Contents()), id, l, net)
        && (Http? ==> values.m == SharedAfterSync(Rest, old(Contents()), id, l, net))
      ensures InMemory? && id in old(mem.sessionByID) ==>
        id in mem.sessionByID && mem.sessionByID[id].data == old(mem.sessionByID[id].data)
      ensures InMemory? && values !in old(Touched(id)) ==> values.m == old(values.m)
      ensures forall s: Session | old(allocated(s)) && old(Apart(s)) :: Apart(s)
    {
      match this
      case InMemory(mem) =>
        mem.Sync(id, values, del, now);
        ok := true;
      case Http(server) => ok := HttpSync(server, id, values, del, net, now);
    }
  }

  ghost predicate OpenedFor(ss: Sessions, id: string, s: Session)
    reads s, s.data, s.namesToSet
  {
    s.Valid() && s.sessions == ss && s.id == id && s.base == s.data.m
  }

  /** The session has the times of the server's record, or the client's own if the record lacks one. */
  predicate TimesOf(r: CS.Record, now: nat, s: Session) {
    if r.start.Some? && r.last.Some? then s.startTime == r.start.value && s.lastTime == r.last.value
    else s.startTime == s.lastTime == now
  }

  /** The POST of `New`. Without a reply the caller cannot tell whether the request arrived. */
  method DoPost(server: CS.Server, id: string, ghost init: Option<Data>, body: CS.Body, net: Net, now: nat)
    returns (reply: Option<CS.Body>)
    requires server.Valid() && id != "" && body == NewBody(id, init)
    modifies server
    ensures server.Valid() && fresh(server.maps - old(server.maps))
    ensures server.Contents() == NewStore(Rest, old(server.Contents()), id, init, net)
    ensures reply.Some? <==> net.Delivered?
    ensures reply.Some? ==> reply.value.start == reply.value.last == Some(now)
    ensures reply.Some? && init.Some? ==>
      Decoded(init.value, reply.value.data) == init.value + NonNull(JsonData(init.value))
  {
    if net.RequestLost? {
      return None;
    }
    PostIsNew(server.Model(), id, init, now);
    var r := server.HandleNewSession(id, body, now);
    reply := if net.ReplyLost? || !r.Session? then None else Some(r.body);
  }

  method HttpNew(server: CS.Server, id: string, init: GoMap?, net: Net, now: nat) returns (s: Session?)
    requires server.Valid() && id != "" && init !in server.maps
    modifies server, init
    ensures server.Valid() && fresh(server.maps - old(server.maps))
    ensures server.Contents() == NewStore(Rest, old(server.Contents()), id, old(Given(init)), net)
    ensures (if s == null then None else Some(s.Model())) == NewLocal(Rest, old(Given(init)), net)
    ensures s != null ==> fresh(s) && OpenedFor(Http(server), id, s) && s.data !in server.maps && s.namesToSet !in server.maps
    ensures s != null ==> (s.data == init && s.namesToSet == init) || (fresh(s.data) && fresh(s.namesToSet))
    ensures s != null ==> s.startTime == s.lastTime == now
  {
    ghost var given := Given(init);
    var body := NewBody(id, if init == null then None else Some(init.m));
    var reply := DoPost(server, id, given, body, net, now);
    if reply.None? {
      return null;
    }
    if init != null {
      init.m := Decoded(init.m, reply.value.data);  // over the caller's own map
    }
    var t0, t1 := now, now;
    if reply.value.start.Some? && reply.value.last.Some? {
      t0, t1 := reply.value.start.value, reply.value.last.value;
    }
    s := new Session(Http(server), id, t0, t1, init);
  }

  method HttpGet(server: CS.Server, id: string, net: Net, now: nat) returns (s: Session?)
    requires server.Valid()
    ensures (if s == null then None else Some(s.Model())) == GetLocal(Rest, server.Contents(), id, net)
    ensures s != null ==> fresh(s) && OpenedFor(Http(server), id, s) && fresh(s.data) && fresh(s.namesToSet)
    ensures s != null ==> id in server.Model() && TimesOf(server.Model()[id], now, s)
  {
    if !net.Delivered? {
      return null;
    }
    var reply := server.HandleGetSession(id, []);
    if !reply.Session? {
      return null;
    }
    var t0, t1 := now, now;
    if reply.body.start.Some? && reply.body.last.Some? {
      t0, t1 := reply.body.start.value, reply.body.last.value;
    }
    var decoded: GoMap? := null;
    if reply.body.data.Some? {
      decoded := new GoMap(reply.body.data.value);
    }
    s := new Session(Http(server), id, t0, t1, decoded);
  }

  /** The PUT of `Sync`, with the tombstoned delta of `l`. */
  method DoPut(server: CS.Server, id: string, ghost l: Local, body: CS.Body, net: Net, now: nat)
    returns (reply: Option<CS.Body>)
    requires server.Valid() && id != "" && body == SyncBody(id, Tombstoned(l))
    modifies server, server.maps
    ensures server.Valid() && fresh(server.maps - old(server.maps))
    ensures server.Contents() == SyncStore(Rest, old(server.Contents()), id, l, net)
    ensures (match reply case None => Tombstoned(l) case Some(b) => Decoded(Tombstoned(l), b.data))
         == SharedAfterSync(Rest, old(server.Contents()), id, l, net)
  {
    if net.RequestLost? {
      return None;
    }
    PutIsSync(server.Model(), id, l, now);
    var r := server.HandleUpdSession(id, body, now);
    reply := if net.ReplyLost? || !r.Session? then None else Some(r.body);
  }

  method HttpSync(server: CS.Server, id: string, values: GoMap, del: set<string>, net: Net, now: nat) returns (ok: bool)
    requires server.Valid() && id != "" && values !in server.maps
    modifies server, server.maps, values
    ensures server.Valid() && fresh(server.maps - old(server.maps))
    ensures var l := Local(old(values.m), old(values.m), del);
      && server.Contents() == SyncStore(Rest, old(server.Contents()), id, l, net)
      && values.m == SharedAfterSync(Rest, old(server.Contents()), id, l, net)
  {
    ghost var l := Local(values.m, values.m, del);
    ghost var before := server.Contents();
    WriteNulls(values, del);
    assert server.Contents() == before;
    var body := SyncBody(id, values.m);
    var reply := DoPut(server, id, l, body, net, now);
    ghost var stored := server.Contents();
    assert stored == SyncStore(Rest, before, id, l, net);
    if reply.None? {
      return false;
    }
    values.m := Decoded(values.m, reply.value.data);  // over the very map that was sent
    assert server.Contents() == stored;
    ok := true;
  }
}
