/**
  The receiver's listeners. Binding a socket and making a directory may fail at any time; the Go
  map loops visit their keys in any order.
 */
module Receiver {
  import opened Sources
  import opened Wrappers
  import LSS = LogSourceSettings
  import Routing
  import Text

  type Endpoint = LSS.Endpoint

  /** What a source has received; an `ApplySources` that succeeds must carry it over. */
  datatype Counters = Counters(lastClientIp: string, lastReceivedAt: int, receivedMessages: int, archiveError: string, lastArchiveAt: int)

  const NO_COUNTERS := Counters("", 0, 0, "", 0)

  datatype Status = Status(
    sourceId: string, protocol: string, host: string, port: int, spoolDir: string, clientIp: string,
    running: bool, failed: bool, counters: Counters)

  class EndpointListener {
    const key: Endpoint
    var routes: Routing.Table
    var isOpen: bool

    constructor (key: Endpoint, routes: Routing.Table)
      ensures this.key == key && this.routes == routes && isOpen
    {
      this.key, this.routes, isOpen := key, routes, true;
    }

    method UpdateRoutes(table: Routing.Table)
      modifies `routes
      ensures routes == table
    {
      routes := table;
    }

    method Close()
      modifies `isOpen
      ensures !isOpen
    {
      isOpen := false;
    }
  }

  /** Binds the socket of an endpoint, or fails. */
  method NewEndpointListener(key: Endpoint, table: Routing.Table) returns (l: EndpointListener?)
    ensures l != null ==> fresh(l) && l.key == key && l.routes == table && l.isOpen
  {
    var bound: bool := *;
    if !bound {
      return null;
    }
    l := new EndpointListener(key, table);
  }

  /** A source as the receiver keeps it. */
  function Trimmed(s: LogSource): LogSource {
    s.(listenProtocol := Text.Normal(s.listenProtocol), listenHost := Text.Trim(s.listenHost),
       clientIp := Text.Trim(s.clientIp), spoolDir := Text.Trim(s.spoolDir))
  }

  /** The sources that the receiver serves, in the order given. */
  function Received(sources: seq<LogSource>): seq<LogSource> {
    if sources == [] then []
    else
      var last := sources[|sources| - 1];
      Received(sources[..|sources| - 1]) + if LSS.ShouldReceive(last) then [Trimmed(last)] else []
  }

  /** The received sources of an endpoint. */
  function At(received: seq<LogSource>, endpoint: Endpoint): (at: seq<LogSource>)
    ensures forall s <- at :: s in received && LSS.EndpointOf(s) == endpoint
  {
    if received == [] then []
    else
      var last := received[|received| - 1];
      At(received[..|received| - 1], endpoint) + if LSS.EndpointOf(last) == endpoint then [last] else []
  }

  function Endpoints(received: seq<LogSource>): set<Endpoint> {
    set s <- received :: LSS.EndpointOf(s)
  }

  /** The table gives every client what the sources of the endpoint owe it. */
  ghost predicate IsTableAt(table: Routing.Table, received: seq<LogSource>, endpoint: Endpoint, parser: Routing.Parser) {
    && Routing.Buildable(At(received, endpoint), parser)
    && Routing.Represents(table, At(received, endpoint), parser) && Routing.LongestFirst(table.networks)
  }

  function StatusOf(s: LogSource): Status {
    Status(s.sourceId, s.listenProtocol, s.listenHost, s.listenPort, s.spoolDir, s.clientIp, false, false, NO_COUNTERS)
  }

  /** What an error leaves of the statuses: those of the sources at the failing endpoint are replaced. */
  function WithErrors(statuses: map<string, Status>, sources: seq<LogSource>): map<string, Status> {
    if sources == [] then statuses
    else
      var last := sources[|sources| - 1];
      WithErrors(statuses, sources[..|sources| - 1])[last.sourceId := StatusOf(last).(failed := true)]
  }

  /** The status of a source that is now served, with what it has received so far. */
  function RunningStatus(s: LogSource, previous: map<string, Status>): Status {
    var status := StatusOf(s).(running := true);
    if s.sourceId in previous then status.(counters := previous[s.sourceId].counters) else status
  }

  function NextStatuses(sources: seq<LogSource>, previous: map<string, Status>): map<string, Status> {
    if sources == [] then map[]
    else
      var last := sources[|sources| - 1];
      NextStatuses(sources[..|sources| - 1], previous)[last.sourceId := RunningStatus(last, previous)]
  }

  datatype Result = Applied | Failed(endpoint: Endpoint)

  class Manager {
    var listeners: map<Endpoint, EndpointListener>
    var statuses: map<string, Status>
    const parser: Routing.Parser
    /** Every listener that was ever made. */
    ghost var sockets: set<EndpointListener>
    /** How many directories could not be made and sockets not be bound. */
    ghost var faults: nat

    /** The sockets that are open are exactly those of the listeners in the map. */
    ghost predicate Valid()
      reads this, sockets
    {
      && (forall k <- listeners :: listeners[k] in sockets && listeners[k].key == k)
      && (forall l <- sockets :: l.isOpen <==> l.key in listeners && listeners[l.key] == l)
    }

    /** Between opening new listeners and switching to them, these are open too. */
    ghost predicate IsSwitching(created: map<Endpoint, EndpointListener>, tables: map<Endpoint, Routing.Table>)
      reads this, sockets
    {
      && (forall k <- listeners :: listeners[k] in sockets && listeners[k].key == k)
      && created.Keys == tables.Keys - listeners.Keys
      && (forall k <- created :: created[k] in sockets && created[k].key == k && created[k].routes == tables[k])
      && (forall l <- sockets ::
            l.isOpen <==> (l.key in listeners && listeners[l.key] == l) || (l.key in created && created[l.key] == l))
    }

    constructor (parser: Routing.Parser)
      ensures Valid() && listeners == map[] && statuses == map[] && sockets == {}
    {
      this.parser := parser;
      listeners, statuses, sockets, faults := map[], map[], {}, 0;
    }

    /** Builds every endpoint's table and makes its directories, or gives the endpoint at which that failed. */
    method BuildTables(received: seq<LogSource>) returns (tables: map<Endpoint, Routing.Table>, failed: Option<Endpoint>)
      modifies `faults
      ensures old(faults) <= faults
      ensures failed.None? ==>
                && tables.Keys == Endpoints(received)
                && forall k <- tables :: IsTableAt(tables[k], received, k, parser)
      ensures failed.Some? ==>
                && failed.value in Endpoints(received)
                && (old(faults) < faults || !Routing.Buildable(At(received, failed.value), parser))
    {
      tables := map[];
      var todo := Endpoints(received);
      while todo != {}
        invariant todo <= Endpoints(received) && tables.Keys == Endpoints(received) - todo && faults == old(faults)
        invariant forall k <- tables :: IsTableAt(tables[k], received, k, parser)
        decreases |todo|
      {
        var key :| key in todo;
        todo := todo - {key};
        var table := Routing.BuildRouteTable(At(received, key), parser);
        if table.None? {
          return tables, Some(key);
        }
        for i := 0 to |At(received, key)|
          invariant faults == old(faults)
        {
          var made: bool := *;
          if !made {
            faults := faults + 1;
            return tables, Some(key);
          }
        }
        tables := tables[key := table.value];
      }
      return tables, None;
    }

    /** Of the endpoints in `tables`, those not in `todo` have a listener, old or created since `before`. */
    ghost predicate AreOpened(
      created: map<Endpoint, EndpointListener>, tables: map<Endpoint, Routing.Table>, todo: set<Endpoint>,
      before: set<EndpointListener>)
      reads this, sockets
    {
      && todo <= tables.Keys && before <= sockets && created.Keys == tables.Keys - todo - listeners.Keys
      && (forall k <- created :: created[k] in sockets - before && created[k].key == k
                                 && created[k].routes == tables[k] && created[k].isOpen)
      && (forall l <- sockets - before :: l.key in created && created[l.key] == l)
    }

    /** Opens a listener for one more endpoint, unless it has one. */
    method OpenOne(
      key: Endpoint, tables: map<Endpoint, Routing.Table>, created: map<Endpoint, EndpointListener>,
      ghost todo: set<Endpoint>, ghost before: set<EndpointListener>)
      returns (ok: bool, created': map<Endpoint, EndpointListener>)
      requires AreOpened(created, tables, todo, before) && key in todo
      modifies `sockets, `faults
      ensures if ok then faults == old(faults) else old(faults) < faults
      ensures sockets >= old(sockets) && fresh(sockets - old(sockets))
      ensures ok ==> AreOpened(created', tables, todo - {key}, before)
      ensures !ok ==> sockets == old(sockets) && key !in listeners
    {
      ok, created' := true, created;
      if key !in listeners {
        var listener := NewEndpointListener(key, tables[key]);
        if listener == null {
          faults := faults + 1;
          return false, created;
        }
        created' := created[key := listener];
        sockets := sockets + {listener};
      }
    }

    /** Opens a listener for every endpoint that has none; if one cannot be bound, closes those it opened. */
    method OpenMissing(tables: map<Endpoint, Routing.Table>) returns (created: map<Endpoint, EndpointListener>, failed: Option<Endpoint>)
      requires Valid()
      modifies `sockets, `faults
      ensures if failed.None? then faults == old(faults) else old(faults) < faults
      ensures sockets >= old(sockets) && fresh(sockets - old(sockets))
      ensures failed.None? ==> IsSwitching(created, tables) && forall k <- created :: fresh(created[k])
      ensures failed.Some? ==> failed.value in tables.Keys - listeners.Keys && forall l <- sockets - old(sockets) :: !l.isOpen
    {
      created := map[];
      var todo := tables.Keys;
      while todo != {}
        invariant fresh(sockets - old(sockets)) && AreOpened(created, tables, todo, old(sockets))
        invariant faults == old(faults)
        decreases |todo|
      {
        var key :| key in todo;
        var ok, more := OpenOne(key, tables, created, todo, old(sockets));
        if !ok {
          CloseAll(created);
          return created, Some(key);
        }
        created, todo := more, todo - {key};
      }
      return created, None;
    }

    /** Closes the given listeners, in any order. */
    method CloseAll(closing: map<Endpoint, EndpointListener>)
      modifies set k <- closing :: closing[k]`isOpen
      ensures forall k <- closing :: !closing[k].isOpen
    {
      var todo := closing.Keys;
      while todo != {}
        invariant todo <= closing.Keys
        invariant forall k <- closing :: k !in todo ==> !closing[k].isOpen
        decreases |todo|
      {
        var key :| key in todo;
        todo := todo - {key};
        closing[key].Close();
      }
    }

    /** Gives the listeners that are kept their new routes, in any order. */
    method UpdateKept(tables: map<Endpoint, Routing.Table>)
      requires forall k <- listeners :: listeners[k] in sockets && listeners[k].key == k
      modifies sockets`routes
      ensures forall k <- listeners :: k in tables ==> listeners[k].routes == tables[k]
      ensures forall l <- sockets :: !(l.key in listeners && l.key in tables) ==> l.routes == old(l.routes)
    {
      var todo := tables.Keys;
      while todo != {}
        invariant todo <= tables.Keys
        invariant forall k <- listeners :: k in tables && k !in todo ==> listeners[k].routes == tables[k]
        invariant forall l <- sockets :: !(l.key in listeners && l.key in tables) ==> l.routes == old(l.routes)
        decreases |todo|
      {
        var key :| key in todo;
        todo := todo - {key};
        if key in listeners {
          listeners[key].UpdateRoutes(tables[key]);
        }
      }
    }

    /** Makes `next` the listeners and closes those that it lacks. */
    method Replace(next: map<Endpoint, EndpointListener>)
      requires forall k <- next :: next[k] in sockets && next[k].key == k
      requires forall l <- sockets :: l.isOpen <==> (l.key in listeners && listeners[l.key] == l) || (l.key in next && next[l.key] == l)
      requires forall k <- listeners :: listeners[k] in sockets && listeners[k].key == k && (k in next ==> next[k] == listeners[k])
      modifies `listeners, sockets`isOpen
      ensures Valid() && listeners == next
      ensures forall k <- old(listeners) :: k !in next ==> !old(listeners)[k].isOpen
    {
      var removed := map k | k in listeners && k !in next :: listeners[k];
      listeners := next;
      CloseAll(removed);
      forall l | l in sockets
        ensures l.isOpen <==> l.key in next && next[l.key] == l
      {
        assert l.key in removed && removed[l.key] == l ==> !l.isOpen;
        assert !(l.key in removed && removed[l.key] == l) ==> l.isOpen == old(l.isOpen);
      }
    }

    /** Makes the endpoints of the tables the ones listened at and closes the listeners of all others. */
    method SwitchTo(tables: map<Endpoint, Routing.Table>, created: map<Endpoint, EndpointListener>)
      requires IsSwitching(created, tables)
      modifies `listeners, sockets
      ensures Valid() && listeners.Keys == tables.Keys
      ensures forall k <- tables :: listeners[k] == (if k in old(listeners) then old(listeners)[k] else created[k])
      ensures forall k <- tables :: listeners[k].routes == tables[k]
      ensures forall k <- old(listeners) :: k !in tables ==> !old(listeners)[k].isOpen
    {
      UpdateKept(tables);
      var next := map k | k in tables :: if k in listeners then listeners[k] else created[k];
      Replace(next);
    }

    method ReceiveFrom(sources: seq<LogSource>) returns (received: seq<LogSource>)
      ensures received == Received(sources)
    {
      received := [];
      for i := 0 to |sources|
        invariant received == Received(sources[..i])
      {
        assert sources[..i + 1][..i] == sources[..i];
        if LSS.ShouldReceive(sources[i]) {
          received := received + [Trimmed(sources[i])];
        }
      }
      assert sources[..|sources|] == sources;
    }

    method RecordErrors(sources: seq<LogSource>)
      modifies `statuses
      ensures statuses == WithErrors(old(statuses), sources)
    {
      for i := 0 to |sources|
        invariant statuses == WithErrors(old(statuses), sources[..i])
      {
        assert sources[..i + 1][..i] == sources[..i];
        statuses := statuses[sources[i].sourceId := StatusOf(sources[i]).(failed := true)];
      }
      assert sources[..|sources|] == sources;
    }

    method CarryStatuses(received: seq<LogSource>) returns (next: map<string, Status>)
      ensures next == NextStatuses(received, statuses)
    {
      next := map[];
      for i := 0 to |received|
        invariant next == NextStatuses(received[..i], statuses)
      {
        assert received[..i + 1][..i] == received[..i];
        next := next[received[i].sourceId := RunningStatus(received[i], statuses)];
      }
      assert received[..|received|] == received;
    }

    /** The part of `ApplySources` that runs under the manager's lock. */
    method ApplyTables(received: seq<LogSource>, tables: map<Endpoint, Routing.Table>) returns (r: Result)
      requires Valid() && tables.Keys == Endpoints(received)
      modifies this, sockets
      ensures if r.Applied? then faults == old(faults) else old(faults) < faults
      ensures Valid() && sockets >= old(sockets) && fresh(sockets - old(sockets))
      ensures r.Failed? ==>
                && r.endpoint in tables && listeners == old(listeners)
                && (forall l <- old(sockets) :: l.isOpen == old(l.isOpen) && l.routes == old(l.routes))
                && (forall l <- sockets - old(sockets) :: !l.isOpen)
                && statuses == WithErrors(old(statuses), At(received, r.endpoint))
      ensures r.Applied? ==>
                && listeners.Keys == tables.Keys
                && (forall k <- listeners :: k in old(listeners) ==> listeners[k] == old(listeners)[k])
                && (forall k <- listeners :: k !in old(listeners) ==> fresh(listeners[k]))
                && (forall k <- listeners :: listeners[k].routes == tables[k])
                && (forall k <- old(listeners) :: k !in tables ==> !old(listeners)[k].isOpen)
                && statuses == NextStatuses(received, old(statuses))
    {
      var created, failed := OpenMissing(tables);
      if failed.Some? {
        RecordErrors(At(received, failed.value));
        return Failed(failed.value);
      }
      var nextStatuses := CarryStatuses(received);
      SwitchTo(tables, created);
      statuses := nextStatuses;
      return Applied;
    }

    /** `ApplySources`, told by the sources that are received. */
    method ApplyReceived(sources: seq<LogSource>) returns (r: Result)
      requires Valid()
      modifies this, sockets
      ensures Valid() && sockets >= old(sockets) && fresh(sockets - old(sockets))
      ensures r.Failed? ==>
                && r.endpoint in Endpoints(Received(sources))
                && (old(faults) < faults || !Routing.Buildable(At(Received(sources), r.endpoint), parser))
                && listeners == old(listeners)
                && (forall l <- old(sockets) :: l.isOpen == old(l.isOpen) && l.routes == old(l.routes))
                && (forall l <- sockets - old(sockets) :: !l.isOpen)
                && statuses == WithErrors(old(statuses), At(Received(sources), r.endpoint))
      ensures r.Applied? ==>
                && listeners.Keys == Endpoints(Received(sources))
                && (forall k <- listeners :: k in old(listeners) ==> listeners[k] == old(listeners)[k])
                && (forall k <- listeners :: k !in old(listeners) ==> fresh(listeners[k]))
                && (forall k <- listeners :: IsTableAt(listeners[k].routes, Received(sources), k, parser))
                && (forall k <- old(listeners) :: k !in listeners ==> !old(listeners)[k].isOpen)
                && statuses == NextStatuses(Received(sources), old(statuses))
    {
      var received := ReceiveFrom(sources);
      var tables, failed := PrepareTables(received);
      if failed.Some? {
        return Failed(failed.value);
      }
      r := ApplyTables(received, tables);
    }

    /** Builds the tables; if that fails, the statuses show it. */
    method PrepareTables(received: seq<LogSource>) returns (tables: map<Endpoint, Routing.Table>, failed: Option<Endpoint>)
      modifies `faults, `statuses
      ensures old(faults) <= faults
      ensures failed.None? ==>
                && tables.Keys == Endpoints(received) && statuses == old(statuses)
                && forall k <- tables :: IsTableAt(tables[k], received, k, parser)
      ensures failed.Some? ==>
                && failed.value in Endpoints(received)
                && (old(faults) < faults || !Routing.Buildable(At(received, failed.value), parser))
                && statuses == WithErrors(old(statuses), At(received, failed.value))
    {
      tables, failed := BuildTables(received);
      if failed.Some? {
        RecordErrors(At(received, failed.value));
      }
    }

    /**
      Takes new sources, all or nothing. When it fails, the listeners are the same objects with the
      same routes, every socket opened on the way is closed, and only the statuses of the sources
      at the failing endpoint are replaced. When it succeeds, there is a listener for exactly the
      endpoints wanted, one that was there before is kept with its new routes, every other one is
      closed, and what each source has received so far is carried over. It fails only if a directory
      or a socket did, or if the rules of an endpoint make no table.
     */
    method ApplySources(sources: seq<LogSource>) returns (r: Result)
      requires Valid()
      modifies this, sockets
      ensures Valid() && sockets >= old(sockets) && fresh(sockets - old(sockets))
      ensures r.Failed? ==>
                && r.endpoint in Endpoints(Received(sources))
                && (old(faults) < faults || !Routing.Buildable(At(Received(sources), r.endpoint), parser))
                && listeners == old(listeners)
                && (forall l <- old(sockets) :: l.isOpen == old(l.isOpen) && l.routes == old(l.routes))
                && (forall l <- sockets - old(sockets) :: !l.isOpen)
                && statuses == WithErrors(old(statuses), At(Received(sources), r.endpoint))
      ensures r.Applied? ==>
                && listeners.Keys == Endpoints(Received(sources))
                && (forall k <- listeners :: k in old(listeners) ==> listeners[k] == old(listeners)[k])
                && (forall k <- listeners :: k !in old(listeners) ==> fresh(listeners[k]))
                && (forall k <- listeners :: IsTableAt(listeners[k].routes, Received(sources), k, parser))
                && (forall k <- old(listeners) :: k !in listeners ==> !old(listeners)[k].isOpen)
                && statuses == NextStatuses(Received(sources), old(statuses))
                && ServesExactly(sources, listeners.Keys, statuses)
    {
      ghost var previous := statuses;
      r := ApplyReceived(sources);
      if r.Applied? {
        AppliedServes(sources, previous, listeners.Keys, statuses);
      }
    }

    /** Stops receiving: closes every socket and keeps the counters. */
    method Close()
      requires Valid()
      modifies this, sockets
      ensures Valid() && listeners == map[] && sockets == old(sockets) && forall l <- sockets :: !l.isOpen
      ensures statuses == map id | id in old(statuses) :: old(statuses)[id].(running := false)
    {
      statuses := map id | id in statuses :: statuses[id].(running := false);
      Replace(map[]);
    }
  }

  ghost predicate IsAmong(id: string, sources: seq<LogSource>) {
    exists s :: s in sources && s.sourceId == id
  }

  /** After a success, exactly the received sources have a status; it runs, shows no error and has the counters it had. */
  lemma {:induction false} CountersAreCarried(sources: seq<LogSource>, previous: map<string, Status>, id: string)
    ensures id in NextStatuses(sources, previous) <==> IsAmong(id, sources)
    ensures IsAmong(id, sources) ==>
              var status := NextStatuses(sources, previous)[id];
              && status.sourceId == id && status.running && !status.failed
              && status.counters == if id in previous then previous[id].counters else NO_COUNTERS
  {
    if sources != [] {
      CountersAreCarried(sources[..|sources| - 1], previous, id);
      assert sources == sources[..|sources| - 1] + [sources[|sources| - 1]];
    }
  }

  /**
    After a failure, a source keeps its status exactly when it is not at the failing endpoint; the
    others lose what they had received so far.
   */
  lemma {:induction false} ErrorsLoseCounters(statuses: map<string, Status>, sources: seq<LogSource>, id: string)
    ensures IsAmong(id, sources) ==>
              && id in WithErrors(statuses, sources)
              && var status := WithErrors(statuses, sources)[id];
                 status.failed && !status.running && status.counters == NO_COUNTERS
    ensures !IsAmong(id, sources) ==>
              && (id in WithErrors(statuses, sources) <==> id in statuses)
              && (id in statuses ==> WithErrors(statuses, sources)[id] == statuses[id])
  {
    if sources != [] {
      ErrorsLoseCounters(statuses, sources[..|sources| - 1], id);
      assert sources == sources[..|sources| - 1] + [sources[|sources| - 1]];
    }
  }

  /** Every received source is a source that should be received, trimmed. */
  lemma {:induction false} ReceivedAreTrimmed(sources: seq<LogSource>, t: LogSource) returns (s: LogSource)
    requires t in Received(sources)
    ensures s in sources && LSS.ShouldReceive(s) && t == Trimmed(s)
  {
    var front, last := sources[..|sources| - 1], sources[|sources| - 1];
    if t in Received(front) {
      s := ReceivedAreTrimmed(front, t);
    } else {
      s := last;
    }
  }

  lemma {:induction false} WantedAreAmongReceived(sources: seq<LogSource>, s: LogSource)
    requires s in sources && LSS.ShouldReceive(s)
    ensures Trimmed(s) in Received(sources)
  {
    var front, last := sources[..|sources| - 1], sources[|sources| - 1];
    if s in front {
      WantedAreAmongReceived(front, s);
    }
  }

  /** The status of a source that is served, told by the source. */
  predicate IsStatusOf(status: Status, s: LogSource) {
    && status.sourceId == s.sourceId && status.running && !status.failed
    && LSS.Endpoint(status.protocol, status.host, status.port) == LSS.ReceiverEndpoint(s)
    && status.spoolDir == Text.Trim(s.spoolDir) && status.clientIp == Text.Trim(s.clientIp)
  }

  ghost predicate IsAskedFor(sources: seq<LogSource>, k: Endpoint) {
    exists s :: s in sources && LSS.ShouldReceive(s) && LSS.ReceiverEndpoint(s) == k
  }

  ghost predicate IsReceived(sources: seq<LogSource>, id: string) {
    exists s :: s in sources && LSS.ShouldReceive(s) && s.sourceId == id
  }

  ghost predicate IsStatusAmong(sources: seq<LogSource>, status: Status) {
    exists s :: s in sources && LSS.ShouldReceive(s) && IsStatusOf(status, s)
  }

  /** Listeners at exactly the endpoints of the sources to be received, and statuses of exactly those sources. */
  ghost predicate ServesExactly(sources: seq<LogSource>, endpoints: set<Endpoint>, statuses: map<string, Status>) {
    && (forall k {:trigger IsAskedFor(sources, k)} :: k in endpoints <==> IsAskedFor(sources, k))
    && (forall id {:trigger IsReceived(sources, id)} :: id in statuses <==> IsReceived(sources, id))
    && (forall id {:trigger statuses[id]} :: id in statuses ==> statuses[id].sourceId == id && IsStatusAmong(sources, statuses[id]))
  }

  lemma {:induction false} StatusesAreOfReceived(received: seq<LogSource>, previous: map<string, Status>, id: string)
    requires id in NextStatuses(received, previous)
    ensures exists t :: t in received && t.sourceId == id && NextStatuses(received, previous)[id] == RunningStatus(t, previous)
  {
    var front, last := received[..|received| - 1], received[|received| - 1];
    if last.sourceId == id {
      assert last in received;
    } else {
      StatusesAreOfReceived(front, previous, id);
      var t :| t in front && t.sourceId == id && NextStatuses(front, previous)[id] == RunningStatus(t, previous);
      assert t in received;
    }
  }

  lemma TrimmedStatus(s: LogSource, previous: map<string, Status>)
    ensures IsStatusOf(RunningStatus(Trimmed(s), previous), s) && LSS.EndpointOf(Trimmed(s)) == LSS.ReceiverEndpoint(s)
  {
  }

  lemma AsksAreEndpoints(sources: seq<LogSource>, k: Endpoint)
    ensures k in Endpoints(Received(sources)) <==> IsAskedFor(sources, k)
  {
    if k in Endpoints(Received(sources)) {
      var t :| t in Received(sources) && LSS.EndpointOf(t) == k;
      var s := ReceivedAreTrimmed(sources, t);
      TrimmedStatus(s, map[]);
    }
    if IsAskedFor(sources, k) {
      var s :| s in sources && LSS.ShouldReceive(s) && LSS.ReceiverEndpoint(s) == k;
      WantedAreAmongReceived(sources, s);
      TrimmedStatus(s, map[]);
    }
  }

  lemma StatusesAreKept(sources: seq<LogSource>, previous: map<string, Status>, id: string)
    ensures id in NextStatuses(Received(sources), previous) <==> IsReceived(sources, id)
    ensures id in NextStatuses(Received(sources), previous) ==>
              var status := NextStatuses(Received(sources), previous)[id];
              status.sourceId == id && IsStatusAmong(sources, status)
  {
    if id in NextStatuses(Received(sources), previous) {
      StatusesAreOfReceived(Received(sources), previous, id);
      var t :| t in Received(sources) && t.sourceId == id && NextStatuses(Received(sources), previous)[id] == RunningStatus(t, previous);
      var s := ReceivedAreTrimmed(sources, t);
      TrimmedStatus(s, previous);
    }
    if IsReceived(sources, id) {
      var s :| s in sources && LSS.ShouldReceive(s) && s.sourceId == id;
      WantedAreAmongReceived(sources, s);
      CountersAreCarried(Received(sources), previous, id);
    }
  }

  lemma AppliedServes(sources: seq<LogSource>, previous: map<string, Status>, endpoints: set<Endpoint>, statuses: map<string, Status>)
    requires endpoints == Endpoints(Received(sources)) && statuses == NextStatuses(Received(sources), previous)
    ensures ServesExactly(sources, endpoints, statuses)
  {
    forall k
      ensures k in endpoints <==> IsAskedFor(sources, k)
    {
      AsksAreEndpoints(sources, k);
    }
    forall id
      ensures id in statuses <==> IsReceived(sources, id)
      ensures id in statuses ==> statuses[id].sourceId == id && IsStatusAmong(sources, statuses[id])
    {
      StatusesAreKept(sources, previous, id);
    }
  }

  predicate IsEnabledReceiver(s: LogSource) {
    s.enabled && s.sourceType == "rsyslog"
  }

  /** With settings that were accepted: a listener at exactly the endpoints in the fields of the enabled rsyslog sources. */
  lemma KeptSourcesHaveListeners(
    sources: seq<LogSource>, endpoints: set<Endpoint>, statuses: map<string, Status>, parser: Routing.Parser, k: Endpoint)
    requires ServesExactly(sources, endpoints, statuses) && forall s <- sources :: LSS.IsKept(s, parser)
    ensures k in endpoints <==>
              exists s :: s in sources && IsEnabledReceiver(s) && k == LSS.Endpoint(s.listenProtocol, s.listenHost, s.listenPort)
  {
    assert k in endpoints <==> IsAskedFor(sources, k);
    if k in endpoints {
      var s :| s in sources && LSS.ShouldReceive(s) && LSS.ReceiverEndpoint(s) == k;
      LSS.KeptAreReceived(s, parser);
    }
    if s :| s in sources && IsEnabledReceiver(s) && k == LSS.Endpoint(s.listenProtocol, s.listenHost, s.listenPort) {
      LSS.KeptAreReceived(s, parser);
    }
  }

  /** And running statuses under exactly their IDs: with different IDs, a disabled source or one that reads files has none. */
  lemma KeptSourcesHaveStatuses(
    sources: seq<LogSource>, endpoints: set<Endpoint>, statuses: map<string, Status>, parser: Routing.Parser, s: LogSource)
    requires ServesExactly(sources, endpoints, statuses) && forall t <- sources :: LSS.IsKept(t, parser)
    requires s in sources && forall t <- sources :: t.sourceId == s.sourceId ==> t == s
    ensures s.sourceId in statuses <==> s.enabled && s.sourceType == "rsyslog"
    ensures s.sourceId in statuses ==> statuses[s.sourceId].running
  {
    assert s.sourceId in statuses <==> IsReceived(sources, s.sourceId);
    LSS.KeptAreReceived(s, parser);
    if s.sourceId in statuses {
      assert IsStatusAmong(sources, statuses[s.sourceId]);
    }
  }

  lemma TrimmedKeepsRule(s: LogSource, parser: Routing.Parser)
    ensures Routing.RuleOf(Trimmed(s).clientIp, parser) == Routing.RuleOf(s.clientIp, parser)
    ensures LSS.EndpointOf(Trimmed(s)) == LSS.ReceiverEndpoint(s)
  {
  }

  /** A source that may join accepted ones brings a new rule to its endpoint. */
  lemma JoinsWithNewRule(front: seq<LogSource>, last: LogSource, parser: Routing.Parser)
    requires LSS.CanJoin(front, parser, last) && LSS.IsNormalized(last) && LSS.ShouldReceive(last)
    requires forall s <- front :: LSS.IsSound(s, parser) && LSS.IsNormalized(s)
    ensures var t := Trimmed(last);
            && Routing.RuleOf(t.clientIp, parser).Some?
            && Routing.RuleIsNew(At(Received(front), LSS.EndpointOf(t)), parser, Routing.RuleOf(t.clientIp, parser).value)
  {
    TrimmedKeepsRule(last, parser);
    LSS.ReceivedAsChecked(last, parser);
    var at := At(Received(front), LSS.EndpointOf(Trimmed(last)));
    forall t | t in at
      ensures Routing.RuleOf(t.clientIp, parser) != Routing.RuleOf(last.clientIp, parser)
    {
      var s := ReceivedAreTrimmed(front, t);
      TrimmedKeepsRule(s, parser);
      LSS.ReceivedAsChecked(s, parser);
      assert LSS.AreCompatible(s, last, parser);
    }
  }

  lemma AtSnoc(received: seq<LogSource>, t: LogSource, endpoint: Endpoint)
    ensures At(received + [t], endpoint) == At(received, endpoint) + if LSS.EndpointOf(t) == endpoint then [t] else []
  {
  }

  lemma ReceivedSnoc(sources: seq<LogSource>, s: LogSource)
    ensures Received(sources + [s]) == if LSS.ShouldReceive(s) then Received(sources) + [Trimmed(s)] else Received(sources)
  {
  }

  lemma BuildsWithOneMore(front: seq<LogSource>, last: LogSource, endpoint: Endpoint, parser: Routing.Parser)
    requires Routing.Buildable(At(Received(front), endpoint), parser)
    requires LSS.CanJoin(front, parser, last) && LSS.IsNormalized(last)
    requires forall s <- front :: LSS.IsSound(s, parser) && LSS.IsNormalized(s)
    ensures Routing.Buildable(At(Received(front + [last]), endpoint), parser)
  {
    var received := Received(front);
    ReceivedSnoc(front, last);
    if LSS.ShouldReceive(last) {
      var t := Trimmed(last);
      JoinsWithNewRule(front, last, parser);
      AtSnoc(received, t, endpoint);
      if LSS.EndpointOf(t) == endpoint {
        Routing.BuildableSnoc(At(received, endpoint), parser, t);
      }
    }
  }

  /** Where the settings were accepted, building a table never is the reason why `ApplySources` fails. */
  lemma {:induction false} AcceptedSourcesBuild(sources: seq<LogSource>, endpoint: Endpoint, parser: Routing.Parser)
    requires LSS.Acceptable(sources, parser) && forall s <- sources :: LSS.IsNormalized(s)
    ensures Routing.Buildable(At(Received(sources), endpoint), parser)
  {
    if sources != [] {
      var front, last := sources[..|sources| - 1], sources[|sources| - 1];
      assert sources == front + [last];
      LSS.AcceptableSnoc(front, parser, last);
      AcceptedSourcesBuild(front, endpoint, parser);
      BuildsWithOneMore(front, last, endpoint, parser);
    }
  }

  /** After a success, the listener of an endpoint routes every client to the source that is owed it. */
  lemma ClientsAreRouted(table: Routing.Table, received: seq<LogSource>, endpoint: Endpoint, parser: Routing.Parser, ip: Routing.Address)
    requires IsTableAt(table, received, endpoint, parser)
    ensures forall s :: Routing.MatchIn(table, Some(ip)) == Some(s) <==>
                        Routing.IsBest(At(received, endpoint), parser, ip, s)
  {
    Routing.MatchIsBest(table, At(received, endpoint), parser, ip);
  }
}
