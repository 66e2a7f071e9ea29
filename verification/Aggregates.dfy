/**
  The rows of `nat_logs` and the three aggregate tables that materialised views keep up to date.
  A view turns each inserted block into aggregate rows; the engines of the target tables add them
  up. A table is represented by what a query that groups and adds up its rows reads.
 */
module Aggregates {
  import opened Order

  /** A partition: all the tables are partitioned by source and date. */
  datatype Key = Key(source: string, date: int)

  datatype Payload = Payload(
    timestamp: int, srcIP: nat, srcPort: nat, dstIP: nat, dstPort: nat, natIP: nat, natPort: nat,
    protocol: string, action: string)

  datatype Row = Row(key: Key, logTag: string, file: string, offset: nat, payload: Payload)

  datatype Dimension = SrcIP | DstIP | DstSubnet

  datatype IPGroup = IPGroup(logTag: string, dimension: Dimension, address: nat)

  datatype Flow = Flow(srcIP: nat, srcPort: nat, dstIP: nat, dstPort: nat, protocol: string)

  /** The sum, max and argMax states of one group of `access_trend_daily_flows`. */
  datatype FlowState = FlowState(rows: nat, lastSeen: int, natAt: Position, natIP: nat, natPort: nat)

  const IPV4_MAPPED := 0xFFFF
  const LOW_32 := 0x1_0000_0000
  const LOW_64 := 0x1_0000_0000_0000_0000

  /** `cutIPv6(dst_ip, 8, 1)`: the last byte of a mapped IPv4 address, else the last eight bytes, are zeroed. */
  function Subnet(address: nat): nat {
    if address / LOW_32 == IPV4_MAPPED then address - address % 256 else address - address % LOW_64
  }

  function Tags(rows: seq<Row>): (tags: seq<string>)
    ensures |tags| == |rows|
  {
    seq(|rows|, i requires 0 <= i < |rows| => rows[i].logTag)
  }

  function IPGroupsOf(rows: seq<Row>, dimension: Dimension): (groups: seq<IPGroup>)
    ensures |groups| == |rows|
  {
    seq(|rows|, i requires 0 <= i < |rows| =>
      var payload := rows[i].payload;
      IPGroup(rows[i].logTag, dimension,
              match dimension
              case SrcIP => payload.srcIP
              case DstIP => payload.dstIP
              case DstSubnet => Subnet(payload.dstIP)))
  }

  /** The rows that the three per-address views add, each group as often as the view counts it. */
  function IPCounts(rows: seq<Row>): multiset<IPGroup> {
    multiset(IPGroupsOf(rows, SrcIP)) + multiset(IPGroupsOf(rows, DstIP)) + multiset(IPGroupsOf(rows, DstSubnet))
  }

  function FlowOf(row: Row): Flow {
    var p := row.payload;
    Flow(p.srcIP, p.srcPort, p.dstIP, p.dstPort, p.protocol)
  }

  function PositionOf(row: Row): Position {
    Position(row.payload.timestamp, row.key.source, row.file, row.offset)
  }

  function Single(row: Row): FlowState {
    FlowState(1, row.payload.timestamp, PositionOf(row), row.payload.natIP, row.payload.natPort)
  }

  function Combine(a: FlowState, b: FlowState): FlowState {
    var later := if Before(a.natAt, b.natAt) then b else a;
    FlowState(a.rows + b.rows, if a.lastSeen < b.lastSeen then b.lastSeen else a.lastSeen,
              later.natAt, later.natIP, later.natPort)
  }

  function AddFlow(table: map<Flow, FlowState>, row: Row): map<Flow, FlowState> {
    var flow := FlowOf(row);
    table[flow := if flow in table then Combine(table[flow], Single(row)) else Single(row)]
  }

  /** What the flow view computes from a block of inserted rows. */
  function FlowView(rows: seq<Row>): map<Flow, FlowState> {
    if rows == [] then map[] else AddFlow(FlowView(rows[..|rows| - 1]), rows[|rows| - 1])
  }

  /** What the engine makes of a table and newly inserted partial states. */
  function MergeFlows(table: map<Flow, FlowState>, added: map<Flow, FlowState>): map<Flow, FlowState> {
    map flow | flow in table.Keys + added.Keys ::
      if flow !in added then table[flow]
      else if flow !in table then added[flow]
      else Combine(table[flow], added[flow])
  }

  lemma CombineIsAssociative(a: FlowState, b: FlowState, c: FlowState)
    ensures Combine(Combine(a, b), c) == Combine(a, Combine(b, c))
  {
    BeforeIsTotal(a.natAt, b.natAt);
    BeforeIsTotal(b.natAt, c.natAt);
    BeforeIsTotal(a.natAt, c.natAt);
    if Before(a.natAt, b.natAt) && Before(b.natAt, c.natAt) {
      BeforeIsTransitive(a.natAt, b.natAt, c.natAt);
    }
    if Before(a.natAt, c.natAt) && Before(c.natAt, b.natAt) {
      BeforeIsTransitive(a.natAt, c.natAt, b.natAt);
    }
  }

  lemma MergeAddFlow(table: map<Flow, FlowState>, added: map<Flow, FlowState>, row: Row)
    ensures MergeFlows(table, AddFlow(added, row)) == AddFlow(MergeFlows(table, added), row)
  {
    var flow := FlowOf(row);
    if flow in table && flow in added {
      CombineIsAssociative(table[flow], added[flow], Single(row));
    }
  }

  /** However the rows are cut into blocks, merging the views of the blocks gives the view of all the rows. */
  lemma {:induction false} FlowViewOfBlocks(a: seq<Row>, b: seq<Row>)
    ensures MergeFlows(FlowView(a), FlowView(b)) == FlowView(a + b)
  {
    if b == [] {
      assert a + b == a;
      assert MergeFlows(FlowView(a), map[]) == FlowView(a);
    } else {
      var front, last := b[..|b| - 1], b[|b| - 1];
      FlowViewOfBlocks(a, front);
      MergeAddFlow(FlowView(a), FlowView(front), last);
      assert (a + b)[..|a + b| - 1] == a + front;
    }
  }

  /** How many of the rows have a property. */
  function CountRows(rows: seq<Row>, has: Row -> bool): nat {
    if rows == [] then 0
    else CountRows(rows[..|rows| - 1], has) + if has(rows[|rows| - 1]) then 1 else 0
  }

  predicate IsOfFlow(r: Row, flow: Flow) {
    && r.payload.srcIP == flow.srcIP && r.payload.srcPort == flow.srcPort
    && r.payload.dstIP == flow.dstIP && r.payload.dstPort == flow.dstPort
    && r.payload.protocol == flow.protocol
  }

  predicate IsAt(r: Row, p: Position) {
    && r.payload.timestamp == p.timestamp && r.key.source == p.source && r.file == p.file && r.offset == p.offset
  }

  lemma FlowIsOfRow(r: Row, flow: Flow)
    ensures FlowOf(r) == flow <==> IsOfFlow(r, flow)
    ensures IsAt(r, PositionOf(r))
  {
  }

  /** What the flow table holds of a flow, told by the rows: their number, the last time, and the translation of the last row. */
  ghost predicate IsStateOf(state: FlowState, rows: seq<Row>, flow: Flow) {
    && state.rows == CountRows(rows, (r: Row) => IsOfFlow(r, flow))
    && (forall r <- rows :: IsOfFlow(r, flow) ==>
          r.payload.timestamp <= state.lastSeen && !Before(state.natAt, Position(r.payload.timestamp, r.key.source, r.file, r.offset)))
    && IsSeen(state, rows, flow)
  }

  /** The last time and the translation are those of rows of the flow. */
  ghost predicate IsSeen(state: FlowState, rows: seq<Row>, flow: Flow) {
    && (exists r <- rows :: IsOfFlow(r, flow) && r.payload.timestamp == state.lastSeen)
    && (exists r <- rows :: IsOfFlow(r, flow) && IsAt(r, state.natAt)
                         && r.payload.natIP == state.natIP && r.payload.natPort == state.natPort)
  }

  lemma SeenGrows(state: FlowState, front: seq<Row>, last: Row, flow: Flow)
    requires IsSeen(state, front, flow)
    ensures IsSeen(state, front + [last], flow)
    ensures IsOfFlow(last, flow) ==> IsSeen(Combine(state, Single(last)), front + [last], flow)
  {
    var rows := front + [last];
    var a :| a in front && IsOfFlow(a, flow) && a.payload.timestamp == state.lastSeen;
    var b :| b in front && IsOfFlow(b, flow) && IsAt(b, state.natAt)
             && b.payload.natIP == state.natIP && b.payload.natPort == state.natPort;
    assert a in rows && b in rows && last in rows;
  }

  lemma FlowOfOneRow(row: Row, flow: Flow)
    requires IsOfFlow(row, flow)
    ensures IsStateOf(Single(row), [row], flow)
  {
    BeforeIsTotal(PositionOf(row), PositionOf(row));
    assert row in [row] && [row][..0] == [];
  }

  lemma LatestStays(state: FlowState, last: Row, r: Row)
    requires r == last || !Before(state.natAt, PositionOf(r))
    ensures !Before(Combine(state, Single(last)).natAt, PositionOf(r))
  {
    BeforeIsTotal(PositionOf(last), PositionOf(last));
    if Before(state.natAt, PositionOf(last)) && Before(PositionOf(last), PositionOf(r)) {
      BeforeIsTransitive(state.natAt, PositionOf(last), PositionOf(r));
    }
  }

  /** One more row of the flow. */
  lemma FlowGrows(state: FlowState, front: seq<Row>, last: Row, flow: Flow)
    requires IsStateOf(state, front, flow) && IsOfFlow(last, flow)
    ensures IsStateOf(Combine(state, Single(last)), front + [last], flow)
  {
    var rows := front + [last];
    assert rows[..|rows| - 1] == front && last in rows;
    forall r | r in rows && IsOfFlow(r, flow)
      ensures !Before(Combine(state, Single(last)).natAt, PositionOf(r))
    {
      LatestStays(state, last, r);
    }
    SeenGrows(state, front, last, flow);
  }

  /** A row of another flow changes nothing. */
  lemma FlowStays(state: FlowState, front: seq<Row>, last: Row, flow: Flow)
    requires IsStateOf(state, front, flow) && !IsOfFlow(last, flow)
    ensures IsStateOf(state, front + [last], flow)
  {
    var rows := front + [last];
    assert rows[..|rows| - 1] == front;
    SeenGrows(state, front, last, flow);
  }

  lemma {:induction false} NoRowOfFlow(rows: seq<Row>, flow: Flow)
    requires forall r <- rows :: !IsOfFlow(r, flow)
    ensures flow !in FlowView(rows)
  {
    if rows != [] {
      NoRowOfFlow(rows[..|rows| - 1], flow);
      FlowIsOfRow(rows[|rows| - 1], flow);
    }
  }

  /** The flow table has exactly the flows of the rows, each with what the rows say of it. */
  lemma {:induction false} FlowViewMeaning(rows: seq<Row>, flow: Flow)
    ensures flow in FlowView(rows) <==> exists r <- rows :: IsOfFlow(r, flow)
    ensures flow in FlowView(rows) ==> IsStateOf(FlowView(rows)[flow], rows, flow)
  {
    if r :| r in rows && IsOfFlow(r, flow) {
      var front, last := rows[..|rows| - 1], rows[|rows| - 1];
      assert rows == front + [last];
      FlowViewMeaning(front, flow);
      if !IsOfFlow(last, flow) {
        FlowStays(FlowView(front)[flow], front, last, flow);
      } else if flow in FlowView(front) {
        FlowGrows(FlowView(front)[flow], front, last, flow);
      } else {
        OnlyRowOfFlow(front, last, flow);
      }
    } else {
      NoRowOfFlow(rows, flow);
    }
  }

  lemma OnlyRowOfFlow(front: seq<Row>, last: Row, flow: Flow)
    requires (forall r <- front :: !IsOfFlow(r, flow)) && IsOfFlow(last, flow)
    ensures IsStateOf(Single(last), front + [last], flow)
  {
    FlowOfOneRow(last, flow);
    var rows := front + [last];
    assert rows[..|rows| - 1] == front && last in rows;
    CountsNone(front, (r: Row) => IsOfFlow(r, flow));
    BeforeIsTotal(PositionOf(last), PositionOf(last));
  }

  lemma {:induction false} CountsNone(rows: seq<Row>, has: Row -> bool)
    requires forall r <- rows :: !has(r)
    ensures CountRows(rows, has) == 0
  {
    if rows != [] {
      CountsNone(rows[..|rows| - 1], has);
    }
  }

  /** A list that has `x` exactly where the rows have a property has it as often. */
  lemma {:induction false} CountsWhere<T>(rows: seq<Row>, xs: seq<T>, x: T, has: Row -> bool)
    requires |xs| == |rows| && forall i :: 0 <= i < |rows| ==> (xs[i] == x <==> has(rows[i]))
    ensures multiset(xs)[x] == CountRows(rows, has)
  {
    if rows != [] {
      var n := |rows| - 1;
      CountsWhere(rows[..n], xs[..n], x, has);
      assert xs == xs[..n] + [xs[n]];
    }
  }

  /**
    `address` is the network that the third view counts: of an IPv4 address (`::ffff:0:0/96`) the
    first 24 of its 32 bits are kept, of any other one the first 64 of 128; the other bits are zero.
   */
  predicate IsSubnetOf(network: nat, address: nat) {
    if 0xFFFF_0000_0000 <= address < 0x1_0000_0000_0000
    then network % 0x100 == 0 && network <= address < network + 0x100
    else network % 0x1_0000_0000_0000_0000 == 0 && network <= address < network + 0x1_0000_0000_0000_0000
  }

  lemma SubnetIs(address: nat, network: nat)
    ensures Subnet(address) == network <==> IsSubnetOf(network, address)
  {
    assert 0xFFFF_0000_0000 <= address < 0x1_0000_0000_0000 <==> address / LOW_32 == IPV4_MAPPED;
    MultipleOf256(address, network);
    MultipleOfLow64(address, network);
  }

  lemma MultipleOf256(a: nat, n: nat)
    ensures n == a - a % 256 <==> n % 256 == 0 && n <= a < n + 256
  {
    var q, k := a / 256, n / 256;
    assert a == q * 256 + a % 256 && n == k * 256 + n % 256;
    if n % 256 == 0 && n <= a < n + 256 {
      assert k <= q < k + 1;
    }
  }

  lemma MultipleOfLow64(a: nat, n: nat)
    ensures n == a - a % LOW_64 <==> n % LOW_64 == 0 && n <= a < n + LOW_64
  {
    var q, k := a / LOW_64, n / LOW_64;
    assert a == q * LOW_64 + a % LOW_64 && n == k * LOW_64 + n % LOW_64;
    if n % LOW_64 == 0 && n <= a < n + LOW_64 {
      assert k <= q < k + 1;
    }
  }

  /** What the totals and the address counts of a partition say of its rows. */
  lemma CountsMeaning(rows: seq<Row>, tag: string, address: nat)
    ensures PartitionOf(rows).totals[tag] == CountRows(rows, (r: Row) => r.logTag == tag)
    ensures PartitionOf(rows).ipCounts[IPGroup(tag, SrcIP, address)]
         == CountRows(rows, (r: Row) => r.logTag == tag && r.payload.srcIP == address)
    ensures PartitionOf(rows).ipCounts[IPGroup(tag, DstIP, address)]
         == CountRows(rows, (r: Row) => r.logTag == tag && r.payload.dstIP == address)
    ensures PartitionOf(rows).ipCounts[IPGroup(tag, DstSubnet, address)]
         == CountRows(rows, (r: Row) => r.logTag == tag && IsSubnetOf(address, r.payload.dstIP))
  {
    CountsWhere(rows, Tags(rows), tag, (r: Row) => r.logTag == tag);
    var sources, targets, networks := IPGroupsOf(rows, SrcIP), IPGroupsOf(rows, DstIP), IPGroupsOf(rows, DstSubnet);
    CountsWhere(rows, sources, IPGroup(tag, SrcIP, address), (r: Row) => r.logTag == tag && r.payload.srcIP == address);
    CountsWhere(rows, targets, IPGroup(tag, DstIP, address), (r: Row) => r.logTag == tag && r.payload.dstIP == address);
    forall i | 0 <= i < |rows|
      ensures networks[i] == IPGroup(tag, DstSubnet, address) <==>
                rows[i].logTag == tag && IsSubnetOf(address, rows[i].payload.dstIP)
    {
      SubnetIs(rows[i].payload.dstIP, address);
    }
    CountsWhere(rows, networks, IPGroup(tag, DstSubnet, address),
                (r: Row) => r.logTag == tag && IsSubnetOf(address, r.payload.dstIP));
    OtherDimensions(rows, IPGroup(tag, SrcIP, address));
    OtherDimensions(rows, IPGroup(tag, DstIP, address));
    OtherDimensions(rows, IPGroup(tag, DstSubnet, address));
  }

  /** Each of the three views counts under its own dimension. */
  lemma OtherDimensions(rows: seq<Row>, group: IPGroup)
    ensures IPCounts(rows)[group] == multiset(IPGroupsOf(rows, group.dimension))[group]
  {
    forall dimension: Dimension | dimension != group.dimension
      ensures multiset(IPGroupsOf(rows, dimension))[group] == 0
    {
      assert forall i :: 0 <= i < |rows| ==> IPGroupsOf(rows, dimension)[i].dimension == dimension;
      assert group !in IPGroupsOf(rows, dimension);
    }
    assert SrcIP != DstIP && DstIP != DstSubnet && SrcIP != DstSubnet;
  }

  /** The rows of one partition in each of the four tables. */
  datatype Partition = Partition(
    rows: seq<Row>, totals: multiset<string>, ipCounts: multiset<IPGroup>, flows: map<Flow, FlowState>)

  const EmptyPartition := Partition([], multiset{}, multiset{}, map[])

  /** A partition whose aggregates are exactly what the views compute from its rows. */
  function PartitionOf(rows: seq<Row>): Partition {
    Partition(rows, multiset(Tags(rows)), IPCounts(rows), FlowView(rows))
  }

  /** Inserting a block feeds every view with that block only. */
  function InsertBlock(p: Partition, block: seq<Row>): Partition {
    Partition(p.rows + block, p.totals + multiset(Tags(block)), p.ipCounts + IPCounts(block),
              MergeFlows(p.flows, FlowView(block)))
  }

  lemma IPGroupsOfBlocks(a: seq<Row>, b: seq<Row>, dimension: Dimension)
    ensures multiset(IPGroupsOf(a + b, dimension)) == multiset(IPGroupsOf(a, dimension)) + multiset(IPGroupsOf(b, dimension))
  {
    assert IPGroupsOf(a + b, dimension) == IPGroupsOf(a, dimension) + IPGroupsOf(b, dimension);
  }

  lemma IPCountsOfBlocks(a: seq<Row>, b: seq<Row>)
    ensures IPCounts(a + b) == IPCounts(a) + IPCounts(b)
  {
    IPGroupsOfBlocks(a, b, SrcIP);
    IPGroupsOfBlocks(a, b, DstIP);
    IPGroupsOfBlocks(a, b, DstSubnet);
  }

  lemma TagsOfBlocks(a: seq<Row>, b: seq<Row>)
    ensures multiset(Tags(a + b)) == multiset(Tags(a)) + multiset(Tags(b))
  {
    assert Tags(a + b) == Tags(a) + Tags(b);
  }

  /** The batch boundaries leave no trace in any of the tables. */
  lemma InsertKeepsAggregates(rows: seq<Row>, block: seq<Row>)
    ensures InsertBlock(PartitionOf(rows), block) == PartitionOf(rows + block)
  {
    FlowViewOfBlocks(rows, block);
    IPCountsOfBlocks(rows, block);
    TagsOfBlocks(rows, block);
  }
}
