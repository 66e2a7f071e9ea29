/**
  The route table of a listening endpoint. Addresses and networks are a family and a sequence of
  bits; how a text reads as either is left open.
 */
module Routing {
  import opened Sources
  import opened Wrappers
  import Text

  datatype Address = Address(v6: bool, bits: seq<bool>)
  datatype Network = Network(v6: bool, prefix: seq<bool>)

  datatype Parser = Parser(ip: string -> Option<Address>, cidr: string -> Option<Network>)

  /** What the client setting of a source stands for. */
  datatype Rule = All | Exact(address: Address) | Within(network: Network)

  function RuleOf(clientIp: string, parser: Parser): Option<Rule> {
    var text := Text.Trim(clientIp);
    if text == "" then Some(All)
    else match parser.ip(text)
      case Some(address) => Some(Exact(address))
      case None =>
        match parser.cidr(text)
        case Some(network) => Some(Within(network))
        case None => None
  }

  /** What a client setting stands for: nothing for every client, else an address if it reads as one, else a network. */
  lemma RuleMeaning(clientIp: string, text: string, parser: Parser)
    requires Text.IsTrimOf(text, clientIp)
    ensures Text.IsBlank(clientIp) ==> RuleOf(clientIp, parser) == Some(All)
    ensures !Text.IsBlank(clientIp) ==>
              && (forall a :: RuleOf(clientIp, parser) == Some(Exact(a)) <==> parser.ip(text) == Some(a))
              && (forall n :: RuleOf(clientIp, parser) == Some(Within(n)) <==> parser.ip(text) == None && parser.cidr(text) == Some(n))
              && (RuleOf(clientIp, parser) == None <==> parser.ip(text) == None && parser.cidr(text) == None)
  {
    Text.TrimIsOnly(text, clientIp);
    Text.BlankIsEmpty(clientIp);
  }

  /** A network holds the addresses of its family that begin with its bits. */
  lemma CoversMeaning(network: Network, ip: Address)
    ensures Covers(network, ip) <==>
              && network.v6 == ip.v6 && |network.prefix| <= |ip.bits|
              && forall k :: 0 <= k < |network.prefix| ==> ip.bits[k] == network.prefix[k]
  {
  }

  predicate Covers(network: Network, ip: Address) {
    network.v6 == ip.v6 && network.prefix <= ip.bits
  }

  datatype Route = Route(source: LogSource, network: Network)

  datatype Table = Table(exact: map<Address, LogSource>, networks: seq<Route>, catchAll: Option<LogSource>)

  /** A table can be built: every client setting reads as a rule and no rule is given twice. */
  ghost predicate Buildable(sources: seq<LogSource>, parser: Parser) {
    && (forall i :: 0 <= i < |sources| ==> RuleOf(sources[i].clientIp, parser).Some?)
    && (forall i, j :: 0 <= i < j < |sources| ==> RuleOf(sources[i].clientIp, parser) != RuleOf(sources[j].clientIp, parser))
  }

  ghost predicate HasRule(sources: seq<LogSource>, parser: Parser, source: LogSource, rule: Rule) {
    source in sources && RuleOf(source.clientIp, parser) == Some(rule)
  }

  /** The table holds exactly the rules of the sources. */
  ghost predicate Represents(table: Table, sources: seq<LogSource>, parser: Parser) {
    && (forall a, s :: (a in table.exact && table.exact[a] == s) <==> HasRule(sources, parser, s, Exact(a)))
    && (forall n, s :: Route(s, n) in table.networks <==> HasRule(sources, parser, s, Within(n)))
    && (forall s :: table.catchAll == Some(s) <==> HasRule(sources, parser, s, All))
  }

  ghost predicate LongestFirst(routes: seq<Route>) {
    forall i, j :: 0 <= i < j < |routes| ==> |routes[i].network.prefix| >= |routes[j].network.prefix|
  }

  /** Inserts a route after those whose prefix is at least as long. */
  function Insert(routes: seq<Route>, r: Route): (sorted: seq<Route>)
    ensures |sorted| == |routes| + 1 && forall x :: x in sorted <==> x in routes || x == r
  {
    if routes == [] || |routes[|routes| - 1].network.prefix| >= |r.network.prefix| then routes + [r]
    else Insert(routes[..|routes| - 1], r) + [routes[|routes| - 1]]
  }

  /** The stable sort by prefix length, longest first. */
  function SortRoutes(routes: seq<Route>): (sorted: seq<Route>)
    ensures |sorted| == |routes| && forall x :: x in sorted <==> x in routes
  {
    if routes == [] then []
    else
      assert forall x :: x in routes <==> x in routes[..|routes| - 1] || x == routes[|routes| - 1];
      Insert(SortRoutes(routes[..|routes| - 1]), routes[|routes| - 1])
  }

  lemma {:induction false} InsertKeepsOrder(routes: seq<Route>, r: Route)
    requires LongestFirst(routes)
    ensures LongestFirst(Insert(routes, r))
  {
    if routes != [] && |routes[|routes| - 1].network.prefix| < |r.network.prefix| {
      var n := |routes| - 1;
      InsertKeepsOrder(routes[..n], r);
      var front := Insert(routes[..n], r);
      forall i | 0 <= i < |front|
        ensures |front[i].network.prefix| >= |routes[n].network.prefix|
      {
        assert front[i] in front;
      }
    }
  }

  lemma {:induction false} SortedLongestFirst(routes: seq<Route>)
    ensures LongestFirst(SortRoutes(routes))
  {
    if routes != [] {
      SortedLongestFirst(routes[..|routes| - 1]);
      InsertKeepsOrder(SortRoutes(routes[..|routes| - 1]), routes[|routes| - 1]);
    }
  }

  ghost predicate RuleIsNew(sources: seq<LogSource>, parser: Parser, rule: Rule) {
    forall s :: !HasRule(sources, parser, s, rule)
  }

  /** One more source with a readable rule keeps the sources buildable exactly when no source has that rule. */
  lemma BuildableSnoc(sources: seq<LogSource>, parser: Parser, last: LogSource)
    ensures Buildable(sources + [last], parser) <==>
            && Buildable(sources, parser)
            && RuleOf(last.clientIp, parser).Some?
            && RuleIsNew(sources, parser, RuleOf(last.clientIp, parser).value)
  {
    var all := sources + [last];
    if Buildable(all, parser) {
      assert all[|sources|] == last;
      forall i | 0 <= i < |sources|
        ensures RuleOf(sources[i].clientIp, parser).Some? && RuleOf(sources[i].clientIp, parser) != RuleOf(last.clientIp, parser)
      {
        assert all[i] == sources[i];
      }
      forall i, j | 0 <= i < j < |sources|
        ensures RuleOf(sources[i].clientIp, parser) != RuleOf(sources[j].clientIp, parser)
      {
        assert all[i] == sources[i] && all[j] == sources[j];
      }
    } else if Buildable(sources, parser) && RuleOf(last.clientIp, parser).Some? && RuleIsNew(sources, parser, RuleOf(last.clientIp, parser).value) {
      forall i | 0 <= i < |sources|
        ensures RuleOf(sources[i].clientIp, parser) != RuleOf(last.clientIp, parser)
      {
        assert !HasRule(sources, parser, sources[i], RuleOf(last.clientIp, parser).value);
      }
    }
  }

  lemma NotBuildableGrows(sources: seq<LogSource>, parser: Parser, n: nat)
    requires n <= |sources| && !Buildable(sources[..n], parser)
    ensures !Buildable(sources, parser)
  {
  }

  function AddRule(table: Table, source: LogSource, rule: Rule): Table {
    match rule
    case All => table.(catchAll := Some(source))
    case Exact(address) => table.(exact := table.exact[address := source])
    case Within(network) => table.(networks := table.networks + [Route(source, network)])
  }

  lemma AddRuleRepresents(table: Table, sources: seq<LogSource>, parser: Parser, source: LogSource, rule: Rule)
    requires Represents(table, sources, parser) && RuleOf(source.clientIp, parser) == Some(rule)
    requires RuleIsNew(sources, parser, rule)
    ensures Represents(AddRule(table, source, rule), sources + [source], parser)
  {
    var all := sources + [source];
    var added := AddRule(table, source, rule);
    forall s, other: Rule
      ensures HasRule(all, parser, s, other) <==> HasRule(sources, parser, s, other) || (s == source && other == rule)
    {
    }
    forall n, s
      ensures Route(s, n) in added.networks <==> HasRule(all, parser, s, Within(n))
    {
      assert HasRule(all, parser, s, Within(n)) <==> HasRule(sources, parser, s, Within(n)) || (s == source && Within(n) == rule);
    }
    forall a, s
      ensures (a in added.exact && added.exact[a] == s) <==> HasRule(all, parser, s, Exact(a))
    {
      assert HasRule(all, parser, s, Exact(a)) <==> HasRule(sources, parser, s, Exact(a)) || (s == source && Exact(a) == rule);
      if rule == Exact(a) {
        assert !HasRule(sources, parser, s, rule);
      }
    }
    forall s
      ensures added.catchAll == Some(s) <==> HasRule(all, parser, s, All)
    {
      assert HasRule(all, parser, s, All) <==> HasRule(sources, parser, s, All) || (s == source && All == rule);
      if rule == All {
        assert !HasRule(sources, parser, s, rule);
      }
    }
  }

  /** Builds the table, or none if a client setting is unreadable or given twice. */
  method BuildRouteTable(sources: seq<LogSource>, parser: Parser) returns (r: Option<Table>)
    ensures r.Some? <==> Buildable(sources, parser)
    ensures r.Some? ==> Represents(r.value, sources, parser) && LongestFirst(r.value.networks)
  {
    var table := Table(map[], [], None);
    var seen: set<Network> := {};
    for i := 0 to |sources|
      invariant Buildable(sources[..i], parser) && Represents(table, sources[..i], parser)
      invariant forall n :: n in seen <==> !RuleIsNew(sources[..i], parser, Within(n))
    {
      var source := sources[i];
      assert sources[..i + 1] == sources[..i] + [source];
      BuildableSnoc(sources[..i], parser, source);
      if !Buildable(sources[..i + 1], parser) {
        NotBuildableGrows(sources, parser, i + 1);
      }
      if Buildable(sources[..i + 1], parser) {
        AddRuleRepresents(table, sources[..i], parser, source, RuleOf(source.clientIp, parser).value);
        SeenGrows(sources[..i], parser, source, RuleOf(source.clientIp, parser).value);
      }
      match RuleOf(source.clientIp, parser)
      case Some(All) =>
        if table.catchAll.Some? {
          assert HasRule(sources[..i], parser, table.catchAll.value, All);
          return None;
        }
        table := table.(catchAll := Some(source));
      case Some(Exact(address)) =>
        if address in table.exact {
          assert HasRule(sources[..i], parser, table.exact[address], Exact(address));
          return None;
        }
        table := table.(exact := table.exact[address := source]);
      case Some(Within(network)) =>
        if network in seen {
          return None;
        }
        seen := seen + {network};
        table := table.(networks := table.networks + [Route(source, network)]);
      case None =>
        return None;
    }
    assert sources[..|sources|] == sources;
    SortedLongestFirst(table.networks);
    return Some(table.(networks := SortRoutes(table.networks)));
  }

  lemma SeenGrows(sources: seq<LogSource>, parser: Parser, source: LogSource, rule: Rule)
    requires RuleOf(source.clientIp, parser) == Some(rule)
    ensures forall other: Rule :: RuleIsNew(sources + [source], parser, other) <==> RuleIsNew(sources, parser, other) && other != rule
  {
    forall other: Rule
      ensures RuleIsNew(sources + [source], parser, other) <==> RuleIsNew(sources, parser, other) && other != rule
    {
      forall s
        ensures HasRule(sources + [source], parser, s, other) <==> HasRule(sources, parser, s, other) || (s == source && other == rule)
      {
      }
      if other == rule {
        assert HasRule(sources + [source], parser, source, other);
      }
    }
  }

  /** The first route whose network covers the address. */
  function FirstCovering(routes: seq<Route>, ip: Address): Option<LogSource> {
    if routes == [] then None
    else if Covers(routes[0].network, ip) then Some(routes[0].source)
    else FirstCovering(routes[1..], ip)
  }

  /** What the table gives for the address of a client, which is none if it could not be read. */
  function MatchIn(table: Table, ip: Option<Address>): Option<LogSource> {
    match ip
    case None => None
    case Some(a) =>
      if a in table.exact then Some(table.exact[a])
      else if FirstCovering(table.networks, a).Some? then FirstCovering(table.networks, a)
      else table.catchAll
  }

  method Match(table: Table, ip: Option<Address>) returns (r: Option<LogSource>)
    ensures r == MatchIn(table, ip)
  {
    if ip == None {
      return None;
    }
    if ip.value in table.exact {
      return Some(table.exact[ip.value]);
    }
    for i := 0 to |table.networks|
      invariant FirstCovering(table.networks, ip.value) == FirstCovering(table.networks[i..], ip.value)
    {
      if Covers(table.networks[i].network, ip.value) {
        return Some(table.networks[i].source);
      }
    }
    if table.catchAll.Some? {
      return table.catchAll;
    }
    return None;
  }

  ghost predicate HasExact(sources: seq<LogSource>, parser: Parser, ip: Address) {
    exists s :: HasRule(sources, parser, s, Exact(ip))
  }

  ghost predicate HasCovering(sources: seq<LogSource>, parser: Parser, ip: Address) {
    exists s, n :: HasRule(sources, parser, s, Within(n)) && Covers(n, ip)
  }

  /** The source has a network that covers the address, and every other network that does is shorter. */
  ghost predicate HasLongest(sources: seq<LogSource>, parser: Parser, ip: Address, source: LogSource) {
    exists n ::
      && HasRule(sources, parser, source, Within(n)) && Covers(n, ip)
      && forall t, m :: HasRule(sources, parser, t, Within(m)) && Covers(m, ip) && t != source ==> |m.prefix| < |n.prefix|
  }

  /** The rule a client is owed: its own address, else the longest network around it, else the catch-all. */
  ghost predicate IsBest(sources: seq<LogSource>, parser: Parser, ip: Address, source: LogSource) {
    if HasExact(sources, parser, ip) then HasRule(sources, parser, source, Exact(ip))
    else if HasCovering(sources, parser, ip) then HasLongest(sources, parser, ip, source)
    else HasRule(sources, parser, source, All)
  }

  lemma {:induction false} FirstCoveringIsLongest(routes: seq<Route>, ip: Address)
    requires LongestFirst(routes)
    ensures FirstCovering(routes, ip).None? ==> forall r <- routes :: !Covers(r.network, ip)
    ensures FirstCovering(routes, ip).Some? ==>
              exists r :: r in routes && Covers(r.network, ip) && r.source == FirstCovering(routes, ip).value
                          && forall q <- routes :: Covers(q.network, ip) ==> |q.network.prefix| <= |r.network.prefix|
  {
    if routes != [] {
      assert forall q <- routes :: q == routes[0] || q in routes[1..];
      if Covers(routes[0].network, ip) {
        assert routes[0] in routes;
      } else {
        FirstCoveringIsLongest(routes[1..], ip);
      }
    }
  }

  /** Two networks of the same length around the same address are the same network. */
  lemma CoveringNetworksNest(n: Network, m: Network, ip: Address)
    requires Covers(n, ip) && Covers(m, ip) && |n.prefix| == |m.prefix|
    ensures n == m
  {
  }

  lemma RulesAreUnique(sources: seq<LogSource>, parser: Parser, s: LogSource, t: LogSource, rule: Rule)
    requires Buildable(sources, parser) && HasRule(sources, parser, s, rule) && HasRule(sources, parser, t, rule)
    ensures s == t
  {
  }

  lemma FirstCoveringIsBest(table: Table, sources: seq<LogSource>, parser: Parser, ip: Address)
    requires Buildable(sources, parser) && Represents(table, sources, parser) && LongestFirst(table.networks)
    ensures FirstCovering(table.networks, ip).Some? <==> HasCovering(sources, parser, ip)
    ensures FirstCovering(table.networks, ip).Some? ==> HasLongest(sources, parser, ip, FirstCovering(table.networks, ip).value)
  {
    FirstCoveringIsLongest(table.networks, ip);
    if FirstCovering(table.networks, ip).Some? {
      var r :| r in table.networks && Covers(r.network, ip) && r.source == FirstCovering(table.networks, ip).value
               && forall q <- table.networks :: Covers(q.network, ip) ==> |q.network.prefix| <= |r.network.prefix|;
      assert Route(r.source, r.network) in table.networks;
      forall t, m | HasRule(sources, parser, t, Within(m)) && Covers(m, ip) && t != r.source
        ensures |m.prefix| < |r.network.prefix|
      {
        assert Route(t, m) in table.networks;
        if |m.prefix| == |r.network.prefix| {
          CoveringNetworksNest(m, r.network, ip);
          RulesAreUnique(sources, parser, t, r.source, Within(m));
        }
      }
    } else {
      forall s, n | HasRule(sources, parser, s, Within(n))
        ensures !Covers(n, ip)
      {
        assert Route(s, n) in table.networks;
      }
    }
  }

  /** There is at most one rule that a client is owed. */
  lemma BestIsUnique(sources: seq<LogSource>, parser: Parser, ip: Address, s: LogSource, t: LogSource)
    requires Buildable(sources, parser) && IsBest(sources, parser, ip, s) && IsBest(sources, parser, ip, t)
    ensures s == t
  {
  }

  lemma ExactIffInTable(table: Table, sources: seq<LogSource>, parser: Parser, ip: Address)
    requires Represents(table, sources, parser)
    ensures ip in table.exact <==> HasExact(sources, parser, ip)
  {
    if ip in table.exact {
      assert HasRule(sources, parser, table.exact[ip], Exact(ip));
    }
  }

  /** The table gives a client exactly the source it is owed, and none when it is owed none. */
  lemma MatchIsBest(table: Table, sources: seq<LogSource>, parser: Parser, ip: Address)
    requires Buildable(sources, parser) && Represents(table, sources, parser) && LongestFirst(table.networks)
    ensures forall s :: MatchIn(table, Some(ip)) == Some(s) <==> IsBest(sources, parser, ip, s)
  {
    FirstCoveringIsBest(table, sources, parser, ip);
    var r := MatchIn(table, Some(ip));
    ExactIffInTable(table, sources, parser, ip);
    forall s
      ensures r == Some(s) <==> IsBest(sources, parser, ip, s)
    {
      if r.Some? && IsBest(sources, parser, ip, s) {
        BestIsUnique(sources, parser, ip, s, r.value);
      }
    }
  }

  /** The order in which the sources are given matters neither for building the table nor for matching. */
  lemma OrderDoesNotMatter(a: seq<LogSource>, b: seq<LogSource>, parser: Parser, tableA: Table, tableB: Table, ip: Option<Address>)
    requires multiset(a) == multiset(b) && Buildable(a, parser)
    requires Represents(tableA, a, parser) && LongestFirst(tableA.networks)
    requires Represents(tableB, b, parser) && LongestFirst(tableB.networks)
    ensures Buildable(b, parser)
    ensures MatchIn(tableA, ip) == MatchIn(tableB, ip)
  {
    forall s
      ensures s in a <==> s in b
    {
      assert s in a <==> s in multiset(a);
    }
    PermutationIsBuildable(a, b, parser);
    if ip.Some? {
      MatchIsBest(tableA, a, parser, ip.value);
      MatchIsBest(tableB, b, parser, ip.value);
      SameRules(a, b, parser, ip.value);
      assert MatchIn(tableA, ip) == None || MatchIn(tableA, ip) == MatchIn(tableB, ip);
    }
  }

  lemma SameRules(a: seq<LogSource>, b: seq<LogSource>, parser: Parser, ip: Address)
    requires forall s :: s in a <==> s in b
    ensures forall s :: IsBest(a, parser, ip, s) <==> IsBest(b, parser, ip, s)
  {
    forall s, rule
      ensures HasRule(a, parser, s, rule) <==> HasRule(b, parser, s, rule)
    {
    }
  }

  lemma PermutationIsBuildable(a: seq<LogSource>, b: seq<LogSource>, parser: Parser)
    requires multiset(a) == multiset(b) && Buildable(a, parser)
    ensures Buildable(b, parser)
  {
    forall i | 0 <= i < |b|
      ensures RuleOf(b[i].clientIp, parser).Some?
    {
      assert b[i] in multiset(b);
      assert b[i] in a;
    }
    forall i, j | 0 <= i < j < |b|
      ensures RuleOf(b[i].clientIp, parser) != RuleOf(b[j].clientIp, parser)
    {
      if RuleOf(b[i].clientIp, parser) == RuleOf(b[j].clientIp, parser) {
        assert b[i] in multiset(b) && b[j] in multiset(b);
        RulesAreUnique(a, parser, b[i], b[j], RuleOf(b[i].clientIp, parser).value);
        TwiceInMultiset(b, i, j);
        OnceInMultiset(a, parser, b[i]);
        assert false;
      }
    }
  }

  lemma TwiceInMultiset(xs: seq<LogSource>, i: nat, j: nat)
    requires i < j < |xs| && xs[i] == xs[j]
    ensures multiset(xs)[xs[i]] >= 2
  {
    assert xs == xs[..j] + [xs[j]] + xs[j + 1..];
    assert xs[..j][i] in xs[..j];
  }

  lemma {:induction false} OnceInMultiset(xs: seq<LogSource>, parser: Parser, x: LogSource)
    requires Buildable(xs, parser)
    ensures multiset(xs)[x] <= 1
  {
    if xs != [] {
      var front, last := xs[..|xs| - 1], xs[|xs| - 1];
      assert xs == front + [last];
      OnceInMultiset(front, parser, x);
      assert forall i :: 0 <= i < |front| ==> front[i] == xs[i] && xs[i] != xs[|xs| - 1];
      assert last !in front;
    }
  }
}
