/** The check that settings of log sources must pass before they are kept. */
module LogSourceSettings {
  import opened Sources
  import opened Wrappers
  import Routing
  import Text

  datatype Endpoint = Endpoint(protocol: string, host: string, port: int)

  /** The text under which a client rule counts as a duplicate; an address counts as the network of its full length. */
  datatype Key = Star | Bits(v6: bool, bits: seq<bool>)

  function KeyOf(rule: Routing.Rule): Key {
    match rule
    case All => Star
    case Exact(address) => Bits(address.v6, address.bits)
    case Within(network) => Bits(network.v6, network.prefix)
  }

  function NormalizeClientRouteKey(clientIp: string, parser: Routing.Parser): Option<Key> {
    match Routing.RuleOf(clientIp, parser)
    case Some(rule) => Some(KeyOf(rule))
    case None => None
  }

  predicate IsIdChar(c: char) {
    'A' <= c <= 'Z' || 'a' <= c <= 'z' || '0' <= c <= '9' || c == '.' || c == '_' || c == '-'
  }

  predicate IsId(s: string) {
    s != "" && forall k :: 0 <= k < |s| ==> IsIdChar(s[k])
  }

  predicate IsAbsoluteLogPath(path: string) {
    var trimmed := Text.Trim(path);
    trimmed != "" && trimmed[0] == '/'
  }

  function EffectiveStorageSourceId(source: LogSource): string {
    var trimmed := Text.Trim(source.storageSourceId);
    if trimmed != "" then trimmed else source.sourceId
  }

  function EndpointOf(source: LogSource): Endpoint {
    Endpoint(source.listenProtocol, source.listenHost, source.listenPort)
  }

  datatype Problem =
    | InvalidId | DuplicateId | DuplicateStorageId | InvalidProtocol | InvalidPort | InvalidClient
    | SpoolNotAbsolute | ArchiveNotAbsolute | InvalidRetention | DuplicateClient

  datatype Rejection = Rejection(index: nat, problem: Problem)

  predicate IsRsyslog(source: LogSource) {
    source.sourceType == "rsyslog"
  }

  /** What a source must satisfy on its own. */
  predicate IsSound(source: LogSource, parser: Routing.Parser) {
    && IsId(source.sourceId)
    && (IsRsyslog(source) ==>
          && (source.listenProtocol == "udp" || source.listenProtocol == "tcp")
          && 1 <= source.listenPort <= 65535
          && NormalizeClientRouteKey(source.clientIp, parser).Some?
          && IsAbsoluteLogPath(source.spoolDir)
          && (source.archiveDir != "" ==> IsAbsoluteLogPath(source.archiveDir))
          && 0 <= source.archiveRetentionDays <= 3650)
  }

  /** Letters, digits, dots, underscores and hyphens, by their codes. */
  ghost predicate HasIdChars(s: string) {
    forall k :: 0 <= k < |s| ==>
      var c := s[k] as int; 48 <= c <= 57 || 65 <= c <= 90 || 97 <= c <= 122 || c == 45 || c == 46 || c == 95
  }

  /** A slash is the first character that is no white space. */
  ghost predicate BeginsWithSlash(path: string) {
    exists k :: 0 <= k < |path| && path[k] == '/' && Text.IsBlank(path[..k])
  }

  lemma AbsoluteMeaning(path: string)
    ensures IsAbsoluteLogPath(path) <==> BeginsWithSlash(path)
  {
    Text.TrimIs(path);
    var i, j :| Text.IsTrimAt(path, i, j) && Text.Trim(path) == path[i..j];
    if i < j {
      assert Text.Trim(path)[0] == path[i];
    }
    if k :| 0 <= k < |path| && path[k] == '/' && Text.IsBlank(path[..k]) {
      Text.InsideTrim(path, i, j, k);
      assert forall x :: 0 <= x < k ==> path[x] == path[..k][x];
    }
  }

  /** What the settings demand of a source, field by field. */
  lemma SoundMeaning(s: LogSource, parser: Routing.Parser)
    ensures IsSound(s, parser) <==>
              && s.sourceId != "" && HasIdChars(s.sourceId)
              && (s.sourceType == "rsyslog" ==>
                    && s.listenProtocol in {"udp", "tcp"} && 1 <= s.listenPort <= 65535
                    && Routing.RuleOf(s.clientIp, parser).Some?
                    && BeginsWithSlash(s.spoolDir) && (s.archiveDir == "" || BeginsWithSlash(s.archiveDir))
                    && 0 <= s.archiveRetentionDays <= 3650)
  {
    AbsoluteMeaning(s.spoolDir);
    AbsoluteMeaning(s.archiveDir);
    assert IsId(s.sourceId) <==> s.sourceId != "" && HasIdChars(s.sourceId);
  }

  /** Rows of a source are stored under its storage ID, or under its ID if that is blank. */
  lemma StorageIdMeaning(s: LogSource, id: string)
    requires Text.IsTrimOf(id, s.storageSourceId)
    ensures EffectiveStorageSourceId(s) == if Text.IsBlank(s.storageSourceId) then s.sourceId else id
  {
    Text.TrimIsOnly(id, s.storageSourceId);
    Text.BlankIsEmpty(s.storageSourceId);
  }

  /** The addresses that a rule is for. */
  predicate IsFor(rule: Routing.Rule, a: Routing.Address) {
    match rule
    case All => true
    case Exact(address) => a == address
    case Within(network) => Routing.Covers(network, a)
  }

  function Width(v6: bool): nat {
    if v6 then 128 else 32
  }

  predicate IsWellFormed(rule: Routing.Rule) {
    match rule
    case All => true
    case Exact(a) => |a.bits| == Width(a.v6)
    case Within(n) => |n.prefix| <= Width(n.v6)
  }

  /** The first address of a network. */
  function FirstOf(v6: bool, prefix: seq<bool>): (a: Routing.Address)
    requires |prefix| <= Width(v6)
    ensures a.v6 == v6 && |a.bits| == Width(v6) && prefix <= a.bits
  {
    Routing.Address(v6, prefix + seq(Width(v6) - |prefix|, _ => false))
  }

  lemma KeyIsFor(rule: Routing.Rule, a: Routing.Address)
    requires IsWellFormed(rule) && |a.bits| == Width(a.v6)
    ensures IsFor(rule, a) <==> KeyOf(rule).Star? || (KeyOf(rule).v6 == a.v6 && KeyOf(rule).bits <= a.bits)
  {
    if rule.Exact? && rule.address.v6 == a.v6 && rule.address.bits <= a.bits {
      assert rule.address.bits == a.bits;
    }
  }

  /** An address that only one of two networks of a family holds. */
  lemma NetworksDiffer(v6: bool, b: seq<bool>, c: seq<bool>) returns (a: Routing.Address)
    requires |b| <= |c| <= Width(v6) && b != c
    ensures a.v6 == v6 && |a.bits| == Width(v6) && !(b <= a.bits <==> c <= a.bits)
  {
    if b <= c {
      var other := b + [!c[|b|]];
      a := FirstOf(v6, other);
      assert a.bits[|b|] == other[|b|];
      assert b <= a.bits;
    } else {
      a := FirstOf(v6, c);
      assert a.bits[..|b|] == c[..|b|];
    }
  }

  /** Two client rules count as duplicates exactly if they are for the same addresses. */
  lemma KeysTellClients(r: Routing.Rule, q: Routing.Rule)
    requires IsWellFormed(r) && IsWellFormed(q)
    ensures KeyOf(r) == KeyOf(q) <==>
              forall a: Routing.Address :: |a.bits| == Width(a.v6) ==> (IsFor(r, a) <==> IsFor(q, a))
  {
    forall a: Routing.Address | |a.bits| == Width(a.v6)
      ensures KeyOf(r) == KeyOf(q) ==> (IsFor(r, a) <==> IsFor(q, a))
    {
      KeyIsFor(r, a);
      KeyIsFor(q, a);
    }
    if KeyOf(r) != KeyOf(q) {
      var a := SomeDiffers(KeyOf(r), KeyOf(q));
      KeyIsFor(r, a);
      KeyIsFor(q, a);
    }
  }

  lemma SomeDiffers(r: Key, q: Key) returns (a: Routing.Address)
    requires r != q && (r.Bits? ==> |r.bits| <= Width(r.v6)) && (q.Bits? ==> |q.bits| <= Width(q.v6))
    ensures |a.bits| == Width(a.v6)
    ensures !((r.Star? || (r.v6 == a.v6 && r.bits <= a.bits)) <==> (q.Star? || (q.v6 == a.v6 && q.bits <= a.bits)))
  {
    if r.Star? {
      a := FirstOf(!q.v6, []);
    } else if q.Star? {
      a := FirstOf(!r.v6, []);
    } else if r.v6 != q.v6 {
      a := FirstOf(r.v6, r.bits);
    } else if |r.bits| <= |q.bits| {
      a := NetworksDiffer(r.v6, r.bits, q.bits);
    } else {
      a := NetworksDiffer(r.v6, q.bits, r.bits);
    }
  }

  /** What two sources must not share, field by field; a client rule is compared by the addresses it is for. */
  lemma CompatibleMeaning(s: LogSource, t: LogSource, parser: Routing.Parser)
    requires IsSound(s, parser) && IsSound(t, parser)
    requires s.sourceType == "rsyslog" ==> IsWellFormed(Routing.RuleOf(s.clientIp, parser).value)
    requires t.sourceType == "rsyslog" ==> IsWellFormed(Routing.RuleOf(t.clientIp, parser).value)
    ensures AreCompatible(s, t, parser) <==>
              && s.sourceId != t.sourceId && EffectiveStorageSourceId(s) != EffectiveStorageSourceId(t)
              && (s.sourceType == t.sourceType == "rsyslog" && s.listenProtocol == t.listenProtocol
                  && s.listenHost == t.listenHost && s.listenPort == t.listenPort ==>
                    exists a: Routing.Address :: |a.bits| == Width(a.v6)
                      && (IsFor(Routing.RuleOf(s.clientIp, parser).value, a) <==> !IsFor(Routing.RuleOf(t.clientIp, parser).value, a)))
  {
    if s.sourceType == t.sourceType == "rsyslog" {
      KeysTellClients(Routing.RuleOf(s.clientIp, parser).value, Routing.RuleOf(t.clientIp, parser).value);
    }
  }

  predicate UsesRoute(source: LogSource, parser: Routing.Parser, endpoint: Endpoint, key: Key) {
    IsRsyslog(source) && EndpointOf(source) == endpoint && NormalizeClientRouteKey(source.clientIp, parser) == Some(key)
  }

  /** What two sources must not share: IDs, storage IDs, and a client rule at one endpoint. */
  predicate AreCompatible(s: LogSource, t: LogSource, parser: Routing.Parser) {
    && s.sourceId != t.sourceId
    && EffectiveStorageSourceId(s) != EffectiveStorageSourceId(t)
    && (IsRsyslog(s) && IsRsyslog(t) && EndpointOf(s) == EndpointOf(t) ==>
          NormalizeClientRouteKey(s.clientIp, parser) != NormalizeClientRouteKey(t.clientIp, parser))
  }

  ghost predicate Acceptable(sources: seq<LogSource>, parser: Routing.Parser) {
    && (forall i :: 0 <= i < |sources| ==> IsSound(sources[i], parser))
    && (forall i, j :: 0 <= i < j < |sources| ==> AreCompatible(sources[i], sources[j], parser))
  }

  ghost predicate CanJoin(sources: seq<LogSource>, parser: Routing.Parser, source: LogSource) {
    IsSound(source, parser) && forall s <- sources :: AreCompatible(s, source, parser)
  }

  lemma AcceptableSnoc(sources: seq<LogSource>, parser: Routing.Parser, source: LogSource)
    ensures Acceptable(sources + [source], parser) <==> Acceptable(sources, parser) && CanJoin(sources, parser, source)
  {
    var all, n := sources + [source], |sources|;
    assert forall i :: 0 <= i < n ==> all[i] == sources[i];
    if Acceptable(all, parser) {
      forall i, j | 0 <= i < j < n
        ensures AreCompatible(sources[i], sources[j], parser)
      {
        assert AreCompatible(all[i], all[j], parser);
      }
      forall i | 0 <= i < n
        ensures AreCompatible(sources[i], source, parser) && IsSound(sources[i], parser)
      {
        assert AreCompatible(all[i], all[n], parser) && IsSound(all[i], parser);
      }
      assert IsSound(all[n], parser);
    }
  }

  predicate IsTaken(routes: map<Endpoint, map<Key, string>>, endpoint: Endpoint, key: Key) {
    endpoint in routes && key in routes[endpoint]
  }

  ghost predicate HasId(sources: seq<LogSource>, id: string) {
    exists s :: s in sources && s.sourceId == id
  }

  ghost predicate HasStorageId(sources: seq<LogSource>, id: string) {
    exists s :: s in sources && EffectiveStorageSourceId(s) == id
  }

  ghost predicate HasRoute(sources: seq<LogSource>, parser: Routing.Parser, endpoint: Endpoint, key: Key) {
    exists s :: s in sources && UsesRoute(s, parser, endpoint, key)
  }

  /** The three maps hold exactly the IDs, storage IDs and routes of the sources so far. */
  ghost predicate Holds(
    sources: seq<LogSource>, parser: Routing.Parser,
    ids: set<string>, storageIds: map<string, string>, routes: map<Endpoint, map<Key, string>>)
  {
    && (forall x :: x in ids <==> HasId(sources, x))
    && (forall x :: x in storageIds <==> HasStorageId(sources, x))
    && (forall e, k :: IsTaken(routes, e, k) <==> HasRoute(sources, parser, e, k))
  }

  /** The checks on one source, in the order in which the settings make them. */
  function CheckSource(
    source: LogSource, parser: Routing.Parser,
    ids: set<string>, storageIds: map<string, string>, routes: map<Endpoint, map<Key, string>>): Option<Problem>
  {
    if !IsId(source.sourceId) then Some(InvalidId)
    else if source.sourceId in ids then Some(DuplicateId)
    else if EffectiveStorageSourceId(source) in storageIds then Some(DuplicateStorageId)
    else if !IsRsyslog(source) then None
    else if source.listenProtocol != "udp" && source.listenProtocol != "tcp" then Some(InvalidProtocol)
    else if source.listenPort < 1 || source.listenPort > 65535 then Some(InvalidPort)
    else if NormalizeClientRouteKey(source.clientIp, parser).None? then Some(InvalidClient)
    else if !IsAbsoluteLogPath(source.spoolDir) then Some(SpoolNotAbsolute)
    else if source.archiveDir != "" && !IsAbsoluteLogPath(source.archiveDir) then Some(ArchiveNotAbsolute)
    else if source.archiveRetentionDays < 0 || source.archiveRetentionDays > 3650 then Some(InvalidRetention)
    else if IsTaken(routes, EndpointOf(source), NormalizeClientRouteKey(source.clientIp, parser).value) then Some(DuplicateClient)
    else None
  }

  /** What a rejection says of a source and those before it. */
  ghost predicate IsProblem(problem: Problem, sources: seq<LogSource>, source: LogSource, parser: Routing.Parser) {
    match problem
    case InvalidId => !IsId(source.sourceId)
    case DuplicateId => HasId(sources, source.sourceId)
    case DuplicateStorageId => HasStorageId(sources, EffectiveStorageSourceId(source))
    case InvalidProtocol => IsRsyslog(source) && source.listenProtocol !in {"udp", "tcp"}
    case InvalidPort => IsRsyslog(source) && !(1 <= source.listenPort <= 65535)
    case InvalidClient => IsRsyslog(source) && NormalizeClientRouteKey(source.clientIp, parser).None?
    case SpoolNotAbsolute => IsRsyslog(source) && !IsAbsoluteLogPath(source.spoolDir)
    case ArchiveNotAbsolute => IsRsyslog(source) && source.archiveDir != "" && !IsAbsoluteLogPath(source.archiveDir)
    case InvalidRetention => IsRsyslog(source) && !(0 <= source.archiveRetentionDays <= 3650)
    case DuplicateClient => exists s <- sources :: ClashesOnRoute(s, source, parser)
  }

  predicate ClashesOnRoute(s: LogSource, t: LogSource, parser: Routing.Parser) {
    && IsRsyslog(s) && IsRsyslog(t) && EndpointOf(s) == EndpointOf(t)
    && NormalizeClientRouteKey(s.clientIp, parser) == NormalizeClientRouteKey(t.clientIp, parser)
  }

  lemma ChecksExactly(
    sources: seq<LogSource>, parser: Routing.Parser, source: LogSource,
    ids: set<string>, storageIds: map<string, string>, routes: map<Endpoint, map<Key, string>>)
    requires Holds(sources, parser, ids, storageIds, routes)
    ensures CheckSource(source, parser, ids, storageIds, routes).None? <==> CanJoin(sources, parser, source)
    ensures var r := CheckSource(source, parser, ids, storageIds, routes); r.Some? ==> IsProblem(r.value, sources, source, parser)
  {
  }

  function AddRoute(routes: map<Endpoint, map<Key, string>>, source: LogSource, parser: Routing.Parser): map<Endpoint, map<Key, string>> {
    match NormalizeClientRouteKey(source.clientIp, parser)
    case Some(key) =>
      if IsRsyslog(source) then
        var endpoint := EndpointOf(source);
        routes[endpoint := (if endpoint in routes then routes[endpoint] else map[])[key := source.sourceId]]
      else routes
    case None => routes
  }

  lemma RoutesGrow(sources: seq<LogSource>, parser: Routing.Parser, source: LogSource, routes: map<Endpoint, map<Key, string>>)
    requires forall e, k :: IsTaken(routes, e, k) <==> HasRoute(sources, parser, e, k)
    ensures forall e, k :: IsTaken(AddRoute(routes, source, parser), e, k) <==> HasRoute(sources + [source], parser, e, k)
  {
    forall e, k
      ensures IsTaken(AddRoute(routes, source, parser), e, k) <==> HasRoute(sources + [source], parser, e, k)
    {
      assert IsTaken(AddRoute(routes, source, parser), e, k) <==> IsTaken(routes, e, k) || UsesRoute(source, parser, e, k);
      Grows(sources, source);
    }
  }

  lemma Grows(sources: seq<LogSource>, source: LogSource)
    ensures forall s :: s in sources + [source] <==> s in sources || s == source
  {
  }

  lemma HoldsSnoc(
    sources: seq<LogSource>, parser: Routing.Parser, source: LogSource,
    ids: set<string>, storageIds: map<string, string>, routes: map<Endpoint, map<Key, string>>)
    requires Holds(sources, parser, ids, storageIds, routes)
    ensures Holds(
      sources + [source], parser, ids + {source.sourceId},
      storageIds[EffectiveStorageSourceId(source) := source.sourceId], AddRoute(routes, source, parser))
  {
    Grows(sources, source);
    RoutesGrow(sources, parser, source, routes);
    forall x
      ensures HasId(sources + [source], x) <==> HasId(sources, x) || x == source.sourceId
      ensures HasStorageId(sources + [source], x) <==> HasStorageId(sources, x) || x == EffectiveStorageSourceId(source)
    {
    }
  }

  lemma UnacceptableGrows(sources: seq<LogSource>, parser: Routing.Parser, n: nat)
    requires n <= |sources| && !Acceptable(sources[..n], parser)
    ensures !Acceptable(sources, parser)
  {
  }

  /** Accepts exactly the acceptable sources; a rejection names the first source that spoils those before it. */
  method ValidateLogSources(sources: seq<LogSource>, parser: Routing.Parser) returns (r: Option<Rejection>)
    ensures r.None? <==> Acceptable(sources, parser)
    ensures r.Some? ==> r.value.index < |sources|
                        && Acceptable(sources[..r.value.index], parser) && !Acceptable(sources[..r.value.index + 1], parser)
                        && IsProblem(r.value.problem, sources[..r.value.index], sources[r.value.index], parser)
  {
    var ids: set<string> := {};
    var storageIds: map<string, string> := map[];
    var routes: map<Endpoint, map<Key, string>> := map[];
    for i := 0 to |sources|
      invariant Acceptable(sources[..i], parser) && Holds(sources[..i], parser, ids, storageIds, routes)
    {
      var source := sources[i];
      var problem := CheckSource(source, parser, ids, storageIds, routes);
      assert sources[..i + 1] == sources[..i] + [source];
      ChecksExactly(sources[..i], parser, source, ids, storageIds, routes);
      AcceptableSnoc(sources[..i], parser, source);
      if problem.Some? {
        UnacceptableGrows(sources, parser, i + 1);
        return Some(Rejection(i, problem.value));
      }
      HoldsSnoc(sources[..i], parser, source, ids, storageIds, routes);
      ids := ids + {source.sourceId};
      storageIds := storageIds[EffectiveStorageSourceId(source) := source.sourceId];
      routes := AddRoute(routes, source, parser);
    }
    assert sources[..|sources|] == sources;
    return None;
  }

  /** The endpoint at which the receiver listens for a source. */
  function ReceiverEndpoint(source: LogSource): Endpoint {
    Endpoint(Text.Normal(source.listenProtocol), Text.Trim(source.listenHost), source.listenPort)
  }

  predicate ShouldReceive(source: LogSource) {
    var protocol := Text.Normal(source.listenProtocol);
    && source.enabled && Text.Normal(source.sourceType) == "rsyslog"
    && (protocol == "udp" || protocol == "tcp")
    && Text.Trim(source.listenHost) != "" && source.listenPort > 0 && Text.Trim(source.spoolDir) != ""
  }

  /** The receiver serves the enabled sources of its type that name a protocol, a host, a port and a directory. */
  ghost predicate IsWanted(source: LogSource) {
    && source.enabled && Text.ReadsAs(source.sourceType, "rsyslog")
    && (Text.ReadsAs(source.listenProtocol, "udp") || Text.ReadsAs(source.listenProtocol, "tcp"))
    && !Text.IsBlank(source.listenHost) && source.listenPort > 0 && !Text.IsBlank(source.spoolDir)
  }

  lemma WantedAreReceived(source: LogSource)
    ensures ShouldReceive(source) <==> IsWanted(source)
  {
    Text.NormalReads(source.sourceType, "rsyslog");
    Text.NormalReads(source.listenProtocol, "udp");
    Text.NormalReads(source.listenProtocol, "tcp");
    Text.BlankIsEmpty(source.listenHost);
    Text.BlankIsEmpty(source.spoolDir);
  }

  /** It listens for them at the endpoint they name, whatever the letter case and the white space. */
  lemma ReceivedWhereAsked(source: LogSource)
    requires ShouldReceive(source)
    ensures var endpoint := ReceiverEndpoint(source);
            && endpoint.protocol in {"udp", "tcp"} && Text.ReadsAs(source.listenProtocol, endpoint.protocol)
            && Text.IsTrimOf(endpoint.host, source.listenHost) && endpoint.port == source.listenPort
  {
    Text.NormalReads(source.listenProtocol, "udp");
    Text.NormalReads(source.listenProtocol, "tcp");
    Text.TrimIs(source.listenHost);
  }

  /** The form in which accepted settings keep a source. */
  predicate IsKept(source: LogSource, parser: Routing.Parser) {
    IsNormalized(source) && IsSound(source, parser) && (source.sourceType == "rsyslog" ==> source.listenHost != "")
  }

  /** Of the sources that accepted settings keep, exactly the enabled rsyslog sources are served, at the endpoint in their fields. */
  lemma KeptAreReceived(source: LogSource, parser: Routing.Parser)
    requires IsKept(source, parser)
    ensures ShouldReceive(source) <==> source.enabled && source.sourceType == "rsyslog"
    ensures ShouldReceive(source) ==>
              ReceiverEndpoint(source) == Endpoint(source.listenProtocol, source.listenHost, source.listenPort)
  {
    NameIsKept(source.sourceType);
    NameIsKept(source.listenProtocol);
    if ShouldReceive(source) {
      ReceivedAsChecked(source, parser);
    }
  }

  /** The form in which settings keep a source's type and host. */
  predicate IsNormalized(source: LogSource) {
    (source.sourceType == "rsyslog" || source.sourceType == "file") && Text.IsTrimmed(source.listenHost)
  }

  lemma NameIsKept(name: string)
    ensures name == "rsyslog" || name == "file" || name == "udp" || name == "tcp" ==> Text.Normal(name) == name
  {
    if Text.IsTrimmed(name) && Text.IsLower(name) {
      Text.NormalKeeps(name);
    }
  }

  lemma ReceivedAsChecked(source: LogSource, parser: Routing.Parser)
    requires IsNormalized(source) && IsSound(source, parser) && ShouldReceive(source)
    ensures IsRsyslog(source) && ReceiverEndpoint(source) == EndpointOf(source)
    ensures Routing.RuleOf(source.clientIp, parser).Some?
  {
    NameIsKept(source.sourceType);
    NameIsKept(source.listenProtocol);
  }
}
