/**
  Under which ID the rows of a log source are stored. The ID that users see may be changed in the
  settings; the storage ID must follow the source through every accepted change. Reading back
  settings that were written gives what was written.
 */
module SourceIdentity {
  import opened Sources
  import opened Wrappers
  import LSS = LogSourceSettings
  import Routing
  import Text

  /** A source as a client of the settings sends it; `enabled` may be missing. */
  datatype Payload = Payload(
    sourceId: string, storageSourceId: string, serialNumber: string,
    logDir: string, logTag: string, enabled: Option<bool>, sourceType: string,
    listenProtocol: string, listenHost: string, listenPort: int,
    spoolDir: string, clientIp: string, archiveDir: string, archiveRetentionDays: int)

  /** How the settings read client rules, and the spool directory of a source that names none. */
  datatype Rules = Rules(parser: Routing.Parser, spoolFor: string -> string)

  ghost predicate SpoolsAreNamed(rules: Rules) {
    forall id :: rules.spoolFor(id) != "" && Text.IsTrimmed(rules.spoolFor(id))
  }

  function NormalizeLogSourceType(sourceType: string): string {
    if Text.Normal(sourceType) == "rsyslog" then "rsyslog" else "file"
  }

  function NormalizeListenProtocol(protocol: string): string {
    if Text.Normal(protocol) == "tcp" then "tcp" else "udp"
  }

  function OrDefault(s: string, default_: string): string {
    if s == "" then default_ else s
  }

  /** The source that an item stands for; an item without ID, directories and tag is dropped. */
  function NormalizeItem(item: Payload, rules: Rules): Option<LogSource> {
    var id, logDir, logTag, spoolDir, archiveDir :=
      Text.Trim(item.sourceId), Text.Trim(item.logDir), Text.Trim(item.logTag), Text.Trim(item.spoolDir), Text.Trim(item.archiveDir);
    if id == "" && logDir == "" && logTag == "" && spoolDir == "" then None
    else
      var sourceId := OrDefault(id, "default");
      var sourceType := NormalizeLogSourceType(item.sourceType);
      var listens := sourceType == "rsyslog";
      var spool := if listens then OrDefault(spoolDir, rules.spoolFor(sourceId)) else spoolDir;
      Some(LogSource(
        sourceId, OrDefault(Text.Trim(item.storageSourceId), sourceId), Text.Trim(item.serialNumber),
        if listens then OrDefault(archiveDir, spool) else logDir, logTag,
        item.enabled.None? || item.enabled.value, sourceType,
        NormalizeListenProtocol(item.listenProtocol),
        if listens then OrDefault(Text.Trim(item.listenHost), "0.0.0.0") else Text.Trim(item.listenHost),
        if listens && item.listenPort <= 0 then 5514 else item.listenPort,
        spool, Text.Trim(item.clientIp), archiveDir, item.archiveRetentionDays))
  }

  /** The text without the white space around it, or the default if nothing else is there. */
  ghost function TextOr(text: string, default_: string): string {
    if Text.Trim(text) == "" then default_ else Text.Trim(text)
  }

  /** What becomes of every setting of an item, given or missing. */
  ghost predicate IsSourceOf(s: LogSource, item: Payload, rules: Rules) {
    && s.sourceId == TextOr(item.sourceId, "default") && s.storageSourceId == TextOr(item.storageSourceId, s.sourceId)
    && (s.enabled <==> item.enabled != Some(false))
    && s.sourceType == (if Text.Normal(item.sourceType) == "rsyslog" then "rsyslog" else "file")
    && s.listenProtocol == (if Text.Normal(item.listenProtocol) == "tcp" then "tcp" else "udp")
    && s.serialNumber == Text.Trim(item.serialNumber) && s.logTag == Text.Trim(item.logTag)
    && s.clientIp == Text.Trim(item.clientIp) && s.archiveDir == Text.Trim(item.archiveDir)
    && s.archiveRetentionDays == item.archiveRetentionDays
    && (if s.sourceType == "rsyslog" then IsReceiverOf(s, item, rules) else IsReaderOf(s, item))
  }

  /** A source that receives listens at port 5514 of all addresses unless the item says otherwise, and is read where it archives. */
  ghost predicate IsReceiverOf(s: LogSource, item: Payload, rules: Rules) {
    && s.listenHost == TextOr(item.listenHost, "0.0.0.0")
    && s.listenPort == (if item.listenPort > 0 then item.listenPort else 5514)
    && s.spoolDir == TextOr(item.spoolDir, rules.spoolFor(s.sourceId))
    && s.logDir == (if s.archiveDir != "" then s.archiveDir else s.spoolDir)
  }

  ghost predicate IsReaderOf(s: LogSource, item: Payload) {
    && s.listenHost == Text.Trim(item.listenHost) && s.listenPort == item.listenPort
    && s.spoolDir == Text.Trim(item.spoolDir) && s.logDir == Text.Trim(item.logDir)
  }

  /** An item stands for no source exactly if it names neither an ID nor a directory nor a tag; else this is its source. */
  lemma NormalizedItemIs(item: Payload, rules: Rules)
    ensures NormalizeItem(item, rules) == None <==>
              Text.IsBlank(item.sourceId) && Text.IsBlank(item.logDir) && Text.IsBlank(item.logTag) && Text.IsBlank(item.spoolDir)
    ensures NormalizeItem(item, rules).Some? ==> IsSourceOf(NormalizeItem(item, rules).value, item, rules)
  {
    Text.BlankIsEmpty(item.sourceId);
    Text.BlankIsEmpty(item.logDir);
    Text.BlankIsEmpty(item.logTag);
    Text.BlankIsEmpty(item.spoolDir);
  }

  ghost predicate StandsFor(item: Payload, s: LogSource, enabledOnly: bool, rules: Rules) {
    NormalizeItem(item, rules) == Some(s) && (enabledOnly ==> s.enabled)
  }

  /** The sources of a payload are those of its items, and only of the enabled ones if so asked. */
  lemma {:induction false} NormalizedAreOfItems(payload: seq<Payload>, enabledOnly: bool, rules: Rules, s: LogSource)
    ensures s in Normalize(payload, enabledOnly, rules) <==> exists item :: item in payload && StandsFor(item, s, enabledOnly, rules)
  {
    if payload != [] {
      var front, last := payload[..|payload| - 1], payload[|payload| - 1];
      NormalizedAreOfItems(front, enabledOnly, rules, s);
      assert forall item :: item in payload <==> item in front || item == last;
      assert s in Normalize(payload, enabledOnly, rules) <==>
               s in Normalize(front, enabledOnly, rules) || StandsFor(last, s, enabledOnly, rules);
    }
  }

  function Normalize(payload: seq<Payload>, enabledOnly: bool, rules: Rules): seq<LogSource> {
    if payload == [] then []
    else
      var front := Normalize(payload[..|payload| - 1], enabledOnly, rules);
      match NormalizeItem(payload[|payload| - 1], rules)
      case Some(source) => if enabledOnly && !source.enabled then front else front + [source]
      case None => front
  }

  method NormalizeLogSourcePayloads(payload: seq<Payload>, enabledOnly: bool, rules: Rules) returns (sources: seq<LogSource>)
    ensures sources == Normalize(payload, enabledOnly, rules)
  {
    sources := [];
    for i := 0 to |payload|
      invariant sources == Normalize(payload[..i], enabledOnly, rules)
    {
      assert payload[..i + 1][..i] == payload[..i];
      match NormalizeItem(payload[i], rules) {
        case Some(source) =>
          if !enabledOnly || source.enabled {
            sources := sources + [source];
          }
        case None =>
      }
    }
    assert payload[..|payload|] == payload;
  }

  function AsPayload(s: LogSource): Payload {
    Payload(
      s.sourceId, s.storageSourceId, s.serialNumber, s.logDir, s.logTag, Some(s.enabled), s.sourceType,
      s.listenProtocol, s.listenHost, s.listenPort, s.spoolDir, s.clientIp, s.archiveDir, s.archiveRetentionDays)
  }

  function AsPayloads(sources: seq<LogSource>): seq<Payload> {
    if sources == [] then [] else AsPayloads(sources[..|sources| - 1]) + [AsPayload(sources[|sources| - 1])]
  }

  /** The form that normalizing gives a source. */
  predicate HasForm(s: LogSource) {
    && s.sourceId != "" && s.storageSourceId != ""
    && (s.sourceType == "rsyslog" || s.sourceType == "file")
    && (s.listenProtocol == "tcp" || s.listenProtocol == "udp")
    && Text.IsTrimmed(s.sourceId) && Text.IsTrimmed(s.storageSourceId) && Text.IsTrimmed(s.serialNumber)
    && Text.IsTrimmed(s.logDir) && Text.IsTrimmed(s.logTag) && Text.IsTrimmed(s.listenHost)
    && Text.IsTrimmed(s.spoolDir) && Text.IsTrimmed(s.clientIp) && Text.IsTrimmed(s.archiveDir)
    && (s.sourceType == "rsyslog" ==>
          && s.listenHost != "" && s.listenPort > 0 && s.spoolDir != ""
          && s.logDir == OrDefault(s.archiveDir, s.spoolDir))
  }

  lemma DefaultIsTrimmed(s: string, default_: string)
    requires Text.IsTrimmed(default_) && default_ != ""
    ensures OrDefault(Text.Trim(s), default_) != "" && Text.IsTrimmed(OrDefault(Text.Trim(s), default_))
  {
  }

  lemma NormalizedHasForm(item: Payload, rules: Rules)
    requires SpoolsAreNamed(rules)
    ensures NormalizeItem(item, rules).Some? ==> HasForm(NormalizeItem(item, rules).value)
  {
    DefaultIsTrimmed(item.sourceId, "default");
    var sourceId := OrDefault(Text.Trim(item.sourceId), "default");
    DefaultIsTrimmed(item.storageSourceId, sourceId);
    DefaultIsTrimmed(item.listenHost, "0.0.0.0");
    DefaultIsTrimmed(item.spoolDir, rules.spoolFor(sourceId));
  }

  ghost predicate AllHaveForm(sources: seq<LogSource>) {
    forall s {:trigger HasForm(s)} :: s in sources ==> HasForm(s)
  }

  /** Writing a source and reading it back gives the same source. */
  predicate IsStable(s: LogSource, rules: Rules) {
    NormalizeItem(AsPayload(s), rules) == Some(s)
  }

  predicate AllStable(sources: seq<LogSource>, rules: Rules) {
    sources == [] || (AllStable(sources[..|sources| - 1], rules) && IsStable(sources[|sources| - 1], rules))
  }

  lemma FormIsStable(s: LogSource, rules: Rules)
    requires HasForm(s)
    ensures IsStable(s, rules)
  {
    LSS.NameIsKept(s.sourceType);
    LSS.NameIsKept(s.listenProtocol);
  }

  lemma {:induction false} NormalizedHaveForm(payload: seq<Payload>, enabledOnly: bool, rules: Rules)
    requires SpoolsAreNamed(rules)
    ensures AllHaveForm(Normalize(payload, enabledOnly, rules))
  {
    if payload != [] {
      NormalizedHaveForm(payload[..|payload| - 1], enabledOnly, rules);
      NormalizedHasForm(payload[|payload| - 1], rules);
    }
  }

  function EnabledOf(sources: seq<LogSource>): (enabled: seq<LogSource>)
    ensures forall s <- enabled :: s in sources && s.enabled
  {
    if sources == [] then []
    else EnabledOf(sources[..|sources| - 1]) + if sources[|sources| - 1].enabled then [sources[|sources| - 1]] else []
  }

  lemma NormalizeSnoc(front: seq<Payload>, item: Payload, s: LogSource, enabledOnly: bool, rules: Rules)
    requires NormalizeItem(item, rules) == Some(s)
    ensures Normalize(front + [item], enabledOnly, rules) ==
            Normalize(front, enabledOnly, rules) + if enabledOnly && !s.enabled then [] else [s]
  {
  }

  /** Reading back sources that were written gives the same sources. */
  lemma {:induction false} ReadsBackWhatWasWritten(sources: seq<LogSource>, rules: Rules)
    requires AllStable(sources, rules)
    ensures Normalize(AsPayloads(sources), false, rules) == sources
  {
    if sources != [] {
      var front, last := sources[..|sources| - 1], sources[|sources| - 1];
      ReadsBackWhatWasWritten(front, rules);
      NormalizeSnoc(AsPayloads(front), AsPayload(last), last, false, rules);
      assert front + [last] == sources;
    }
  }

  /** Reading back only enabled sources gives the enabled ones of those written. */
  lemma {:induction false} ReadsBackEnabled(sources: seq<LogSource>, rules: Rules)
    requires AllStable(sources, rules)
    ensures Normalize(AsPayloads(sources), true, rules) == EnabledOf(sources)
  {
    if sources != [] {
      var front, last := sources[..|sources| - 1], sources[|sources| - 1];
      ReadsBackEnabled(front, rules);
      NormalizeSnoc(AsPayloads(front), AsPayload(last), last, true, rules);
    }
  }

  lemma {:induction false} FormsAreStable(sources: seq<LogSource>, rules: Rules)
    requires AllHaveForm(sources)
    ensures AllStable(sources, rules)
  {
    if sources != [] {
      FormsAreStable(sources[..|sources| - 1], rules);
      assert HasForm(sources[|sources| - 1]);
      FormIsStable(sources[|sources| - 1], rules);
    }
  }

  /** The directories of a source, by which one that was renamed is recognised. */
  function StoragePath(s: LogSource): (string, string, string) {
    (Text.Trim(s.logDir), Text.Trim(s.spoolDir), Text.Trim(s.archiveDir))
  }

  /** The last source with an ID. */
  function WithId(sources: seq<LogSource>, id: string): (found: Option<LogSource>)
    ensures found.Some? ==> found.value in sources && found.value.sourceId == id
    ensures found.None? ==> forall s <- sources :: s.sourceId != id
  {
    if sources == [] then None
    else if sources[|sources| - 1].sourceId == id then Some(sources[|sources| - 1])
    else WithId(sources[..|sources| - 1], id)
  }

  function AtPath(sources: seq<LogSource>, path: (string, string, string)): (found: seq<LogSource>)
    ensures forall s <- found :: s in sources
  {
    if sources == [] then []
    else AtPath(sources[..|sources| - 1], path) + if StoragePath(sources[|sources| - 1]) == path then [sources[|sources| - 1]] else []
  }

  /** The source that a new one continues: the one with its ID, else the only one with its directories. */
  function Predecessor(source: LogSource, previous: seq<LogSource>): Option<LogSource> {
    var prior, matches := WithId(previous, source.sourceId), AtPath(previous, StoragePath(source));
    if prior.Some? then prior else if |matches| == 1 then Some(matches[0]) else None
  }

  function Adopt(source: LogSource, prior: Option<LogSource>): LogSource {
    match prior
    case Some(s) => source.(storageSourceId := LSS.EffectiveStorageSourceId(s))
    case None => source
  }

  function Inherit(source: LogSource, previous: seq<LogSource>): LogSource {
    Adopt(source, Predecessor(source, previous))
  }

  function InheritAll(sources: seq<LogSource>, previous: seq<LogSource>): seq<LogSource> {
    seq(|sources|, i requires 0 <= i < |sources| => Inherit(sources[i], previous))
  }

  function Find(index: map<string, LogSource>, id: string): Option<LogSource> {
    if id in index then Some(index[id]) else None
  }

  function FindAll(index: map<(string, string, string), seq<LogSource>>, path: (string, string, string)): seq<LogSource> {
    if path in index then index[path] else []
  }

  ghost predicate IndexesIds(index: map<string, LogSource>, sources: seq<LogSource>) {
    forall id :: Find(index, id) == WithId(sources, id)
  }

  ghost predicate IndexesPaths(index: map<(string, string, string), seq<LogSource>>, sources: seq<LogSource>) {
    forall path :: FindAll(index, path) == AtPath(sources, path)
  }

  lemma IndexIdsGrows(index: map<string, LogSource>, sources: seq<LogSource>, source: LogSource)
    requires IndexesIds(index, sources)
    ensures IndexesIds(index[source.sourceId := source], sources + [source])
  {
    assert (sources + [source])[..|sources|] == sources;
    forall id
      ensures Find(index[source.sourceId := source], id) == WithId(sources + [source], id)
    {
      assert Find(index, id) == WithId(sources, id);
    }
  }

  lemma IndexPathsGrows(index: map<(string, string, string), seq<LogSource>>, sources: seq<LogSource>, source: LogSource)
    requires IndexesPaths(index, sources)
    ensures var key := StoragePath(source); IndexesPaths(index[key := FindAll(index, key) + [source]], sources + [source])
  {
    assert (sources + [source])[..|sources|] == sources;
    var key := StoragePath(source);
    forall path
      ensures FindAll(index[key := FindAll(index, key) + [source]], path) == AtPath(sources + [source], path)
    {
      assert FindAll(index, path) == AtPath(sources, path);
    }
  }

  method IndexSources(sources: seq<LogSource>)
    returns (bySourceId: map<string, LogSource>, byPath: map<(string, string, string), seq<LogSource>>)
    ensures IndexesIds(bySourceId, sources) && IndexesPaths(byPath, sources)
  {
    bySourceId, byPath := map[], map[];
    for i := 0 to |sources|
      invariant IndexesIds(bySourceId, sources[..i]) && IndexesPaths(byPath, sources[..i])
    {
      var source := sources[i];
      assert sources[..i + 1] == sources[..i] + [source];
      IndexIdsGrows(bySourceId, sources[..i], source);
      IndexPathsGrows(byPath, sources[..i], source);
      bySourceId := bySourceId[source.sourceId := source];
      byPath := byPath[StoragePath(source) := FindAll(byPath, StoragePath(source)) + [source]];
    }
    assert sources[..|sources|] == sources;
  }

  method InheritStorageSourceIds(sources: seq<LogSource>, previous: seq<LogSource>) returns (r: seq<LogSource>)
    ensures r == InheritAll(sources, previous)
  {
    var bySourceId, byPath := IndexSources(previous);
    r := [];
    for i := 0 to |sources|
      invariant |r| == i && forall k :: 0 <= k < i ==> r[k] == Inherit(sources[k], previous)
    {
      var source := sources[i];
      var prior := Find(bySourceId, source.sourceId);
      if prior.None? {
        var matches := FindAll(byPath, StoragePath(source));
        if |matches| == 1 {
          prior := Some(matches[0]);
        }
      }
      assert prior == Predecessor(source, previous);
      r := r + [Adopt(source, prior)];
    }
  }

  /** What an update makes of the settings: none if it is refused. Settings that were never written give nothing to inherit. */
  ghost function Updated(stored: Option<seq<LogSource>>, payload: seq<Payload>, rules: Rules): Option<seq<LogSource>> {
    var sources := Normalize(payload, false, rules);
    var inherited :=
      if stored.Some? then InheritAll(sources, Normalize(AsPayloads(stored.value), false, rules)) else sources;
    if LSS.Acceptable(inherited, rules.parser) then Some(inherited) else None
  }

  ghost predicate IsKept(sources: seq<LogSource>, rules: Rules) {
    LSS.Acceptable(sources, rules.parser) && AllHaveForm(sources)
  }

  /** The settings of the log sources. */
  class Settings {
    var stored: Option<seq<LogSource>>
    const rules: Rules

    ghost predicate Valid()
      reads this
    {
      SpoolsAreNamed(rules) && (stored.Some? ==> IsKept(stored.value, rules))
    }

    constructor (rules: Rules)
      requires SpoolsAreNamed(rules)
      ensures Valid() && stored == None && this.rules == rules
    {
      this.rules := rules;
      stored := None;
    }

    /** Takes an update, or refuses it and changes nothing. */
    method Update(payload: seq<Payload>) returns (ok: bool)
      requires Valid()
      modifies this
      ensures Valid()
      ensures ok <==> Updated(old(stored), payload, rules).Some?
      ensures stored == if ok then Updated(old(stored), payload, rules) else old(stored)
    {
      var sources := NormalizeLogSourcePayloads(payload, false, rules);
      NormalizedHaveForm(payload, false, rules);
      if stored.Some? {
        var previous := NormalizeLogSourcePayloads(AsPayloads(stored.value), false, rules);
        FormsAreStable(stored.value, rules);
        ReadsBackWhatWasWritten(stored.value, rules);
        InheritedHaveForm(sources, previous);
        sources := InheritStorageSourceIds(sources, previous);
      }
      var rejection := LSS.ValidateLogSources(sources, rules.parser);
      if rejection.Some? {
        return false;
      }
      stored := Some(sources);
      return true;
    }
  }

  lemma InheritKeepsForm(source: LogSource, previous: seq<LogSource>)
    requires HasForm(source) && AllHaveForm(previous)
    ensures HasForm(Inherit(source, previous))
  {
    if Predecessor(source, previous).Some? {
      assert HasForm(Predecessor(source, previous).value);
    }
  }

  lemma InheritedHaveForm(sources: seq<LogSource>, previous: seq<LogSource>)
    requires AllHaveForm(sources) && AllHaveForm(previous)
    ensures AllHaveForm(InheritAll(sources, previous))
  {
    forall i | 0 <= i < |sources|
      ensures HasForm(Inherit(sources[i], previous))
    {
      InheritKeepsForm(sources[i], previous);
    }
  }

  /** No two sources share an ID or a storage ID. */
  ghost predicate AreDistinct(sources: seq<LogSource>) {
    && (forall s <- sources, t <- sources :: s.sourceId == t.sourceId ==> s == t)
    && (forall s <- sources, t <- sources :: LSS.EffectiveStorageSourceId(s) == LSS.EffectiveStorageSourceId(t) ==> s == t)
  }

  lemma AcceptedAreDistinct(sources: seq<LogSource>, parser: Routing.Parser)
    requires LSS.Acceptable(sources, parser)
    ensures AreDistinct(sources)
  {
  }

  /** `t` continues `s`: it has the same ID, or a new one and directories that only `s` had. */
  predicate Continues(t: LogSource, s: LogSource, before: seq<LogSource>) {
    s in before && (t.sourceId == s.sourceId || (WithId(before, t.sourceId).None? && AtPath(before, StoragePath(t)) == [s]))
  }

  /** The update takes from the earlier settings nothing but storage IDs, and those only of sources that are continued. */
  lemma InheritsOnlyStorageIds(sources: seq<LogSource>, before: seq<LogSource>, i: nat)
    requires i < |sources|
    ensures |InheritAll(sources, before)| == |sources|
    ensures var t := InheritAll(sources, before)[i];
            && t == sources[i].(storageSourceId := t.storageSourceId)
            && (t.storageSourceId != sources[i].storageSourceId ==> exists s :: Continues(sources[i], s, before))
  {
    var prior := Predecessor(sources[i], before);
    if prior.Some? {
      assert Continues(sources[i], prior.value, before) by {
        assert |AtPath(before, StoragePath(sources[i]))| == 1 ==>
                 AtPath(before, StoragePath(sources[i])) == [AtPath(before, StoragePath(sources[i]))[0]];
      }
    }
  }

  ghost predicate HasSameDirectories(s: LogSource, t: LogSource) {
    s.logDir == t.logDir && s.spoolDir == t.spoolDir && s.archiveDir == t.archiveDir
  }

  lemma {:induction false} AtPathMeaning(before: seq<LogSource>, t: LogSource, s: LogSource)
    requires HasForm(t) && AllHaveForm(before)
    ensures s in AtPath(before, StoragePath(t)) <==> s in before && HasSameDirectories(s, t)
  {
    if before != [] {
      var front, last := before[..|before| - 1], before[|before| - 1];
      assert AllHaveForm(front);
      AtPathMeaning(front, t, s);
      assert before == front + [last] && HasForm(last);
      assert StoragePath(last) == StoragePath(t) <==> HasSameDirectories(last, t);
    }
  }

  lemma {:induction false} AtPathOnce(before: seq<LogSource>, path: (string, string, string), s: LogSource)
    requires s in AtPath(before, path) && forall i, j :: 0 <= i < j < |before| ==> before[i] != before[j]
    requires forall u <- AtPath(before, path) :: u == s
    ensures AtPath(before, path) == [s]
  {
    var front, last := before[..|before| - 1], before[|before| - 1];
    var found := AtPath(front, path);
    assert AtPath(before, path) == found + if StoragePath(last) == path then [last] else [];
    assert forall u <- found :: u in AtPath(before, path);
    if StoragePath(last) == path {
      assert last in AtPath(before, path) && last == s;
      if found == [] {
        assert found + [last] == [last];
      } else {
        assert found[0] in found;
        NotAgain(before, found[0]);
      }
    } else {
      AtPathOnce(front, path, s);
    }
  }

  lemma NotAgain(before: seq<LogSource>, u: LogSource)
    requires before != [] && u in before[..|before| - 1] && forall i, j :: 0 <= i < j < |before| ==> before[i] != before[j]
    ensures u != before[|before| - 1]
  {
    var k :| 0 <= k < |before| - 1 && before[..|before| - 1][k] == u;
    assert before[k] == u;
  }

  /** Which source a new one continues, field by field: the one with its ID, or for a new ID the only one with its directories. */
  lemma ContinuesMeaning(t: LogSource, s: LogSource, before: seq<LogSource>, parser: Routing.Parser)
    requires HasForm(t) && AllHaveForm(before) && LSS.Acceptable(before, parser)
    ensures Continues(t, s, before) <==>
              && s in before
              && (|| t.sourceId == s.sourceId
                  || ((forall u <- before :: u.sourceId != t.sourceId)
                      && forall u <- before :: HasSameDirectories(u, t) <==> u == s))
  {
    var found := AtPath(before, StoragePath(t));
    forall u
      ensures u in found <==> u in before && HasSameDirectories(u, t)
    {
      AtPathMeaning(before, t, u);
    }
    forall i, j | 0 <= i < j < |before|
      ensures before[i] != before[j]
    {
      assert LSS.AreCompatible(before[i], before[j], parser);
    }
    if s in found && forall u <- found :: u == s {
      AtPathOnce(before, StoragePath(t), s);
    }
    if found == [s] {
      assert s in found && forall u <- found :: u == s;
    }
  }

  lemma InheritContinues(source: LogSource, s: LogSource, before: seq<LogSource>)
    requires AreDistinct(before) && HasForm(s) && Continues(source, s, before)
    ensures Inherit(source, before).storageSourceId == s.storageSourceId
  {
  }

  lemma UpdateInherits(before: seq<LogSource>, payload: seq<Payload>, rules: Rules)
    requires SpoolsAreNamed(rules) && IsKept(before, rules)
    ensures var inherited := InheritAll(Normalize(payload, false, rules), before);
            && AllHaveForm(inherited)
            && Updated(Some(before), payload, rules) == if LSS.Acceptable(inherited, rules.parser) then Some(inherited) else None
  {
    FormsAreStable(before, rules);
    ReadsBackWhatWasWritten(before, rules);
    NormalizedHaveForm(payload, false, rules);
    InheritedHaveForm(Normalize(payload, false, rules), before);
  }

  lemma InheritedContinue(sources: seq<LogSource>, before: seq<LogSource>, t: LogSource, s: LogSource)
    requires AreDistinct(before) && AllHaveForm(before)
    requires t in InheritAll(sources, before) && Continues(t, s, before)
    ensures t.storageSourceId == s.storageSourceId
  {
    var i :| 0 <= i < |sources| && t == Inherit(sources[i], before);
    assert StoragePath(t) == StoragePath(sources[i]);
    assert HasForm(s);
    InheritContinues(sources[i], s, before);
  }

  /**
    An accepted update leaves distinct storage IDs, and a source that continues an earlier one
    keeps that one's storage ID.
   */
  lemma UpdateKeepsStorageIds(before: seq<LogSource>, payload: seq<Payload>, rules: Rules)
    requires SpoolsAreNamed(rules) && IsKept(before, rules)
    ensures var after := Updated(Some(before), payload, rules);
            after.Some? ==>
              && IsKept(after.value, rules) && AreDistinct(after.value)
              && forall s, t :: t in after.value && Continues(t, s, before) ==> t.storageSourceId == s.storageSourceId
  {
    UpdateInherits(before, payload, rules);
    AcceptedAreDistinct(before, rules.parser);
    var inherited := InheritAll(Normalize(payload, false, rules), before);
    if LSS.Acceptable(inherited, rules.parser) {
      AcceptedAreDistinct(inherited, rules.parser);
      forall s, t | t in inherited && Continues(t, s, before)
        ensures t.storageSourceId == s.storageSourceId
      {
        InheritedContinue(Normalize(payload, false, rules), before, t, s);
      }
    }
  }

  /** Adding a source with the directories of exactly one source, which itself stays, is always refused. */
  lemma SharedDirectoriesAreRefused(before: seq<LogSource>, payload: seq<Payload>, rules: Rules, i: nat, j: nat, s: LogSource)
    requires SpoolsAreNamed(rules) && IsKept(before, rules)
    requires var sources := Normalize(payload, false, rules);
             && i < |sources| && j < |sources|
             && s in before && sources[i].sourceId == s.sourceId
             && WithId(before, sources[j].sourceId).None? && AtPath(before, StoragePath(sources[j])) == [s]
    ensures Updated(Some(before), payload, rules) == None
  {
    var sources := Normalize(payload, false, rules);
    UpdateInherits(before, payload, rules);
    AcceptedAreDistinct(before, rules.parser);
    assert HasForm(s);
    InheritContinues(sources[i], s, before);
    InheritContinues(sources[j], s, before);
    var inherited := InheritAll(sources, before);
    assert i != j;
    assert LSS.EffectiveStorageSourceId(inherited[i]) == LSS.EffectiveStorageSourceId(inherited[j]);
    assert !LSS.AreCompatible(inherited[i], inherited[j], rules.parser) && !LSS.AreCompatible(inherited[j], inherited[i], rules.parser);
  }

  ghost function Next(stored: seq<LogSource>, payload: seq<Payload>, rules: Rules): seq<LogSource> {
    var after := Updated(Some(stored), payload, rules);
    if after.Some? then after.value else stored
  }

  ghost function AfterUpdates(stored: seq<LogSource>, updates: seq<seq<Payload>>, rules: Rules): seq<LogSource>
    decreases |updates|
  {
    if updates == [] then stored else AfterUpdates(Next(stored, updates[0], rules), updates[1..], rules)
  }

  /** The ID is configured before, between and after the updates. */
  ghost predicate StaysConfigured(stored: seq<LogSource>, updates: seq<seq<Payload>>, rules: Rules, id: string)
    decreases |updates|
  {
    && WithId(stored, id).Some?
    && (updates != [] ==> StaysConfigured(Next(stored, updates[0], rules), updates[1..], rules, id))
  }

  lemma NextKeepsStorageId(stored: seq<LogSource>, payload: seq<Payload>, rules: Rules, id: string)
    requires SpoolsAreNamed(rules) && IsKept(stored, rules)
    ensures IsKept(Next(stored, payload, rules), rules)
    ensures WithId(stored, id).Some? && WithId(Next(stored, payload, rules), id).Some? ==>
              WithId(Next(stored, payload, rules), id).value.storageSourceId == WithId(stored, id).value.storageSourceId
  {
    UpdateKeepsStorageIds(stored, payload, rules);
    var next := Next(stored, payload, rules);
    if WithId(stored, id).Some? && WithId(next, id).Some? {
      assert Continues(WithId(next, id).value, WithId(stored, id).value, stored);
    }
  }

  /** Over any sequence of updates, accepted or refused, storage IDs stay distinct and a source that stays keeps its own. */
  lemma {:induction false} StorageIdsAreStable(stored: seq<LogSource>, updates: seq<seq<Payload>>, rules: Rules, id: string)
    requires SpoolsAreNamed(rules) && IsKept(stored, rules)
    ensures IsKept(AfterUpdates(stored, updates, rules), rules) && AreDistinct(AfterUpdates(stored, updates, rules))
    ensures StaysConfigured(stored, updates, rules, id) ==>
              && WithId(AfterUpdates(stored, updates, rules), id).Some?
              && WithId(AfterUpdates(stored, updates, rules), id).value.storageSourceId == WithId(stored, id).value.storageSourceId
    decreases |updates|
  {
    AcceptedAreDistinct(stored, rules.parser);
    if updates != [] {
      NextKeepsStorageId(stored, updates[0], rules, id);
      StorageIdsAreStable(Next(stored, updates[0], rules), updates[1..], rules, id);
    }
  }

  /**
    One source through a sequence of updates: after an accepted one, the source that continues it,
    under its ID or a new one; after a refused one, the source itself.
   */
  ghost predicate IsLineage(stored: seq<LogSource>, updates: seq<seq<Payload>>, rules: Rules, line: seq<LogSource>)
    decreases |updates|
  {
    && |line| == |updates| + 1 && line[0] in stored
    && (updates != [] ==>
          && (if Updated(Some(stored), updates[0], rules).Some? then Continues(line[1], line[0], stored) else line[1] == line[0])
          && IsLineage(Next(stored, updates[0], rules), updates[1..], rules, line[1..]))
  }

  /** However often a source is renamed on the way, its rows stay under one storage ID. */
  lemma {:induction false} LineagesKeepTheirStorageId(
    stored: seq<LogSource>, updates: seq<seq<Payload>>, rules: Rules, line: seq<LogSource>)
    requires SpoolsAreNamed(rules) && IsKept(stored, rules) && IsLineage(stored, updates, rules, line)
    ensures line[|updates|] in AfterUpdates(stored, updates, rules)
    ensures line[|updates|].storageSourceId == line[0].storageSourceId
    decreases |updates|
  {
    if updates != [] {
      UpdateKeepsStorageIds(stored, updates[0], rules);
      LineagesKeepTheirStorageId(Next(stored, updates[0], rules), updates[1..], rules, line[1..]);
    }
  }

  lemma StorageIdsDiffer(stored: seq<LogSource>, rules: Rules, s: LogSource, t: LogSource)
    requires IsKept(stored, rules) && s in stored && t in stored && s != t
    ensures s.storageSourceId != t.storageSourceId
  {
    AcceptedAreDistinct(stored, rules.parser);
    FormStoresItsId(s);
    FormStoresItsId(t);
  }

  lemma FormStoresItsId(s: LogSource)
    requires HasForm(s)
    ensures LSS.EffectiveStorageSourceId(s) == s.storageSourceId
  {
  }

  /** Two sources never become one: their rows stay apart whatever they are renamed to. */
  lemma LineagesStayApart(
    stored: seq<LogSource>, updates: seq<seq<Payload>>, rules: Rules, line1: seq<LogSource>, line2: seq<LogSource>)
    requires SpoolsAreNamed(rules) && IsKept(stored, rules)
    requires IsLineage(stored, updates, rules, line1) && IsLineage(stored, updates, rules, line2)
    requires line1[0] != line2[0]
    ensures line1[|updates|].storageSourceId != line2[|updates|].storageSourceId
  {
    LineagesKeepTheirStorageId(stored, updates, rules, line1);
    LineagesKeepTheirStorageId(stored, updates, rules, line2);
    StorageIdsDiffer(stored, rules, line1[0], line2[0]);
  }

  /** What queries and imports take as configured: the enabled sources, or one of earlier settings when there are none. */
  function CurrentLogSources(stored: Option<seq<LogSource>>, legacy: LogSource, rules: Rules): seq<LogSource> {
    match stored
    case Some(sources) => Normalize(AsPayloads(sources), true, rules)
    case None => [legacy]
  }

  datatype DateState<D> = DateState(sourceId: string, logTag: string, detail: D)

  method StorageSourceId(displayId: string, sources: seq<LogSource>) returns (id: string)
    ensures id == StorageIdOf(displayId, sources)
  {
    var trimmed := Text.Trim(displayId);
    for i := 0 to |sources|
      invariant forall k :: 0 <= k < i ==> sources[k].sourceId != trimmed
      invariant FirstWithId(sources, trimmed) == FirstWithId(sources[i..], trimmed)
    {
      if sources[i].sourceId == trimmed {
        return LSS.EffectiveStorageSourceId(sources[i]);
      }
    }
    return trimmed;
  }

  function FirstWithId(sources: seq<LogSource>, id: string): Option<LogSource> {
    if sources == [] then None
    else if sources[0].sourceId == id then Some(sources[0])
    else FirstWithId(sources[1..], id)
  }

  /** The storage ID behind an ID that users see, which is that ID itself when it is not configured. */
  function StorageIdOf(displayId: string, sources: seq<LogSource>): string {
    var found := FirstWithId(sources, Text.Trim(displayId));
    if found.Some? then LSS.EffectiveStorageSourceId(found.value) else Text.Trim(displayId)
  }

  /** The configured source that owns a storage ID, if `displayId` does not ask for another one. */
  function OwnerOf(sources: seq<LogSource>, displayId: string, storageId: string): (owner: Option<LogSource>)
    ensures owner.Some? ==>
              owner.value in sources && LSS.EffectiveStorageSourceId(owner.value) == storageId
              && (displayId != "" ==> owner.value.sourceId == displayId)
  {
    if sources == [] then None
    else
      var last := sources[|sources| - 1];
      if LSS.EffectiveStorageSourceId(last) == storageId && (displayId == "" || last.sourceId == displayId) then Some(last)
      else OwnerOf(sources[..|sources| - 1], displayId, storageId)
  }

  function Configured<D>(states: seq<DateState<D>>, sources: seq<LogSource>, displayId: string): seq<DateState<D>> {
    if states == [] then []
    else
      var front, last := Configured(states[..|states| - 1], sources, displayId), states[|states| - 1];
      match OwnerOf(sources, displayId, last.sourceId)
      case Some(owner) => front + [last.(sourceId := owner.sourceId, logTag := owner.logTag)]
      case None => front
  }

  method ConfiguredDateStates<D>(states: seq<DateState<D>>, sources: seq<LogSource>, displayId: string)
    returns (configured: seq<DateState<D>>)
    ensures configured == Configured(states, sources, displayId)
  {
    var byStorageId: map<string, LogSource> := map[];
    for i := 0 to |sources|
      invariant forall id :: Find(byStorageId, id) == OwnerOf(sources[..i], displayId, id)
    {
      assert sources[..i + 1][..i] == sources[..i];
      if displayId == "" || sources[i].sourceId == displayId {
        byStorageId := byStorageId[LSS.EffectiveStorageSourceId(sources[i]) := sources[i]];
      }
    }
    assert sources[..|sources|] == sources;
    configured := [];
    for i := 0 to |states|
      invariant configured == Configured(states[..i], sources, displayId)
    {
      assert states[..i + 1][..i] == states[..i];
      var owner := Find(byStorageId, states[i].sourceId);
      if owner.Some? {
        configured := configured + [states[i].(sourceId := owner.value.sourceId, logTag := owner.value.logTag)];
      }
    }
    assert states[..|states|] == states;
  }

  lemma {:induction false} FirstIsOnly(sources: seq<LogSource>, s: LogSource)
    requires s in sources && forall t <- sources :: t.sourceId == s.sourceId ==> t == s
    ensures FirstWithId(sources, s.sourceId) == Some(s)
  {
    if sources[0].sourceId != s.sourceId {
      FirstIsOnly(sources[1..], s);
    }
  }

  /** The states of configured sources under their storage IDs, with the tags of those sources. */
  function Owned<D>(states: seq<DateState<D>>, sources: seq<LogSource>, displayId: string): seq<DateState<D>> {
    if states == [] then []
    else
      var front, last := Owned(states[..|states| - 1], sources, displayId), states[|states| - 1];
      match OwnerOf(sources, displayId, last.sourceId)
      case Some(owner) => front + [last.(logTag := owner.logTag)]
      case None => front
  }

  function ToStorage<D>(states: seq<DateState<D>>, sources: seq<LogSource>): seq<DateState<D>> {
    seq(|states|, i requires 0 <= i < |states| => states[i].(sourceId := StorageIdOf(states[i].sourceId, sources)))
  }

  /** Showing the states of configured sources under the IDs that users see, and going back to storage IDs, changes none of them. */
  lemma {:induction false} ShownStatesMapBack<D>(states: seq<DateState<D>>, sources: seq<LogSource>, displayId: string)
    requires AreDistinct(sources) && forall s <- sources :: Text.IsTrimmed(s.sourceId)
    ensures ToStorage(Configured(states, sources, displayId), sources) == Owned(states, sources, displayId)
  {
    if states != [] {
      ShownStatesMapBack(states[..|states| - 1], sources, displayId);
      var owner := OwnerOf(sources, displayId, states[|states| - 1].sourceId);
      if owner.Some? {
        FirstIsOnly(sources, owner.value);
      }
    }
  }

  lemma EnabledAreDistinct(sources: seq<LogSource>)
    requires AreDistinct(sources) && AllHaveForm(sources)
    ensures AreDistinct(EnabledOf(sources))
    ensures forall s <- EnabledOf(sources) :: Text.IsTrimmed(s.sourceId)
  {
    forall s | s in EnabledOf(sources)
      ensures Text.IsTrimmed(s.sourceId)
    {
      assert HasForm(s);
    }
  }

  /** The sources that queries take from accepted settings meet what `ShownStatesMapBack` asks of them. */
  lemma CurrentSourcesAreDistinct(stored: Option<seq<LogSource>>, legacy: LogSource, rules: Rules)
    requires stored.Some? ==> IsKept(stored.value, rules)
    ensures AreDistinct(CurrentLogSources(stored, legacy, rules))
    ensures stored.Some? ==> forall s <- CurrentLogSources(stored, legacy, rules) :: Text.IsTrimmed(s.sourceId)
  {
    if stored.Some? {
      FormsAreStable(stored.value, rules);
      ReadsBackEnabled(stored.value, rules);
      AcceptedAreDistinct(stored.value, rules.parser);
      EnabledAreDistinct(stored.value);
    }
  }

  lemma {:induction false} EnabledAreAcceptable(sources: seq<LogSource>, parser: Routing.Parser)
    requires LSS.Acceptable(sources, parser)
    ensures LSS.Acceptable(EnabledOf(sources), parser)
  {
    if sources != [] {
      var front, last := sources[..|sources| - 1], sources[|sources| - 1];
      assert sources == front + [last];
      LSS.AcceptableSnoc(front, parser, last);
      EnabledAreAcceptable(front, parser);
      LSS.AcceptableSnoc(EnabledOf(front), parser, last);
      EnabledCanJoin(front, parser, last);
      assert EnabledOf(sources) == EnabledOf(front) + if last.enabled then [last] else [];
    }
  }

  lemma EnabledCanJoin(sources: seq<LogSource>, parser: Routing.Parser, source: LogSource)
    requires LSS.CanJoin(sources, parser, source)
    ensures LSS.CanJoin(EnabledOf(sources), parser, source)
  {
  }
}
