/**
  The field scanner of the log parser and the FortiGate lines read with it. A line is a sequence
  of characters; which of them are spaces, and how texts read as addresses, ports, protocols and
  times, is left open.
 */
module Fields {
  import opened Sequences
  import opened Wrappers

  datatype Reader<A> = Reader(
    isSpace: char -> bool,
    lower: string -> string,
    address: string -> Option<A>,
    port: string -> int,
    protocol: string -> string,
    time: string -> Option<int>)

  /** The fields of a line: its maximal runs of characters that are no spaces. */
  function FieldsOf(s: string, isSpace: char -> bool): seq<string> {
    if s == "" then []
    else if isSpace(s[0]) then FieldsOf(s[1..], isSpace)
    else if |s| == 1 || isSpace(s[1]) then [[s[0]]] + FieldsOf(s[1..], isSpace)
    else
      var rest := FieldsOf(s[1..], isSpace);
      if rest == [] then [] else [[s[0]] + rest[0]] + rest[1..]
  }

  predicate IsRun(s: string, isSpace: char -> bool) {
    s != "" && forall k :: 0 <= k < |s| ==> !isSpace(s[k])
  }

  function Flatten(fields: seq<string>): string {
    if fields == [] then "" else fields[0] + Flatten(fields[1..])
  }

  function WithoutSpaces(s: string, isSpace: char -> bool): string {
    if s == "" then "" else (if isSpace(s[0]) then "" else [s[0]]) + WithoutSpaces(s[1..], isSpace)
  }

  /** The number of places where a run begins. */
  function Runs(s: string, isSpace: char -> bool, afterSpace: bool): nat {
    if s == "" then 0
    else (if afterSpace && !isSpace(s[0]) then 1 else 0) + Runs(s[1..], isSpace, isSpace(s[0]))
  }

  lemma {:induction false} FieldsCount(s: string, isSpace: char -> bool)
    ensures |FieldsOf(s, isSpace)| == Runs(s, isSpace, true)
  {
    if s != "" {
      FieldsCount(s[1..], isSpace);
      if !isSpace(s[0]) && |s| > 1 && !isSpace(s[1]) {
        assert s[1..][0] == s[1];
        assert Runs(s[1..], isSpace, true) == 1 + Runs(s[1..], isSpace, false);
      }
    }
  }

  lemma {:induction false} FieldsFlatten(s: string, isSpace: char -> bool)
    ensures Flatten(FieldsOf(s, isSpace)) == WithoutSpaces(s, isSpace)
  {
    if s != "" {
      FieldsFlatten(s[1..], isSpace);
      var fields, rest := FieldsOf(s, isSpace), FieldsOf(s[1..], isSpace);
      if isSpace(s[0]) {
        assert "" + WithoutSpaces(s[1..], isSpace) == WithoutSpaces(s[1..], isSpace);
      } else if |s| == 1 || isSpace(s[1]) {
        assert fields[1..] == rest;
      } else {
        FieldsCount(s[1..], isSpace);
        assert s[1..][0] == s[1];
        assert fields[1..] == rest[1..];
        assert ([s[0]] + rest[0]) + Flatten(rest[1..]) == [s[0]] + (rest[0] + Flatten(rest[1..]));
      }
    }
  }

  lemma {:induction false} FieldsHaveNoSpaces(s: string, isSpace: char -> bool)
    ensures forall f <- FieldsOf(s, isSpace) :: IsRun(f, isSpace)
  {
    if s != "" {
      FieldsHaveNoSpaces(s[1..], isSpace);
      var rest := FieldsOf(s[1..], isSpace);
      if !isSpace(s[0]) && rest != [] {
        assert rest[0] in rest;
        assert IsRun([s[0]] + rest[0], isSpace);
      }
    }
  }

  /** Every field is a run, there are as many as runs begin, and together they are the line without its spaces. */
  lemma FieldsAreRuns(s: string, isSpace: char -> bool)
    ensures var fields := FieldsOf(s, isSpace);
            && (forall f <- fields :: IsRun(f, isSpace))
            && Flatten(fields) == WithoutSpaces(s, isSpace)
            && |fields| == Runs(s, isSpace, true)
  {
    FieldsCount(s, isSpace);
    FieldsFlatten(s, isSpace);
    FieldsHaveNoSpaces(s, isSpace);
  }

  lemma {:induction false} SkipSpaces(s: string, isSpace: char -> bool, i: nat)
    requires i <= |s| && forall k :: 0 <= k < i ==> isSpace(s[k])
    ensures FieldsOf(s, isSpace) == FieldsOf(s[i..], isSpace)
  {
    if i == 0 {
      assert s[0..] == s;
    } else {
      SkipSpaces(s[1..], isSpace, i - 1);
      assert s[1..][i - 1..] == s[i..];
    }
  }

  lemma {:induction false} TakeRun(s: string, isSpace: char -> bool, i: nat)
    requires 0 < i <= |s| && (forall k :: 0 <= k < i ==> !isSpace(s[k])) && (i < |s| ==> isSpace(s[i]))
    ensures FieldsOf(s, isSpace) == [s[..i]] + FieldsOf(s[i..], isSpace)
  {
    if i == 1 {
      assert s[..1] == [s[0]];
    } else {
      TakeRun(s[1..], isSpace, i - 1);
      assert s[1..][i - 1..] == s[i..] && [s[0]] + s[1..][..i - 1] == s[..i];
    }
  }

  /** The next field and what follows it. Repeating this yields exactly the fields of the line. */
  method NextField(s: string, isSpace: char -> bool) returns (field: string, rest: string)
    ensures field == "" ==> FieldsOf(s, isSpace) == []
    ensures field != "" ==> FieldsOf(s, isSpace) == [field] + FieldsOf(rest, isSpace) && |rest| < |s|
  {
    var start := -1;
    var i := 0;
    while i < |s|
      invariant 0 <= i <= |s| && -1 <= start < i + 1 && (i == 0 ==> start == -1) && (start >= 0 ==> start < i)
      invariant forall k :: 0 <= k < (if start >= 0 then start else i) ==> isSpace(s[k])
      invariant start >= 0 ==> forall k :: start <= k < i ==> !isSpace(s[k])
    {
      if isSpace(s[i]) {
        if start >= 0 {
          FieldAt(s, isSpace, start, i);
          return s[start..i], s[i..];
        }
      } else if start < 0 {
        start := i;
      }
      i := i + 1;
    }
    if start < 0 {
      SkipSpaces(s, isSpace, |s|);
      return "", "";
    }
    FieldAt(s, isSpace, start, |s|);
    assert s[|s|..] == "" && s[start..] == s[start..|s|];
    return s[start..], "";
  }

  lemma {:induction false} FieldAt(s: string, isSpace: char -> bool, start: nat, end: nat)
    requires start < end <= |s| && (end < |s| ==> isSpace(s[end]))
    requires (forall k :: 0 <= k < start ==> isSpace(s[k])) && (forall k :: start <= k < end ==> !isSpace(s[k]))
    ensures FieldsOf(s, isSpace) == [s[start..end]] + FieldsOf(s[end..], isSpace)
  {
    if start == 0 {
      TakeRun(s, isSpace, end);
    } else {
      FieldAt(s[1..], isSpace, start - 1, end - 1);
      assert s[1..][start - 1..end - 1] == s[start..end] && s[1..][end - 1..] == s[end..];
    }
  }

  predicate OccursAt(s: string, i: nat, part: string) {
    i + |part| <= |s| && s[i..i + |part|] == part
  }

  predicate Contains(s: string, part: string) {
    exists i :: 0 <= i <= |s| && OccursAt(s, i, part)
  }

  lemma ContainsMeaning(s: string, part: string)
    ensures Contains(s, part) <==> exists before, after :: s == before + part + after
  {
    if i :| 0 <= i <= |s| && OccursAt(s, i, part) {
      assert s == s[..i] + part + s[i + |part|..];
    }
    if before, after :| s == before + part + after {
      assert OccursAt(s, |before|, part);
    }
  }

  predicate IsQuote(c: char) {
    c == '"' || c == '\''
  }

  function TrimQuotes(s: string): string {
    if s != "" && IsQuote(s[0]) then TrimQuotes(s[1..])
    else if s != "" && IsQuote(s[|s| - 1]) then TrimQuotes(s[..|s| - 1])
    else s
  }

  /** The text before and after the first `=`. */
  function Cut(token: string): Option<(string, string)> {
    if token == "" then None
    else if token[0] == '=' then Some(("", token[1..]))
    else match Cut(token[1..])
      case None => None
      case Some((key, value)) => Some(([token[0]] + key, value))
  }

  /** A token is cut at its first `=`, if it has one. */
  lemma {:induction false} CutMeaning(token: string, key: string, value: string)
    ensures Cut(token) == Some((key, value)) <==> token == key + "=" + value && '=' !in key
    ensures Cut(token) == None <==> '=' !in token
  {
    assert key != "" ==> key[0] == (key + "=" + value)[0] && key[0] in key;
    if token != "" && token[0] != '=' {
      if key != "" {
        CutMeaning(token[1..], key[1..], value);
        assert key == [key[0]] + key[1..];
      } else {
        CutMeaning(token[1..], key, value);
      }
      assert token == [token[0]] + token[1..];
      if token == key + "=" + value {
        assert key != "" && token[1..] == key[1..] + "=" + value;
      }
    } else if token != "" {
      assert token == "" + "=" + token[1..] && ("" + "=" + value)[1..] == value;
    }
  }

  /** Quotes lie before `i` and from `j` on, and the text between neither begins nor ends with one. */
  predicate IsUnquotedAt(s: string, i: int, j: int) {
    && 0 <= i <= j <= |s|
    && (forall k :: 0 <= k < |s| && (k < i || j <= k) ==> s[k] as int == 34 || s[k] as int == 39)
    && (i < j ==> s[i] as int !in {34, 39} && s[j - 1] as int !in {34, 39})
  }

  ghost predicate IsUnquoted(t: string, s: string) {
    exists i, j :: IsUnquotedAt(s, i, j) && t == s[i..j]
  }

  lemma UnquotedBehind(t: string, s: string)
    requires s != "" && IsQuote(s[0]) && IsUnquoted(t, s[1..])
    ensures IsUnquoted(t, s)
  {
    var i, j :| IsUnquotedAt(s[1..], i, j) && t == s[1..][i..j];
    assert IsUnquotedAt(s, i + 1, j + 1) by {
      assert forall k :: 0 < k < |s| ==> s[k] == s[1..][k - 1];
    }
    assert s[i + 1..j + 1] == t;
  }

  lemma UnquotedBefore(t: string, s: string)
    requires s != "" && IsQuote(s[|s| - 1]) && IsUnquoted(t, s[..|s| - 1])
    ensures IsUnquoted(t, s)
  {
    var i, j :| IsUnquotedAt(s[..|s| - 1], i, j) && t == s[..|s| - 1][i..j];
    assert IsUnquotedAt(s, i, j) && s[i..j] == t;
  }

  /** All quotes around a value are taken away, and nothing else. */
  lemma {:induction false} TrimQuotesIs(s: string)
    ensures IsUnquoted(TrimQuotes(s), s)
  {
    if s != "" && IsQuote(s[0]) {
      TrimQuotesIs(s[1..]);
      UnquotedBehind(TrimQuotes(s), s);
    } else if s != "" && IsQuote(s[|s| - 1]) {
      TrimQuotesIs(s[..|s| - 1]);
      UnquotedBefore(TrimQuotes(s), s);
    } else {
      assert IsUnquotedAt(s, 0, |s|) && s[0..|s|] == s;
    }
  }

  /** The map of a line: keys in lower case, and the last field with a key wins. */
  function KeyMap(fields: seq<string>, lower: string -> string): map<string, string> {
    if fields == [] then map[]
    else
      var before := KeyMap(fields[..|fields| - 1], lower);
      match Cut(fields[|fields| - 1])
      case Some((key, value)) => if key == "" then before else before[lower(key) := TrimQuotes(value)]
      case None => before
  }

  function Lookup(m: map<string, string>, key: string): string {
    if key in m then m[key] else ""
  }

  /** The keys of a FortiGate line that the parser reads. */
  datatype Values = Values(
    srcIp: string, srcPort: string, transIp: string, natIp: string, transPort: string, natPort: string,
    dstIp: string, dstPort: string, protocol: string, action: string, date: string, time: string)

  function ValuesOf(m: map<string, string>): Values {
    Values(
      Lookup(m, "srcip"), Lookup(m, "srcport"), Lookup(m, "transip"), Lookup(m, "natip"), Lookup(m, "transport"), Lookup(m, "natport"),
      Lookup(m, "dstip"), Lookup(m, "dstport"), Lookup(m, "protocol"), Lookup(m, "action"), Lookup(m, "date"), Lookup(m, "time"))
  }

  /** The switch over the keys: storing one value is what updating the key map would do. */
  method Store(values: Values, key: string, value: string, ghost m: map<string, string>) returns (stored: Values)
    requires values == ValuesOf(m)
    ensures stored == ValuesOf(m[key := value])
  {
    match key
    case "srcip" => stored := values.(srcIp := value);
    case "srcport" => stored := values.(srcPort := value);
    case "transip" => stored := values.(transIp := value);
    case "natip" => stored := values.(natIp := value);
    case "transport" => stored := values.(transPort := value);
    case "natport" => stored := values.(natPort := value);
    case "dstip" => stored := values.(dstIp := value);
    case "dstport" => stored := values.(dstPort := value);
    case "protocol" => stored := values.(protocol := value);
    case "action" => stored := values.(action := value);
    case "date" => stored := values.(date := value);
    case "time" => stored := values.(time := value);
    case _ => stored := values;
  }

  method ReadValues(line: string, isSpace: char -> bool, lower: string -> string) returns (values: Values)
    ensures values == ValuesOf(KeyMap(FieldsOf(line, isSpace), lower))
  {
    values := Values("", "", "", "", "", "", "", "", "", "", "", "");
    var rest := line;
    ghost var done: seq<string> := [];
    while true
      invariant done + FieldsOf(rest, isSpace) == FieldsOf(line, isSpace)
      invariant values == ValuesOf(KeyMap(done, lower))
      decreases |rest|
    {
      var token, after := NextField(rest, isSpace);
      if token == "" {
        assert done + [] == done;
        break;
      }
      ghost var seen := done + [token];
      assert seen[..|seen| - 1] == done;
      Regroup(done, [token], FieldsOf(after, isSpace));
      match Cut(token) {
        case Some((key, value)) =>
          if key != "" {
            values := Store(values, lower(key), TrimQuotes(value), KeyMap(done, lower));
          }
        case None =>
      }
      rest, done := after, seen;
    }
  }

  class NatLogRow<A> {
    var timestamp: int
    var srcIp: A
    var srcPort: int
    var dstIp: A
    var dstPort: int
    var natIp: A
    var natPort: int
    var protocol: string
    var action: string

    constructor (timestamp: int, unspecified: A)
      ensures this.timestamp == timestamp && srcIp == dstIp == natIp == unspecified
      ensures srcPort == dstPort == natPort == 0 && protocol == "" && action == "ALLOW"
    {
      this.timestamp := timestamp;
      srcIp, dstIp, natIp := unspecified, unspecified, unspecified;
      srcPort, dstPort, natPort := 0, 0, 0;
      protocol, action := "", "ALLOW";
    }
  }

  predicate IsBlank(s: string, isSpace: char -> bool) {
    forall k :: 0 <= k < |s| ==> isSpace(s[k])
  }

  function FirstNonBlank(a: string, b: string, isSpace: char -> bool): (r: string)
    ensures (exists c <- a :: !isSpace(c)) ==> r == a
    ensures (forall c <- a :: isSpace(c)) ==> r == if exists c <- b :: !isSpace(c) then b else ""
  {
    if !IsBlank(a, isSpace) then a else if !IsBlank(b, isSpace) then b else ""
  }

  function AddressOr<A>(raw: string, fallback: A, reader: Reader<A>): (address: A)
    ensures if reader.address(raw).None? then address == fallback else reader.address(raw) == Some(address)
  {
    match reader.address(raw) case Some(a) => a case None => fallback
  }

  /**
    Reads a FortiGate line into a row: every field of the row is what looking its key up in the
    line's lowercased key map gives, and a line of another kind leaves the row as it is.
   */
  method ParseFortiGateLine<A>(line: string, reader: Reader<A>, row: NatLogRow<A>) returns (ok: bool)
    modifies row
    ensures ok <==> Contains(line, "srcip=") && Contains(line, "dstip=")
    ensures !ok ==> unchanged(row)
    ensures ok ==>
              var m := KeyMap(FieldsOf(line, reader.isSpace), reader.lower);
              && row.srcIp == AddressOr(Lookup(m, "srcip"), old(row.srcIp), reader)
              && row.srcPort == reader.port(Lookup(m, "srcport"))
              && row.natIp == AddressOr(FirstNonBlank(Lookup(m, "transip"), Lookup(m, "natip"), reader.isSpace), old(row.natIp), reader)
              && row.natPort == reader.port(FirstNonBlank(Lookup(m, "transport"), Lookup(m, "natport"), reader.isSpace))
              && row.dstIp == AddressOr(Lookup(m, "dstip"), old(row.dstIp), reader)
              && row.dstPort == reader.port(Lookup(m, "dstport"))
              && row.protocol == reader.protocol(Lookup(m, "protocol"))
              && row.action == (if Lookup(m, "action") != "" then Lookup(m, "action") else old(row.action))
              && var stamp := Lookup(m, "date") + " " + Lookup(m, "time");
                 row.timestamp ==
                 if Lookup(m, "date") != "" && Lookup(m, "time") != "" && reader.time(stamp).Some? then reader.time(stamp).value
                 else old(row.timestamp)
  {
    if !Contains(line, "srcip=") || !Contains(line, "dstip=") {
      return false;
    }
    var values := ReadValues(line, reader.isSpace, reader.lower);
    row.srcIp := AddressOr(values.srcIp, row.srcIp, reader);
    row.srcPort := reader.port(values.srcPort);
    row.natIp := AddressOr(FirstNonBlank(values.transIp, values.natIp, reader.isSpace), row.natIp, reader);
    row.natPort := reader.port(FirstNonBlank(values.transPort, values.natPort, reader.isSpace));
    row.dstIp := AddressOr(values.dstIp, row.dstIp, reader);
    row.dstPort := reader.port(values.dstPort);
    row.protocol := reader.protocol(values.protocol);
    if values.action != "" {
      row.action := values.action;
    }
    if values.date != "" && values.time != "" {
      var t := reader.time(values.date + " " + values.time);
      if t.Some? {
        row.timestamp := t.value;
      }
    }
    return true;
  }

  /** The key map has exactly the keys of the fields. */
  lemma {:induction false} KeysAreOfFields(fields: seq<string>, lower: string -> string, key: string)
    ensures key in KeyMap(fields, lower) <==> exists f :: f in fields && HasKey(f, lower, key)
  {
    if fields != [] {
      var front, last := fields[..|fields| - 1], fields[|fields| - 1];
      KeysAreOfFields(front, lower, key);
      assert forall f :: f in fields <==> f in front || f == last;
      assert key in KeyMap(fields, lower) <==> key in KeyMap(front, lower) || HasKey(last, lower, key);
    }
  }

  /** A key has the value of the last field with that key. */
  lemma {:induction false} LastFieldWins(fields: seq<string>, lower: string -> string, key: string, last: nat)
    requires last < |fields| && HasKey(fields[last], lower, key)
    requires forall j :: last < j < |fields| ==> !HasKey(fields[j], lower, key)
    ensures key in KeyMap(fields, lower) && KeyMap(fields, lower)[key] == TrimQuotes(Cut(fields[last]).value.1)
  {
    var n := |fields| - 1;
    if last < n {
      LastFieldWins(fields[..n], lower, key, last);
    }
  }

  predicate HasKey(field: string, lower: string -> string, key: string) {
    match Cut(field)
    case Some((k, _)) => k != "" && lower(k) == key
    case None => false
  }
}
