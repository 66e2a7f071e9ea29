/**
  The query compiler: a request and the visible ranges become the text of a condition with
  placeholders, and a list of arguments that are bound to the placeholders by position. The text is
  a sequence of tokens, and its meaning is given by reading it the way SQL does: comparisons bind
  tighter than AND, which binds tighter than OR.
 */
module SqlFilter {
  import opened Order
  import opened Sequences
  import opened Wrappers
  import Paging

  datatype Value = Num(num: int) | Text(text: string)

  datatype Column =
    LogDate | SourceID | Timestamp | SrcIP | DstIP | NatIP | SrcPort | DstPort | NatPort
    | Protocol | Action | LogTag | SourceFile | SourceOffset

  datatype Op = Equal | AtLeast | AtMost | Greater

  /** Each comparison is one token with one placeholder, `column IN (?, ?)` one with two. */
  datatype Token =
    | Open | Close | And | Or
    | Compare(column: Column, op: Op)
    | InPair(column: Column)
    | PositionGreater  // (source_id, source_file, source_offset) > (?, ?, ?)

  /** A row of the queried table. */
  datatype Row = Row(
    logDate: int, position: Position, srcIP: int, dstIP: int, natIP: int,
    srcPort: int, dstPort: int, natPort: int, protocol: string, action: string, logTag: string)

  function Get(row: Row, column: Column): Value {
    match column
    case LogDate => Num(row.logDate)
    case SourceID => Text(row.position.source)
    case Timestamp => Num(row.position.timestamp)
    case SrcIP => Num(row.srcIP)
    case DstIP => Num(row.dstIP)
    case NatIP => Num(row.natIP)
    case SrcPort => Num(row.srcPort)
    case DstPort => Num(row.dstPort)
    case NatPort => Num(row.natPort)
    case Protocol => Text(row.protocol)
    case Action => Text(row.action)
    case LogTag => Text(row.logTag)
    case SourceFile => Text(row.position.file)
    case SourceOffset => Num(row.position.offset)
  }

  predicate Holds(v: Value, op: Op, w: Value) {
    match op
    case Equal => v == w
    case AtLeast => v.Num? && w.Num? && v.num >= w.num
    case AtMost => v.Num? && w.Num? && v.num <= w.num
    case Greater => v.Num? && w.Num? && v.num > w.num
  }

  /** The value of what has been read, the tokens that follow, and the arguments not yet bound. */
  datatype Reading = Reading(value: bool, tokens: seq<Token>, args: seq<Value>)

  function ReadOr(tokens: seq<Token>, args: seq<Value>, row: Row): (r: Option<Reading>)
    ensures r.Some? ==> |r.value.tokens| < |tokens|
    decreases |tokens|, 2
  {
    var left :- ReadAnd(tokens, args, row);
    if left.tokens != [] && left.tokens[0] == Or then
      var right :- ReadOr(left.tokens[1..], left.args, row);
      Some(Reading(left.value || right.value, right.tokens, right.args))
    else Some(left)
  }

  function ReadAnd(tokens: seq<Token>, args: seq<Value>, row: Row): (r: Option<Reading>)
    ensures r.Some? ==> |r.value.tokens| < |tokens|
    decreases |tokens|, 1
  {
    var left :- ReadAtom(tokens, args, row);
    if left.tokens != [] && left.tokens[0] == And then
      var right :- ReadAnd(left.tokens[1..], left.args, row);
      Some(Reading(left.value && right.value, right.tokens, right.args))
    else Some(left)
  }

  function ReadAtom(tokens: seq<Token>, args: seq<Value>, row: Row): (r: Option<Reading>)
    ensures r.Some? ==> |r.value.tokens| < |tokens|
    decreases |tokens|, 0
  {
    if tokens == [] then None
    else match tokens[0]
      case Open =>
        var inner :- ReadOr(tokens[1..], args, row);
        if inner.tokens != [] && inner.tokens[0] == Close
        then Some(Reading(inner.value, inner.tokens[1..], inner.args)) else None
      case Compare(column, op) =>
        if |args| < 1 then None
        else Some(Reading(Holds(Get(row, column), op, args[0]), tokens[1..], args[1..]))
      case InPair(column) =>
        if |args| < 2 then None
        else Some(Reading(Get(row, column) == args[0] || Get(row, column) == args[1], tokens[1..], args[2..]))
      case PositionGreater =>
        if |args| < 3 || !args[0].Text? || !args[1].Text? || !args[2].Num? || args[2].num < 0 then None
        else
          var bound := Position(0, args[0].text, args[1].text, args[2].num);
          Some(Reading(TupleLess(bound, row.position), tokens[1..], args[3..]))
      case _ => None
  }

  /** The condition as a whole: all tokens are read, and every argument is bound to a placeholder. */
  function Evaluate(tokens: seq<Token>, args: seq<Value>, row: Row): Option<bool> {
    var reading :- ReadOr(tokens, args, row);
    if reading.tokens == [] && reading.args == [] then Some(reading.value) else None
  }

  function PlaceholdersOf(token: Token): nat {
    match token
    case Compare(_, _) => 1
    case InPair(_) => 2
    case PositionGreater => 3
    case _ => 0
  }

  function Placeholders(tokens: seq<Token>): nat {
    if tokens == [] then 0 else PlaceholdersOf(tokens[0]) + Placeholders(tokens[1..])
  }

  /** Reading binds one argument to each placeholder it passes. */
  lemma {:induction false} ReadingBinds(tokens: seq<Token>, args: seq<Value>, row: Row, rank: nat)
    requires rank <= 2
    ensures var r := if rank == 2 then ReadOr(tokens, args, row)
                     else if rank == 1 then ReadAnd(tokens, args, row)
                     else ReadAtom(tokens, args, row);
            r.Some? ==> Placeholders(tokens) + |r.value.args| == Placeholders(r.value.tokens) + |args|
    decreases |tokens|, rank
  {
    if rank == 2 {
      ReadingBinds(tokens, args, row, 1);
      var left := ReadAnd(tokens, args, row);
      if left.Some? && left.value.tokens != [] {
        ReadingBinds(left.value.tokens[1..], left.value.args, row, 2);
      }
    } else if rank == 1 {
      ReadingBinds(tokens, args, row, 0);
      var left := ReadAtom(tokens, args, row);
      if left.Some? && left.value.tokens != [] {
        ReadingBinds(left.value.tokens[1..], left.value.args, row, 1);
      }
    } else if tokens != [] && tokens[0] == Open {
      ReadingBinds(tokens[1..], args, row, 2);
    }
  }

  /** A condition that has a meaning has exactly as many placeholders as arguments. */
  lemma PlaceholdersMatchArguments(tokens: seq<Token>, args: seq<Value>, row: Row)
    requires Evaluate(tokens, args, row).Some?
    ensures Placeholders(tokens) == |args|
  {
    ReadingBinds(tokens, args, row, 2);
  }

  /** A visible range; an empty source stands for every source. */
  datatype Range = Range(logDate: int, source: string, start: int, end: int)

  /** An IP filter after its text has been parsed. */
  datatype IPFilter = NoIP | BadIP | IP(address: int)

  /** Filters that are not set are empty or zero. */
  datatype Request = Request(
    source: string, ip: IPFilter, srcIP: IPFilter, dstIP: IPFilter, natIP: IPFilter,
    port: nat, srcPort: nat, dstPort: nat, natPort: nat, protocol: string, action: string, logTag: string)

  /** `canonical` trims and upper-cases. */
  function NormalizeProtocol(raw: string, canonical: string -> string): string {
    match canonical(raw)
    case "6" => "TCP"
    case "17" => "UDP"
    case "1" => "ICMP"
    case other => other
  }

  function ProtocolNumber(protocol: string, canonical: string -> string): string {
    match NormalizeProtocol(protocol, canonical)
    case "TCP" => "6"
    case "UDP" => "17"
    case "ICMP" => "1"
    case _ => protocol
  }

  /** Trimming and upper-casing is done after once, and leaves the protocol names and numbers alone. */
  ghost predicate IsCanonical(canonical: string -> string) {
    && (forall raw :: canonical(canonical(raw)) == canonical(raw))
    && (forall name :: name in {"TCP", "UDP", "ICMP", "6", "17", "1"} ==> canonical(name) == name)
  }

  /** `stored` says the same protocol as `asked`: the three known ones by name or by number, others by name. */
  ghost predicate IsProtocol(asked: string, stored: string) {
    || asked == stored
    || (asked in {"TCP", "6"} && stored in {"TCP", "6"})
    || (asked in {"UDP", "17"} && stored in {"UDP", "17"})
    || (asked in {"ICMP", "1"} && stored in {"ICMP", "1"})
  }

  /** The pair that a protocol filter compares with is the pair of texts that say that protocol. */
  lemma ProtocolForms(raw: string, canonical: string -> string, stored: string)
    requires IsCanonical(canonical)
    ensures var protocol := NormalizeProtocol(raw, canonical);
            stored in {protocol, ProtocolNumber(protocol, canonical)} <==> IsProtocol(canonical(raw), stored)
  {
  }

  /** The conjuncts of a condition. */
  datatype Clause =
    | InRanges(ranges: seq<Range>)
    | Test(column: Column, value: Value)
    | AnyOf(a: Column, b: Column, c: Column, value: Value)
    | Pair(column: Column, first: Value, second: Value)
    | After(cursor: Position)

  function RangeTokens(range: Range): seq<Token> {
    if range.source == "" then
      [Open, Compare(LogDate, Equal), And, Compare(Timestamp, AtLeast), And, Compare(Timestamp, AtMost), Close]
    else
      [Open, Compare(LogDate, Equal), And, Compare(SourceID, Equal), And,
       Compare(Timestamp, AtLeast), And, Compare(Timestamp, AtMost), Close]
  }

  function RangeArgs(range: Range): seq<Value> {
    if range.source == "" then [Num(range.logDate), Num(range.start), Num(range.end)]
    else [Num(range.logDate), Text(range.source), Num(range.start), Num(range.end)]
  }

  function RangesTokens(ranges: seq<Range>): seq<Token>
    requires ranges != []
  {
    if |ranges| == 1 then RangeTokens(ranges[0])
    else RangesTokens(ranges[..|ranges| - 1]) + [Or] + RangeTokens(ranges[|ranges| - 1])
  }

  function RangesArgs(ranges: seq<Range>): seq<Value> {
    if ranges == [] then [] else RangesArgs(ranges[..|ranges| - 1]) + RangeArgs(ranges[|ranges| - 1])
  }

  predicate Valid(clause: Clause) {
    clause.InRanges? ==> clause.ranges != []
  }

  function Tokens(clause: Clause): seq<Token>
    requires Valid(clause)
  {
    match clause
    case InRanges(ranges) => [Open] + RangesTokens(ranges) + [Close]
    case Test(column, _) => [Compare(column, Equal)]
    case AnyOf(a, b, c, _) => [Open, Compare(a, Equal), Or, Compare(b, Equal), Or, Compare(c, Equal), Close]
    case Pair(column, _, _) => [InPair(column)]
    case After(_) => [Open, Compare(Timestamp, Greater), Or, Open, Compare(Timestamp, Equal), And, PositionGreater, Close, Close]
  }

  function Args(clause: Clause): seq<Value> {
    match clause
    case InRanges(ranges) => RangesArgs(ranges)
    case Test(_, value) => [value]
    case AnyOf(_, _, _, value) => [value, value, value]
    case Pair(_, first, second) => [first, second]
    case After(c) => [Num(c.timestamp), Num(c.timestamp), Text(c.source), Text(c.file), Num(c.offset)]
  }

  /** What a range, and what a conjunct, is meant to say about a row. */
  predicate InRange(range: Range, row: Row) {
    && row.logDate == range.logDate
    && (range.source == "" || row.position.source == range.source)
    && range.start <= row.position.timestamp <= range.end
  }

  predicate Meaning(clause: Clause, row: Row) {
    match clause
    case InRanges(ranges) => exists range <- ranges :: InRange(range, row)
    case Test(column, value) => Get(row, column) == value
    case AnyOf(a, b, c, value) => Get(row, a) == value || Get(row, b) == value || Get(row, c) == value
    case Pair(column, first, second) => Get(row, column) == first || Get(row, column) == second
    case After(cursor) => Before(cursor, row.position)
  }

  function OrElse(value: bool, r: Option<Reading>): Option<Reading> {
    match r
    case None => None
    case Some(x) => Some(Reading(value || x.value, x.tokens, x.args))
  }

  function AndAlso(value: bool, r: Option<Reading>): Option<Reading> {
    match r
    case None => None
    case Some(x) => Some(Reading(value && x.value, x.tokens, x.args))
  }

  lemma CompareReads(column: Column, op: Op, value: Value, rest: seq<Token>, more: seq<Value>, row: Row)
    ensures ReadAtom([Compare(column, op)] + rest, [value] + more, row)
         == Some(Reading(Holds(Get(row, column), op, value), rest, more))
  {
  }

  lemma OperandThenOr(tokens: seq<Token>, args: seq<Value>, row: Row, value: bool, rest: seq<Token>, more: seq<Value>)
    requires ReadAtom(tokens, args, row) == Some(Reading(value, [Or] + rest, more))
    ensures ReadOr(tokens, args, row) == OrElse(value, ReadOr(rest, more, row))
  {
  }

  lemma OperandThenAnd(tokens: seq<Token>, args: seq<Value>, row: Row, value: bool, rest: seq<Token>, more: seq<Value>)
    requires ReadAtom(tokens, args, row) == Some(Reading(value, [And] + rest, more))
    ensures ReadAnd(tokens, args, row) == AndAlso(value, ReadAnd(rest, more, row))
  {
  }

  lemma LastOperand(tokens: seq<Token>, args: seq<Value>, row: Row)
    ensures var r := ReadAtom(tokens, args, row);
            r.Some? && (r.value.tokens == [] || r.value.tokens[0] == Close) ==> ReadAnd(tokens, args, row) == r
    ensures var r := ReadAnd(tokens, args, row);
            r.Some? && (r.value.tokens == [] || r.value.tokens[0] == Close) ==> ReadOr(tokens, args, row) == r
  {
  }

  lemma ParenthesesRead(tokens: seq<Token>, args: seq<Value>, row: Row, value: bool, rest: seq<Token>, more: seq<Value>)
    requires ReadOr(tokens, args, row) == Some(Reading(value, [Close] + rest, more))
    ensures ReadAtom([Open] + tokens, args, row) == Some(Reading(value, rest, more))
  {
  }

  lemma BoundsRead(range: Range, rest: seq<Token>, more: seq<Value>, row: Row)
    ensures ReadAnd([Compare(Timestamp, AtLeast)] + ([And] + ([Compare(Timestamp, AtMost)] + ([Close] + rest))),
                    [Num(range.start)] + ([Num(range.end)] + more), row)
         == Some(Reading(range.start <= row.position.timestamp <= range.end, [Close] + rest, more))
  {
    var upper := [Compare(Timestamp, AtMost)] + ([Close] + rest);
    var limit := [Num(range.end)] + more;
    CompareReads(Timestamp, AtMost, Num(range.end), [Close] + rest, more, row);
    LastOperand(upper, limit, row);
    CompareReads(Timestamp, AtLeast, Num(range.start), [And] + upper, limit, row);
    OperandThenAnd([Compare(Timestamp, AtLeast)] + ([And] + upper), [Num(range.start)] + limit, row,
                   row.position.timestamp >= range.start, upper, limit);
  }

  /** The tokens of a range behind its opening parenthesis, grouped the way they are read. */
  lemma RangeShape(range: Range, rest: seq<Token>, more: seq<Value>)
    ensures var bounds := [Compare(Timestamp, AtLeast)] + ([And] + ([Compare(Timestamp, AtMost)] + ([Close] + rest)));
            RangeTokens(range) + rest == [Open] + ([Compare(LogDate, Equal)] + ([And] +
              (if range.source == "" then bounds else [Compare(SourceID, Equal)] + ([And] + bounds))))
    ensures var limits := [Num(range.start)] + ([Num(range.end)] + more);
            RangeArgs(range) + more == [Num(range.logDate)] +
              (if range.source == "" then limits else [Text(range.source)] + limits)
  {
  }

  lemma RangeReads(range: Range, rest: seq<Token>, more: seq<Value>, row: Row)
    ensures ReadAtom(RangeTokens(range) + rest, RangeArgs(range) + more, row) == Some(Reading(InRange(range, row), rest, more))
  {
    var bounds := [Compare(Timestamp, AtLeast)] + ([And] + ([Compare(Timestamp, AtMost)] + ([Close] + rest)));
    var limits := [Num(range.start)] + ([Num(range.end)] + more);
    BoundsRead(range, rest, more, row);
    var tail := if range.source == "" then bounds else [Compare(SourceID, Equal)] + ([And] + bounds);
    var args := if range.source == "" then limits else [Text(range.source)] + limits;
    if range.source != "" {
      CompareReads(SourceID, Equal, Text(range.source), [And] + bounds, limits, row);
      OperandThenAnd(tail, args, row, row.position.source == range.source, bounds, limits);
    }
    var all := [Compare(LogDate, Equal)] + ([And] + tail);
    CompareReads(LogDate, Equal, Num(range.logDate), [And] + tail, args, row);
    OperandThenAnd(all, [Num(range.logDate)] + args, row, row.logDate == range.logDate, tail, args);
    LastOperand(all, [Num(range.logDate)] + args, row);
    ParenthesesRead(all, [Num(range.logDate)] + args, row, InRange(range, row), rest, more);
    RangeShape(range, rest, more);
  }

  ghost predicate InSome(ranges: seq<Range>, row: Row) {
    exists range <- ranges :: InRange(range, row)
  }

  lemma InSomeOfMore(front: seq<Range>, last: Range, row: Row)
    ensures InSome(front + [last], row) <==> InSome(front, row) || InRange(last, row)
  {
  }

  lemma RangeThenOr(range: Range, tokens: seq<Token>, more: seq<Value>, row: Row)
    ensures ReadOr(RangeTokens(range) + ([Or] + tokens), RangeArgs(range) + more, row)
         == OrElse(InRange(range, row), ReadOr(tokens, more, row))
  {
    RangeReads(range, [Or] + tokens, more, row);
    OperandThenOr(RangeTokens(range) + ([Or] + tokens), RangeArgs(range) + more, row, InRange(range, row), tokens, more);
  }

  lemma RangesShape(ranges: seq<Range>, rest: seq<Token>, more: seq<Value>)
    requires ranges != []
    ensures var front, last := ranges[..|ranges| - 1], ranges[|ranges| - 1];
            && ranges == front + [last]
            && RangesArgs(ranges) + more == RangesArgs(front) + (RangeArgs(last) + more)
            && (front != [] ==> RangesTokens(ranges) + rest == RangesTokens(front) + ([Or] + (RangeTokens(last) + rest)))
            && (front == [] ==> RangesTokens(ranges) == RangeTokens(last) && RangesArgs(ranges) == RangeArgs(last))
  {
  }

  lemma {:induction false} RangesThenOr(ranges: seq<Range>, tokens: seq<Token>, more: seq<Value>, row: Row)
    requires ranges != []
    ensures ReadOr(RangesTokens(ranges) + ([Or] + tokens), RangesArgs(ranges) + more, row)
         == OrElse(InSome(ranges, row), ReadOr(tokens, more, row))
  {
    var front, last := ranges[..|ranges| - 1], ranges[|ranges| - 1];
    RangesShape(ranges, [Or] + tokens, more);
    InSomeOfMore(front, last, row);
    RangeThenOr(last, tokens, more, row);
    if front != [] {
      RangesThenOr(front, RangeTokens(last) + ([Or] + tokens), RangeArgs(last) + more, row);
    }
  }

  lemma RangesRead(ranges: seq<Range>, rest: seq<Token>, more: seq<Value>, row: Row)
    requires ranges != []
    ensures ReadOr(RangesTokens(ranges) + ([Close] + rest), RangesArgs(ranges) + more, row)
         == Some(Reading(InSome(ranges, row), [Close] + rest, more))
  {
    var front, last := ranges[..|ranges| - 1], ranges[|ranges| - 1];
    RangesShape(ranges, [Close] + rest, more);
    InSomeOfMore(front, last, row);
    RangeReads(last, [Close] + rest, more, row);
    LastOperand(RangeTokens(last) + ([Close] + rest), RangeArgs(last) + more, row);
    if front != [] {
      RangesThenOr(front, RangeTokens(last) + ([Close] + rest), RangeArgs(last) + more, row);
    }
  }

  lemma CompareThenOr(column: Column, op: Op, value: Value, rest: seq<Token>, more: seq<Value>, row: Row)
    ensures ReadOr([Compare(column, op)] + ([Or] + rest), [value] + more, row)
         == OrElse(Holds(Get(row, column), op, value), ReadOr(rest, more, row))
  {
    CompareReads(column, op, value, [Or] + rest, more, row);
    OperandThenOr([Compare(column, op)] + ([Or] + rest), [value] + more, row, Holds(Get(row, column), op, value), rest, more);
  }

  lemma CompareThenClose(column: Column, op: Op, value: Value, rest: seq<Token>, more: seq<Value>, row: Row)
    ensures ReadOr([Compare(column, op)] + ([Close] + rest), [value] + more, row)
         == Some(Reading(Holds(Get(row, column), op, value), [Close] + rest, more))
  {
    CompareReads(column, op, value, [Close] + rest, more, row);
    LastOperand([Compare(column, op)] + ([Close] + rest), [value] + more, row);
  }

  lemma AnyOfShape(a: Column, b: Column, c: Column, v: Value, rest: seq<Token>, more: seq<Value>)
    ensures Tokens(AnyOf(a, b, c, v)) + rest
         == [Open] + ([Compare(a, Equal)] + ([Or] + ([Compare(b, Equal)] + ([Or] + ([Compare(c, Equal)] + ([Close] + rest))))))
    ensures Args(AnyOf(a, b, c, v)) + more == [v] + ([v] + ([v] + more))
  {
  }

  lemma AnyOfReads(a: Column, b: Column, c: Column, v: Value, rest: seq<Token>, more: seq<Value>, row: Row)
    ensures ReadAtom(Tokens(AnyOf(a, b, c, v)) + rest, Args(AnyOf(a, b, c, v)) + more, row)
         == Some(Reading(Get(row, a) == v || Get(row, b) == v || Get(row, c) == v, rest, more))
  {
    var t3 := [Compare(c, Equal)] + ([Close] + rest);
    var t2 := [Compare(b, Equal)] + ([Or] + t3);
    var t1 := [Compare(a, Equal)] + ([Or] + t2);
    CompareThenClose(c, Equal, v, rest, more, row);
    CompareThenOr(b, Equal, v, t3, [v] + more, row);
    CompareThenOr(a, Equal, v, t2, [v] + ([v] + more), row);
    ParenthesesRead(t1, [v] + ([v] + ([v] + more)), row,
                    Get(row, a) == v || Get(row, b) == v || Get(row, c) == v, rest, more);
    AnyOfShape(a, b, c, v, rest, more);
  }

  lemma AfterShape(c: Position, rest: seq<Token>, more: seq<Value>)
    ensures Tokens(After(c)) + rest
         == [Open] + ([Compare(Timestamp, Greater)] + ([Or] + ([Open] +
              ([Compare(Timestamp, Equal)] + ([And] + ([PositionGreater] + ([Close] + ([Close] + rest))))))))
    ensures Args(After(c)) + more
         == [Num(c.timestamp)] + ([Num(c.timestamp)] + ([Text(c.source), Text(c.file), Num(c.offset)] + more))
  {
  }

  /** `(timestamp = ? AND (source_id, source_file, source_offset) > (?, ?, ?))` */
  lemma TieReads(c: Position, rest: seq<Token>, more: seq<Value>, row: Row)
    ensures ReadAtom([Open] + ([Compare(Timestamp, Equal)] + ([And] + ([PositionGreater] + ([Close] + rest)))),
                     [Num(c.timestamp)] + ([Text(c.source), Text(c.file), Num(c.offset)] + more), row)
         == Some(Reading(row.position.timestamp == c.timestamp && TupleLess(c, row.position), rest, more))
  {
    var tuple := [Text(c.source), Text(c.file), Num(c.offset)] + more;
    var t2 := [PositionGreater] + ([Close] + rest);
    var t1 := [Compare(Timestamp, Equal)] + ([And] + t2);
    var greater := TupleLess(c, row.position);
    assert t2[1..] == [Close] + rest && tuple[3..] == more;
    assert ReadAtom(t2, tuple, row) == Some(Reading(greater, [Close] + rest, more));
    LastOperand(t2, tuple, row);
    CompareReads(Timestamp, Equal, Num(c.timestamp), [And] + t2, tuple, row);
    var same := row.position.timestamp == c.timestamp;
    OperandThenAnd(t1, [Num(c.timestamp)] + tuple, row, same, t2, tuple);
    LastOperand(t1, [Num(c.timestamp)] + tuple, row);
    ParenthesesRead(t1, [Num(c.timestamp)] + tuple, row, same && greater, rest, more);
  }

  lemma AfterReads(c: Position, rest: seq<Token>, more: seq<Value>, row: Row)
    ensures ReadAtom(Tokens(After(c)) + rest, Args(After(c)) + more, row)
         == Some(Reading(Before(c, row.position), rest, more))
  {
    var args := [Num(c.timestamp)] + ([Text(c.source), Text(c.file), Num(c.offset)] + more);
    var tie := [Open] + ([Compare(Timestamp, Equal)] + ([And] + ([PositionGreater] + ([Close] + ([Close] + rest)))));
    TieReads(c, [Close] + rest, more, row);
    LastOperand(tie, args, row);
    CompareThenOr(Timestamp, Greater, Num(c.timestamp), tie, args, row);
    ParenthesesRead([Compare(Timestamp, Greater)] + ([Or] + tie), [Num(c.timestamp)] + args, row,
                    Before(c, row.position), rest, more);
    AfterShape(c, rest, more);
  }

  lemma InRangesReads(ranges: seq<Range>, rest: seq<Token>, more: seq<Value>, row: Row)
    requires ranges != []
    ensures ReadAtom(Tokens(InRanges(ranges)) + rest, Args(InRanges(ranges)) + more, row)
         == Some(Reading(InSome(ranges, row), rest, more))
  {
    RangesRead(ranges, rest, more, row);
    InRangesShape(ranges, rest);
    ParenthesesRead(RangesTokens(ranges) + ([Close] + rest), RangesArgs(ranges) + more, row, InSome(ranges, row), rest, more);
  }

  lemma InRangesShape(ranges: seq<Range>, rest: seq<Token>)
    requires ranges != []
    ensures Tokens(InRanges(ranges)) + rest == [Open] + (RangesTokens(ranges) + ([Close] + rest))
  {
  }

  lemma PairReads(column: Column, first: Value, second: Value, rest: seq<Token>, more: seq<Value>, row: Row)
    ensures ReadAtom(Tokens(Pair(column, first, second)) + rest, Args(Pair(column, first, second)) + more, row)
         == Some(Reading(Get(row, column) == first || Get(row, column) == second, rest, more))
  {
  }

  /** Each conjunct is read as one operand of AND, and means what it is meant to. */
  lemma ClauseReads(clause: Clause, rest: seq<Token>, more: seq<Value>, row: Row)
    requires Valid(clause)
    ensures ReadAtom(Tokens(clause) + rest, Args(clause) + more, row) == Some(Reading(Meaning(clause, row), rest, more))
  {
    match clause
    case InRanges(ranges) =>
      InRangesReads(ranges, rest, more, row);
    case Test(column, value) =>
      CompareReads(column, Equal, value, rest, more, row);
    case AnyOf(a, b, c, value) =>
      AnyOfReads(a, b, c, value, rest, more, row);
    case Pair(column, first, second) =>
      PairReads(column, first, second, rest, more, row);
    case After(cursor) =>
      AfterReads(cursor, rest, more, row);
  }

  predicate AllValid(clauses: seq<Clause>) {
    clauses != [] && forall clause <- clauses :: Valid(clause)
  }

  function AllTokens(clauses: seq<Clause>): seq<Token>
    requires AllValid(clauses)
  {
    if |clauses| == 1 then Tokens(clauses[0])
    else AllTokens(clauses[..|clauses| - 1]) + [And] + Tokens(clauses[|clauses| - 1])
  }

  function AllArgs(clauses: seq<Clause>): seq<Value> {
    if clauses == [] then [] else AllArgs(clauses[..|clauses| - 1]) + Args(clauses[|clauses| - 1])
  }

  ghost predicate AllMean(clauses: seq<Clause>, row: Row) {
    forall clause <- clauses :: Meaning(clause, row)
  }

  lemma ClausesShape(clauses: seq<Clause>, rest: seq<Token>, more: seq<Value>)
    requires AllValid(clauses)
    ensures var front, last := clauses[..|clauses| - 1], clauses[|clauses| - 1];
            && clauses == front + [last] && Valid(last)
            && AllArgs(clauses) + more == AllArgs(front) + (Args(last) + more)
            && (front != [] ==> AllValid(front))
            && (front != [] ==> AllTokens(clauses) + rest == AllTokens(front) + ([And] + (Tokens(last) + rest)))
            && (front == [] ==> AllTokens(clauses) == Tokens(last) && AllArgs(clauses) == Args(last))
  {
    var front, last := clauses[..|clauses| - 1], clauses[|clauses| - 1];
    Regroup(AllArgs(front), Args(last), more);
    if front == [] {
      OneClause(clauses);
    } else {
      RegroupAnd(AllTokens(front), Tokens(last), rest);
    }
  }

  lemma OneClause(clauses: seq<Clause>)
    requires |clauses| == 1
    ensures AllArgs(clauses) == Args(clauses[0])
  {
    assert AllArgs(clauses) == [] + Args(clauses[0]);
  }

  lemma RegroupAnd(a: seq<Token>, b: seq<Token>, c: seq<Token>)
    ensures (a + [And] + b) + c == a + ([And] + (b + c))
  {
  }

  lemma AllMeanOfMore(front: seq<Clause>, last: Clause, row: Row)
    ensures AllMean(front + [last], row) <==> AllMean(front, row) && Meaning(last, row)
  {
  }

  lemma {:induction false} ClausesThenAnd(clauses: seq<Clause>, tokens: seq<Token>, more: seq<Value>, row: Row)
    requires AllValid(clauses)
    ensures ReadAnd(AllTokens(clauses) + ([And] + tokens), AllArgs(clauses) + more, row)
         == AndAlso(AllMean(clauses, row), ReadAnd(tokens, more, row))
  {
    var front, last := clauses[..|clauses| - 1], clauses[|clauses| - 1];
    ClausesShape(clauses, [And] + tokens, more);
    AllMeanOfMore(front, last, row);
    ClauseReads(last, [And] + tokens, more, row);
    OperandThenAnd(Tokens(last) + ([And] + tokens), Args(last) + more, row, Meaning(last, row), tokens, more);
    if front != [] {
      ClausesThenAnd(front, Tokens(last) + ([And] + tokens), Args(last) + more, row);
    }
  }

  /** The conjunction of the clauses, read as SQL, is true of exactly the rows all of them are true of. */
  lemma ConjunctionMeaning(clauses: seq<Clause>, row: Row)
    requires AllValid(clauses)
    ensures Evaluate(AllTokens(clauses), AllArgs(clauses), row) == Some(AllMean(clauses, row))
  {
    var front, last := clauses[..|clauses| - 1], clauses[|clauses| - 1];
    ClausesShape(clauses, [], []);
    AllMeanOfMore(front, last, row);
    ClauseReads(last, [], [], row);
    LastOperand(Tokens(last) + [], Args(last) + [], row);
    assert AllTokens(clauses) + [] == AllTokens(clauses) && AllArgs(clauses) + [] == AllArgs(clauses);
    if front != [] {
      ClausesThenAnd(front, Tokens(last) + [], Args(last) + [], row);
      LastOperand(AllTokens(clauses), AllArgs(clauses), row);
    }
  }

  function When(present: bool, clause: Clause): Option<Clause> {
    if present then Some(clause) else None
  }

  function AnyIP(filter: IPFilter): Option<Clause> {
    if filter.IP? then Some(AnyOf(SrcIP, DstIP, NatIP, Num(filter.address))) else None
  }

  function OneIP(filter: IPFilter, column: Column): Option<Clause> {
    if filter.IP? then Some(Test(column, Num(filter.address))) else None
  }

  /** The possible filters of a request in the order their conditions are appended. */
  function AddressFilters(req: Request): seq<Option<Clause>> {
    [When(req.source != "", Test(SourceID, Text(req.source))),
     AnyIP(req.ip), OneIP(req.srcIP, SrcIP), OneIP(req.dstIP, DstIP), OneIP(req.natIP, NatIP)]
  }

  function PortFilters(req: Request): seq<Option<Clause>> {
    [When(req.port != 0, AnyOf(SrcPort, DstPort, NatPort, Num(req.port))),
     When(req.srcPort != 0, Test(SrcPort, Num(req.srcPort))),
     When(req.dstPort != 0, Test(DstPort, Num(req.dstPort))),
     When(req.natPort != 0, Test(NatPort, Num(req.natPort)))]
  }

  function TextFilters(req: Request, canonical: string -> string): seq<Option<Clause>> {
    var protocol := NormalizeProtocol(req.protocol, canonical);
    [When(req.protocol != "", Pair(Protocol, Text(protocol), Text(ProtocolNumber(protocol, canonical)))),
     When(req.action != "", Test(Action, Text(req.action))),
     When(req.logTag != "", Test(LogTag, Text(req.logTag)))]
  }

  function AllFilters(req: Request, canonical: string -> string): seq<Option<Clause>> {
    AddressFilters(req) + PortFilters(req) + TextFilters(req, canonical)
  }

  predicate IPMatches(filter: IPFilter, addresses: set<int>) {
    filter.IP? ==> filter.address in addresses
  }

  predicate AddressesMatch(req: Request, row: Row) {
    && (req.source != "" ==> row.position.source == req.source)
    && IPMatches(req.ip, {row.srcIP, row.dstIP, row.natIP})
    && IPMatches(req.srcIP, {row.srcIP})
    && IPMatches(req.dstIP, {row.dstIP})
    && IPMatches(req.natIP, {row.natIP})
  }

  predicate PortsMatch(req: Request, row: Row) {
    && (req.port != 0 ==> req.port in {row.srcPort, row.dstPort, row.natPort})
    && (req.srcPort != 0 ==> row.srcPort == req.srcPort)
    && (req.dstPort != 0 ==> row.dstPort == req.dstPort)
    && (req.natPort != 0 ==> row.natPort == req.natPort)
  }

  predicate TextsMatch(req: Request, canonical: string -> string, row: Row) {
    var protocol := NormalizeProtocol(req.protocol, canonical);
    && (req.protocol != "" ==> row.protocol in {protocol, ProtocolNumber(protocol, canonical)})
    && (req.action != "" ==> row.action == req.action)
    && (req.logTag != "" ==> row.logTag == req.logTag)
  }

  /** What a request asks for, apart from visibility. */
  predicate Matches(req: Request, canonical: string -> string, row: Row) {
    AddressesMatch(req, row) && PortsMatch(req, row) && TextsMatch(req, canonical, row)
  }

  predicate FilterHolds(filter: Option<Clause>, row: Row) {
    filter.Some? ==> Meaning(filter.value, row)
  }

  ghost predicate AllHold(filters: seq<Option<Clause>>, row: Row) {
    forall i :: 0 <= i < |filters| ==> FilterHolds(filters[i], row)
  }

  lemma AddressesHold(req: Request, row: Row)
    ensures AllHold(AddressFilters(req), row) <==> AddressesMatch(req, row)
  {
    var f := AddressFilters(req);
    assert AllHold(f, row) <==>
      FilterHolds(f[0], row) && FilterHolds(f[1], row) && FilterHolds(f[2], row) && FilterHolds(f[3], row) && FilterHolds(f[4], row);
  }

  lemma PortsHold(req: Request, row: Row)
    ensures AllHold(PortFilters(req), row) <==> PortsMatch(req, row)
  {
    var f := PortFilters(req);
    assert AllHold(f, row) <==>
      FilterHolds(f[0], row) && FilterHolds(f[1], row) && FilterHolds(f[2], row) && FilterHolds(f[3], row);
  }

  lemma TextsHold(req: Request, canonical: string -> string, row: Row)
    ensures AllHold(TextFilters(req, canonical), row) <==> TextsMatch(req, canonical, row)
  {
    var f := TextFilters(req, canonical);
    assert AllHold(f, row) <==> FilterHolds(f[0], row) && FilterHolds(f[1], row) && FilterHolds(f[2], row);
  }

  lemma AllHoldOfBoth(a: seq<Option<Clause>>, b: seq<Option<Clause>>, row: Row)
    ensures AllHold(a + b, row) <==> AllHold(a, row) && AllHold(b, row)
  {
    var all := a + b;
    if AllHold(all, row) {
      forall i | 0 <= i < |a| ensures FilterHolds(a[i], row) { assert all[i] == a[i]; }
      forall i | 0 <= i < |b| ensures FilterHolds(b[i], row) { assert all[|a| + i] == b[i]; }
    }
  }

  lemma FiltersHold(req: Request, canonical: string -> string, row: Row)
    ensures AllHold(AllFilters(req, canonical), row) <==> Matches(req, canonical, row)
  {
    AddressesHold(req, row);
    PortsHold(req, row);
    TextsHold(req, canonical, row);
    AllHoldOfBoth(AddressFilters(req), PortFilters(req), row);
    AllHoldOfBoth(AddressFilters(req) + PortFilters(req), TextFilters(req, canonical), row);
  }

  /** The clauses of the filters that are present. */
  function Present(filters: seq<Option<Clause>>): seq<Clause> {
    if filters == [] then []
    else
      var last := filters[|filters| - 1];
      Present(filters[..|filters| - 1]) + if last.Some? then [last.value] else []
  }

  lemma {:induction false} PresentMean(ranges: seq<Range>, filters: seq<Option<Clause>>, row: Row)
    ensures AllMean([InRanges(ranges)] + Present(filters), row) <==> InSome(ranges, row) && AllHold(filters, row)
  {
    if filters == [] {
      assert [InRanges(ranges)] + Present(filters) == [] + [InRanges(ranges)];
      AllMeanOfMore([], InRanges(ranges), row);
    } else {
      var front, last := filters[..|filters| - 1], filters[|filters| - 1];
      assert filters == front + [last];
      PresentMean(ranges, front, row);
      AllHoldOfBoth(front, [last], row);
      assert AllHold([last], row) <==> FilterHolds([last][0], row);
      if last.Some? {
        AllMeanOfMore([InRanges(ranges)] + Present(front), last.value, row);
        assert [InRanges(ranges)] + Present(filters) == [InRanges(ranges)] + Present(front) + [last.value];
      }
    }
  }

  datatype Built = Query(tokens: seq<Token>, args: seq<Value>) | InvalidIP | NoVisibleRange

  predicate AnyBadIP(req: Request) {
    req.ip.BadIP? || req.srcIP.BadIP? || req.dstIP.BadIP? || req.natIP.BadIP?
  }

  /** A condition denotes a predicate: alone, and followed by the condition of any cursor. */
  ghost predicate Denotes(tokens: seq<Token>, args: seq<Value>, selects: Row -> bool) {
    && (forall row :: Evaluate(tokens, args, row) == Some(selects(row)))
    && (forall row, cursor ::
          Evaluate(tokens + [And] + Tokens(After(cursor)), args + Args(After(cursor)), row)
            == Some(selects(row) && Before(cursor, row.position)))
  }

  ghost predicate Selects(req: Request, ranges: seq<Range>, canonical: string -> string, row: Row) {
    InSome(ranges, row) && Matches(req, canonical, row)
  }

  /** Builds the condition and its arguments; a malformed address is reported before missing visibility. */
  method BuildQuerySQL(req: Request, ranges: seq<Range>, canonical: string -> string) returns (built: Built)
    ensures built.InvalidIP? <==> req.ip == BadIP || req.srcIP == BadIP || req.dstIP == BadIP || req.natIP == BadIP
    ensures built.NoVisibleRange? <==> !AnyBadIP(req) && ranges == []
    ensures built.Query? ==> Denotes(built.tokens, built.args, row => Selects(req, ranges, canonical, row))
    ensures built.Query? ==> Placeholders(built.tokens) == |built.args|
  {
    if AnyBadIP(req) {
      return InvalidIP;
    }
    if |ranges| == 0 {
      return NoVisibleRange;
    }
    var tokens, args := BuildRanges(ranges);
    FiltersAreAppendable(req, canonical);
    tokens, args := AppendFilters(AllFilters(req, canonical), tokens, args, ranges);
    QueryMeaning(req, ranges, canonical);
    built := Query(tokens, args);
  }

  method AppendFilters(filters: seq<Option<Clause>>, tokens0: seq<Token>, args0: seq<Value>, ghost ranges: seq<Range>)
    returns (tokens: seq<Token>, args: seq<Value>)
    requires AllValid([InRanges(ranges)])
    requires tokens0 == AllTokens([InRanges(ranges)]) && args0 == AllArgs([InRanges(ranges)])
    requires Appendable(filters)
    ensures AllValid([InRanges(ranges)] + Present(filters))
    ensures tokens == AllTokens([InRanges(ranges)] + Present(filters)) && args == AllArgs([InRanges(ranges)] + Present(filters))
  {
    tokens, args := tokens0, args0;
    ghost var clauses := [InRanges(ranges)];
    assert [InRanges(ranges)] + [] == [InRanges(ranges)];
    for i := 0 to |filters|
      invariant clauses == [InRanges(ranges)] + Present(filters[..i]) && AllValid(clauses)
      invariant tokens == AllTokens(clauses) && args == AllArgs(clauses)
    {
      PresentNext([InRanges(ranges)], filters, i);
      if filters[i].Some? {
        var clause := filters[i].value;
        AddClause(clauses, clause);
        tokens := tokens + [And] + Tokens(clause);
        args := args + Args(clause);
        clauses := clauses + [clause];
      }
    }
    assert filters[..|filters|] == filters;
  }

  lemma PresentNext(before: seq<Clause>, filters: seq<Option<Clause>>, i: nat)
    requires i < |filters|
    ensures filters[i].None? ==> Present(filters[..i + 1]) == Present(filters[..i])
    ensures filters[i].Some? ==> before + Present(filters[..i + 1]) == before + Present(filters[..i]) + [filters[i].value]
  {
    assert filters[..i + 1][..i] == filters[..i];
  }

  ghost predicate Appendable(filters: seq<Option<Clause>>) {
    forall i :: 0 <= i < |filters| && filters[i].Some? ==> Valid(filters[i].value)
  }

  lemma AddClause(clauses: seq<Clause>, clause: Clause)
    requires AllValid(clauses) && Valid(clause)
    ensures AllValid(clauses + [clause])
    ensures AllTokens(clauses + [clause]) == AllTokens(clauses) + [And] + Tokens(clause)
    ensures AllArgs(clauses + [clause]) == AllArgs(clauses) + Args(clause)
  {
  }

  /** The text up to and including these ranges. */
  function OpenRanges(ranges: seq<Range>): seq<Token> {
    if ranges == [] then [Open] else [Open] + RangesTokens(ranges)
  }

  lemma NextRange(ranges: seq<Range>, i: nat)
    requires i < |ranges|
    ensures OpenRanges(ranges[..i + 1]) == OpenRanges(ranges[..i]) + (if i > 0 then [Or] else []) + RangeTokens(ranges[i])
    ensures RangesArgs(ranges[..i + 1]) == RangesArgs(ranges[..i]) + RangeArgs(ranges[i])
  {
    assert ranges[..i + 1][..i] == ranges[..i];
    if i > 0 {
      RegroupOr(RangesTokens(ranges[..i]), RangeTokens(ranges[i]));
    } else {
      Regroup([Open], [], RangeTokens(ranges[0]));
    }
  }

  lemma RegroupOr(a: seq<Token>, b: seq<Token>)
    ensures [Open] + (a + [Or] + b) == [Open] + a + [Or] + b
  {
  }

  method BuildRanges(ranges: seq<Range>) returns (tokens: seq<Token>, args: seq<Value>)
    requires ranges != []
    ensures AllValid([InRanges(ranges)])
    ensures tokens == AllTokens([InRanges(ranges)]) && args == AllArgs([InRanges(ranges)])
  {
    tokens, args := [Open], [];
    for i := 0 to |ranges|
      invariant tokens == OpenRanges(ranges[..i]) && args == RangesArgs(ranges[..i])
    {
      NextRange(ranges, i);
      if i > 0 {
        tokens := tokens + [Or];
      }
      tokens := tokens + RangeTokens(ranges[i]);
      args := args + RangeArgs(ranges[i]);
    }
    assert ranges[..|ranges|] == ranges;
    tokens := tokens + [Close];
    OnlyRanges(ranges);
  }

  lemma OnlyRanges(ranges: seq<Range>)
    requires ranges != []
    ensures AllValid([InRanges(ranges)])
    ensures AllTokens([InRanges(ranges)]) == [Open] + RangesTokens(ranges) + [Close]
    ensures AllArgs([InRanges(ranges)]) == RangesArgs(ranges)
  {
    assert [InRanges(ranges)][..0] == [];
    assert AllArgs([InRanges(ranges)]) == [] + RangesArgs(ranges);
  }

  lemma FiltersAreAppendable(req: Request, canonical: string -> string)
    ensures Appendable(AllFilters(req, canonical))
  {
    AppendableBoth(AddressFilters(req), PortFilters(req));
    AppendableBoth(AddressFilters(req) + PortFilters(req), TextFilters(req, canonical));
  }

  lemma AppendableBoth(a: seq<Option<Clause>>, b: seq<Option<Clause>>)
    requires Appendable(a) && Appendable(b)
    ensures Appendable(a + b)
  {
  }

  lemma {:induction false} PresentAreValid(filters: seq<Option<Clause>>)
    requires Appendable(filters)
    ensures forall clause <- Present(filters) :: Valid(clause)
  {
    if filters != [] {
      PresentAreValid(filters[..|filters| - 1]);
    }
  }

  lemma QueryMeaning(req: Request, ranges: seq<Range>, canonical: string -> string)
    requires ranges != []
    ensures var clauses := [InRanges(ranges)] + Present(AllFilters(req, canonical));
            && AllValid(clauses)
            && Denotes(AllTokens(clauses), AllArgs(clauses), row => Selects(req, ranges, canonical, row))
            && Placeholders(AllTokens(clauses)) == |AllArgs(clauses)|
  {
    var clauses := [InRanges(ranges)] + Present(AllFilters(req, canonical));
    FiltersAreAppendable(req, canonical);
    PresentAreValid(AllFilters(req, canonical));
    assert AllValid(clauses);
    forall row
      ensures Evaluate(AllTokens(clauses), AllArgs(clauses), row) == Some(Selects(req, ranges, canonical, row))
    {
      FiltersHold(req, canonical, row);
      PresentMean(ranges, AllFilters(req, canonical), row);
      ConjunctionMeaning(clauses, row);
    }
    forall row, cursor
      ensures Evaluate(AllTokens(clauses) + [And] + Tokens(After(cursor)), AllArgs(clauses) + Args(After(cursor)), row)
           == Some(Selects(req, ranges, canonical, row) && Before(cursor, row.position))
    {
      FiltersHold(req, canonical, row);
      PresentMean(ranges, AllFilters(req, canonical), row);
      AppendCursor(clauses, cursor, row);
    }
    var row :| row == Row(0, Position(0, "", "", 0), 0, 0, 0, 0, 0, 0, "", "", "");
    assert Evaluate(AllTokens(clauses), AllArgs(clauses), row).Some?;
    PlaceholdersMatchArguments(AllTokens(clauses), AllArgs(clauses), row);
  }

  lemma AppendCursor(clauses: seq<Clause>, cursor: Position, row: Row)
    requires AllValid(clauses)
    ensures Evaluate(AllTokens(clauses) + [And] + Tokens(After(cursor)), AllArgs(clauses) + Args(After(cursor)), row)
         == Some(AllMean(clauses, row) && Before(cursor, row.position))
  {
    AddClause(clauses, After(cursor));
    AllMeanOfMore(clauses, After(cursor), row);
    ConjunctionMeaning(clauses + [After(cursor)], row);
  }
}
