/**
  The hand-written timestamp matchers of the log parser, proved equal to the regular expressions
  that they replace. A line is a string with one character per byte.
 */
module TimestampGrammar {
  import opened Wrappers

  datatype Class = Digit | Letter | Space | Exactly(c: char)

  predicate In(c: char, class_: Class) {
    match class_
    case Digit => '0' <= c <= '9'
    case Letter => 'a' <= c <= 'z' || 'A' <= c <= 'Z'
    case Space => c == '\t' || c == '\n' || c == '\U{00000C}' || c == '\r' || c == ' '
    case Exactly(d) => c == d
  }

  /** The classes of the expressions by the codes of their characters; `\s` does not have the vertical tab. */
  lemma ClassesAre(c: char)
    ensures In(c, Digit) <==> 48 <= c as int <= 57
    ensures In(c, Letter) <==> 65 <= c as int <= 90 || 97 <= c as int <= 122
    ensures In(c, Space) <==> c as int in {9, 10, 12, 13, 32}
    ensures forall d :: In(c, Exactly(d)) <==> c == d
  {
  }

  datatype Re = One(class_: Class) | Seq(first: Re, second: Re) | Opt(re: Re) | Plus(re: Re)

  /** The expression matches exactly `s[i..j]`. */
  ghost predicate Matches(re: Re, s: string, i: nat, j: nat)
    decreases re, j - i
  {
    match re
    case One(class_) => i < |s| && j == i + 1 && In(s[i], class_)
    case Seq(a, b) => exists m :: i <= m <= j && Matches(a, s, i, m) && Matches(b, s, m, j)
    case Opt(a) => i == j || Matches(a, s, i, j)
    case Plus(a) => exists m :: i < m <= j && Matches(a, s, i, m) && (m == j || Matches(re, s, m, j))
  }

  function Repeat(n: nat, re: Re): Re
    requires n > 0
  {
    if n == 1 then re else Seq(re, Repeat(n - 1, re))
  }

  /** `\s+` */
  const SPACES := Plus(One(Space))
  /** `\d{1,2}` */
  const DAY := Seq(One(Digit), Opt(One(Digit)))
  /** `\d{2}:\d{2}:\d{2}` */
  const TIME := Seq(Repeat(2, One(Digit)), Seq(One(Exactly(':')), Seq(Repeat(2, One(Digit)), Seq(One(Exactly(':')), Repeat(2, One(Digit))))))
  /** `[A-Za-z]{3}\s+\d{1,2}\s+\d{2}:\d{2}:\d{2}` */
  const CLOCK := Seq(Repeat(3, One(Letter)), Seq(SPACES, Seq(DAY, Seq(SPACES, TIME))))
  /** `<\d+>` */
  const PRIORITY := Seq(One(Exactly('<')), Seq(Plus(One(Digit)), One(Exactly('>'))))
  /** `(?:<\d+>)?%?` */
  const PREFIX := Seq(Opt(PRIORITY), Opt(One(Exactly('%'))))
  /** `\d{4}` */
  const YEAR := Repeat(4, One(Digit))

  predicate AllIn(s: string, i: nat, j: nat, class_: Class) {
    j <= |s| && forall k :: i <= k < j ==> In(s[k], class_)
  }

  lemma {:induction false} RepeatIsRun(n: nat, class_: Class, s: string, i: nat, j: nat)
    requires n > 0
    ensures Matches(Repeat(n, One(class_)), s, i, j) <==> j == i + n && AllIn(s, i, j, class_)
  {
    if n > 1 {
      if i < |s| && In(s[i], class_) && i + 1 <= j {
        RepeatIsRun(n - 1, class_, s, i + 1, j);
        assert Matches(One(class_), s, i, i + 1);
      }
    }
  }

  lemma {:induction false} PlusIsRun(class_: Class, s: string, i: nat, j: nat)
    ensures Matches(Plus(One(class_)), s, i, j) <==> i < j && AllIn(s, i, j, class_)
    decreases j - i
  {
    if i + 1 < j {
      PlusIsRun(class_, s, i + 1, j);
    }
    if i < |s| && In(s[i], class_) && i < j {
      assert Matches(One(class_), s, i, i + 1);
    }
  }

  /** The first index from `i` on that is not in the class. */
  function RunEnd(s: string, i: nat, class_: Class): (k: nat)
    requires i <= |s|
    ensures i <= k && AllIn(s, i, k, class_) && (k < |s| ==> !In(s[k], class_))
    decreases |s| - i
  {
    if i < |s| && In(s[i], class_) then RunEnd(s, i + 1, class_) else i
  }

  /** `re` matches nothing that starts with a character of the class, and no empty text. */
  ghost predicate StartsOutside(re: Re, s: string, class_: Class) {
    forall i: nat, j: nat :: Matches(re, s, i, j) ==> i < |s| && !In(s[i], class_)
  }

  lemma SplitSeq(a: Re, b: Re, s: string, i: nat, j: nat) returns (m: nat)
    requires Matches(Seq(a, b), s, i, j)
    ensures i <= m <= j && Matches(a, s, i, m) && Matches(b, s, m, j)
  {
    m :| i <= m <= j && Matches(a, s, i, m) && Matches(b, s, m, j);
  }

  lemma JoinSeq(a: Re, b: Re, s: string, i: nat, m: nat, j: nat)
    requires i <= m <= j && Matches(a, s, i, m) && Matches(b, s, m, j)
    ensures Matches(Seq(a, b), s, i, j)
  {
  }

  /** At `i`, `re` matches up to `end` if `ok` holds, and nothing otherwise. */
  ghost predicate MatchesOnly(re: Re, s: string, i: nat, ok: bool, end: nat) {
    forall j: nat :: Matches(re, s, i, j) <==> ok && j == end
  }

  lemma ThenOnly(a: Re, b: Re, s: string, i: nat, okA: bool, m: nat, okB: bool, end: nat)
    requires i <= m <= end
    requires MatchesOnly(a, s, i, okA, m) && (okA ==> MatchesOnly(b, s, m, okB, end))
    ensures MatchesOnly(Seq(a, b), s, i, okA && okB, end)
  {
    forall j: nat
      ensures Matches(Seq(a, b), s, i, j) <==> okA && okB && j == end
    {
      if Matches(Seq(a, b), s, i, j) {
        var k := SplitSeq(a, b, s, i, j);
      }
      if okA && okB {
        JoinSeq(a, b, s, i, m, end);
      }
    }
  }

  lemma RepeatOnly(n: nat, class_: Class, s: string, i: nat)
    requires n > 0
    ensures MatchesOnly(Repeat(n, One(class_)), s, i, AllIn(s, i, i + n, class_), i + n)
  {
    forall j: nat {
      RepeatIsRun(n, class_, s, i, j);
    }
  }

  /** Giving up part of a run never helps: what follows must start outside the class. */
  lemma GreedyRun(class_: Class, b: Re, s: string, i: nat, ok: bool, end: nat)
    requires i <= |s| && StartsOutside(b, s, class_) && RunEnd(s, i, class_) <= end
    requires MatchesOnly(b, s, RunEnd(s, i, class_), ok, end)
    ensures MatchesOnly(Seq(Plus(One(class_)), b), s, i, i < RunEnd(s, i, class_) && ok, end)
  {
    var k := RunEnd(s, i, class_);
    var run := Plus(One(class_));
    forall j: nat
      ensures Matches(Seq(run, b), s, i, j) <==> i < k && ok && j == end
    {
      if Matches(Seq(run, b), s, i, j) {
        var m := SplitSeq(run, b, s, i, j);
        PlusIsRun(class_, s, i, m);
        assert m == k;
      }
      if i < k && ok {
        PlusIsRun(class_, s, i, k);
        JoinSeq(run, b, s, i, k, end);
      }
    }
  }

  predicate IsTime(s: string, i: nat) {
    && i + 8 <= |s|
    && In(s[i], Digit) && In(s[i + 1], Digit) && s[i + 2] == ':'
    && In(s[i + 3], Digit) && In(s[i + 4], Digit) && s[i + 5] == ':'
    && In(s[i + 6], Digit) && In(s[i + 7], Digit)
  }

  lemma TimeOnly(s: string, i: nat)
    ensures MatchesOnly(TIME, s, i, IsTime(s, i), i + 8)
  {
    var two, colon := Repeat(2, One(Digit)), One(Exactly(':'));
    RepeatOnly(2, Digit, s, i);
    RepeatOnly(2, Digit, s, i + 3);
    RepeatOnly(2, Digit, s, i + 6);
    var colon2, colon5 := i + 2 < |s| && s[i + 2] == ':', i + 5 < |s| && s[i + 5] == ':';
    ThenOnly(colon, two, s, i + 5, colon5, i + 6, AllIn(s, i + 6, i + 8, Digit), i + 8);
    ThenOnly(two, Seq(colon, two), s, i + 3, AllIn(s, i + 3, i + 5, Digit), i + 5, colon5 && AllIn(s, i + 6, i + 8, Digit), i + 8);
    var minute := AllIn(s, i + 3, i + 5, Digit) && colon5 && AllIn(s, i + 6, i + 8, Digit);
    ThenOnly(colon, Seq(two, Seq(colon, two)), s, i + 2, colon2, i + 3, minute, i + 8);
    ThenOnly(two, Seq(colon, Seq(two, Seq(colon, two))), s, i, AllIn(s, i, i + 2, Digit), i + 2, colon2 && minute, i + 8);
    assert IsTime(s, i) <==> AllIn(s, i, i + 2, Digit) && colon2 && minute;
  }

  /** The index after the one or two digits at `i`, as the greedy loop finds it. */
  function DayEnd(s: string, i: nat): nat {
    if i < |s| && In(s[i], Digit) then if i + 1 < |s| && In(s[i + 1], Digit) then i + 2 else i + 1 else i
  }

  /** The second digit of a day is never given up: a space must follow. */
  lemma DayOnly(b: Re, s: string, i: nat, ok: bool, end: nat)
    requires DayEnd(s, i) <= end && StartsOutside(b, s, Digit)
    requires MatchesOnly(b, s, DayEnd(s, i), ok, end)
    ensures MatchesOnly(Seq(DAY, b), s, i, i < DayEnd(s, i) && ok, end)
  {
    var k := DayEnd(s, i);
    var digit := One(Digit);
    forall j: nat
      ensures Matches(Seq(DAY, b), s, i, j) <==> i < k && ok && j == end
    {
      if Matches(Seq(DAY, b), s, i, j) {
        var m := SplitSeq(DAY, b, s, i, j);
        var first := SplitSeq(digit, Opt(digit), s, i, m);
        assert m == k;
      }
      if i < k && ok {
        assert Matches(digit, s, i, i + 1);
        assert k == i + 2 ==> Matches(digit, s, i + 1, k);
        assert Matches(Opt(digit), s, i + 1, k);
        JoinSeq(digit, Opt(digit), s, i, i + 1, k);
        JoinSeq(DAY, b, s, i, k, end);
      }
    }
  }

  lemma SpacesStartOutsideDigits(b: Re, s: string)
    ensures StartsOutside(Seq(SPACES, b), s, Digit)
  {
    forall i: nat, j: nat | Matches(Seq(SPACES, b), s, i, j)
      ensures i < |s| && !In(s[i], Digit)
    {
      var m := SplitSeq(SPACES, b, s, i, j);
      PlusIsRun(Space, s, i, m);
    }
  }

  lemma DaysStartOutsideSpaces(b: Re, s: string)
    ensures StartsOutside(Seq(DAY, b), s, Space)
  {
    forall i: nat, j: nat | Matches(Seq(DAY, b), s, i, j)
      ensures i < |s| && !In(s[i], Space)
    {
      var m := SplitSeq(DAY, b, s, i, j);
      var first := SplitSeq(One(Digit), Opt(One(Digit)), s, i, m);
    }
  }

  lemma TimesStartOutsideSpaces(s: string)
    ensures StartsOutside(TIME, s, Space)
  {
    forall i: nat, j: nat | Matches(TIME, s, i, j)
      ensures i < |s| && !In(s[i], Space)
    {
      TimeOnly(s, i);
    }
  }

  /** Where the spaces and the time that follow a day end, or -1. */
  function TimeEnd(s: string, i: nat): (end: int)
    requires i <= |s|
    ensures end == -1 || i < end <= |s|
  {
    var time := RunEnd(s, i, Space);
    if time == i || !IsTime(s, time) then -1 else time + 8
  }

  /** Where the clock that starts at `i` ends, or -1. */
  function ClockEnd(s: string, i: nat): (end: int)
    requires i <= |s|
    ensures end == -1 || i < end <= |s|
  {
    if !AllIn(s, i, i + 3, Letter) then -1
    else
      var month := RunEnd(s, i + 3, Space);
      var day := DayEnd(s, month);
      if month == i + 3 || day == month then -1 else TimeEnd(s, day)
  }

  /** The clock expression matches at one end only, the one that the scanner finds. */
  lemma ClockEndIsOnly(s: string, i: nat)
    requires i <= |s|
    ensures forall j: nat :: Matches(CLOCK, s, i, j) <==> j == ClockEnd(s, i)
  {
    RepeatOnly(3, Letter, s, i);
    var rest := Seq(SPACES, Seq(DAY, Seq(SPACES, TIME)));
    if AllIn(s, i, i + 3, Letter) {
      var month := RunEnd(s, i + 3, Space);
      var day := DayEnd(s, month);
      var time := RunEnd(s, day, Space);
      var end := time + 8;
      TimeOnly(s, time);
      TimesStartOutsideSpaces(s);
      GreedyRun(Space, TIME, s, day, IsTime(s, time), end);
      SpacesStartOutsideDigits(TIME, s);
      DayOnly(Seq(SPACES, TIME), s, month, day < time && IsTime(s, time), end);
      DaysStartOutsideSpaces(Seq(SPACES, TIME), s);
      GreedyRun(Space, Seq(DAY, Seq(SPACES, TIME)), s, i + 3, month < day && day < time && IsTime(s, time), end);
      ThenOnly(Repeat(3, One(Letter)), rest, s, i, true, i + 3, i + 3 < month < day < time && IsTime(s, time), end);
    } else {
      ThenOnly(Repeat(3, One(Letter)), rest, s, i, false, i + 3, false, i + 3);
    }
  }

  function AfterPercent(s: string, i: nat): nat {
    if i < |s| && s[i] == '%' then i + 1 else i
  }

  /** Where the optional prefix ends, or -1 for an opened priority that is not closed. */
  function PrefixEnd(s: string): (start: int)
    ensures start == -1 || 0 <= start <= |s|
  {
    if |s| > 0 && s[0] == '<' then
      var close := RunEnd(s, 1, Digit);
      if close == 1 || close >= |s| || s[close] != '>' then -1 else AfterPercent(s, close + 1)
    else AfterPercent(s, 0)
  }

  lemma PriorityShape(s: string, p: nat)
    requires |s| > 0
    ensures Matches(PRIORITY, s, 0, p) <==>
            var close := RunEnd(s, 1, Digit); s[0] == '<' && 1 < close < |s| && s[close] == '>' && p == close + 1
  {
    var open, shut, digits := One(Exactly('<')), One(Exactly('>')), Plus(One(Digit));
    var close := RunEnd(s, 1, Digit);
    GreedyRun(Digit, shut, s, 1, close < |s| && s[close] == '>', close + 1);
    ThenOnly(open, Seq(digits, shut), s, 0, s[0] == '<', 1, 1 < close < |s| && s[close] == '>', close + 1);
  }

  lemma PrefixMatches(s: string)
    requires PrefixEnd(s) >= 0
    ensures Matches(PREFIX, s, 0, PrefixEnd(s))
  {
    var m := PrefixEnd(s);
    var p := if |s| > 0 && s[0] == '<' then RunEnd(s, 1, Digit) + 1 else 0;
    if p > 0 {
      PriorityShape(s, p);
    }
    assert Matches(Opt(PRIORITY), s, 0, p);
    assert m == p + 1 ==> Matches(One(Exactly('%')), s, p, m);
    JoinSeq(Opt(PRIORITY), Opt(One(Exactly('%'))), s, 0, p, m);
  }

  /** Only one of the ways to match the optional prefix can be followed by a letter: the scanner's. */
  lemma PrefixIsForced(s: string, m: nat)
    requires Matches(PREFIX, s, 0, m) && m < |s| && In(s[m], Letter)
    ensures m == PrefixEnd(s)
  {
    var p := SplitSeq(Opt(PRIORITY), Opt(One(Exactly('%'))), s, 0, m);
    PriorityShape(s, p);
  }

  /** `(?:<\d+>)?%?` followed by the clock, which is `s[m..end]`. */
  ghost predicate StampAt(s: string, m: nat, end: nat) {
    m <= end <= |s| && Matches(PREFIX, s, 0, m) && Matches(CLOCK, s, m, end)
  }

  /** The same followed by `\s+\d{4}`, where the year starts at `year`. */
  ghost predicate StampWithYearAt(s: string, m: nat, end: nat, year: nat) {
    StampAt(s, m, end) && year + 4 <= |s| && Matches(SPACES, s, end, year) && Matches(YEAR, s, year, year + 4)
  }

  /** `\d{4}\s+` followed by the clock, up to `end`. */
  ghost predicate YearFirstAt(s: string, end: nat) {
    end <= |s| && Matches(Seq(YEAR, Seq(SPACES, CLOCK)), s, 0, end)
  }

  lemma StampIsOnly(s: string, m: nat, end: nat)
    ensures StampAt(s, m, end) <==> m == PrefixEnd(s) && m <= |s| && end == ClockEnd(s, m)
  {
    if StampAt(s, m, end) {
      ClockEndIsOnly(s, m);
      PrefixIsForced(s, m);
    }
    if m == PrefixEnd(s) && m <= |s| && end == ClockEnd(s, m) {
      ClockEndIsOnly(s, m);
      PrefixMatches(s);
    }
  }

  lemma StampWithYearIsOnly(s: string, m: nat, end: nat, year: nat)
    ensures StampWithYearAt(s, m, end, year) <==>
            && m == PrefixEnd(s) && m <= |s| && end == ClockEnd(s, m)
            && year == RunEnd(s, end, Space) > end && AllIn(s, year, year + 4, Digit)
  {
    StampIsOnly(s, m, end);
    PlusIsRun(Space, s, end, year);
    RepeatOnly(4, Digit, s, year);
    if StampWithYearAt(s, m, end, year) {
      assert In(s[year], Digit);
    }
  }

  lemma YearFirstIsOnly(s: string, end: nat)
    ensures YearFirstAt(s, end) <==>
            && AllIn(s, 0, 4, Digit)
            && var start := RunEnd(s, 4, Space); start > 4 && end == ClockEnd(s, start)
  {
    RepeatOnly(4, Digit, s, 0);
    if |s| < 4 {
      ThenOnly(YEAR, Seq(SPACES, CLOCK), s, 0, false, 4, false, 4);
    } else {
      var start := RunEnd(s, 4, Space);
      var clock := ClockEnd(s, start);
      ClockEndIsOnly(s, start);
      ClocksStartOutsideSpaces(s);
      var last: nat := if clock == -1 then start else clock;
      GreedyRun(Space, CLOCK, s, 4, clock != -1, last);
      ThenOnly(YEAR, Seq(SPACES, CLOCK), s, 0, AllIn(s, 0, 4, Digit), 4, start > 4 && clock != -1, last);
    }
  }

  lemma ClocksStartOutsideSpaces(s: string)
    ensures StartsOutside(CLOCK, s, Space)
  {
    forall i: nat, j: nat | Matches(CLOCK, s, i, j)
      ensures i < |s| && !In(s[i], Space)
    {
      var letters := Repeat(3, One(Letter));
      var m := SplitSeq(letters, Seq(SPACES, Seq(DAY, Seq(SPACES, TIME))), s, i, j);
      RepeatOnly(3, Letter, s, i);
    }
  }

  method DigitsAt(s: string, i: int, n: nat) returns (ok: bool)
    ensures ok <==> i >= 0 && AllIn(s, i, i + n, Digit)
  {
    if i < 0 || i + n > |s| {
      return false;
    }
    for k := i to i + n
      invariant AllIn(s, i, k, Digit)
    {
      if !In(s[k], Digit) {
        return false;
      }
    }
    return true;
  }

  method SkipRegexpSpace(s: string, start: nat) returns (i: nat)
    requires start <= |s|
    ensures i == RunEnd(s, start, Space)
  {
    i := start;
    while i < |s|
      invariant start <= i <= |s| && RunEnd(s, i, Space) == RunEnd(s, start, Space)
    {
      match s[i]
      case '\t' | '\n' | '\U{00000C}' | '\r' | ' ' => i := i + 1;
      case _ => return;
    }
  }

  method SyslogClockStart(s: string) returns (start: int)
    ensures start == PrefixEnd(s)
  {
    var i := 0;
    if i < |s| && s[i] == '<' {
      var j := i + 1;
      while j < |s| && In(s[j], Digit)
        invariant 1 <= j <= |s| && RunEnd(s, j, Digit) == RunEnd(s, 1, Digit)
        invariant AllIn(s, 1, j, Digit)
      {
        j := j + 1;
      }
      if j == i + 1 || j >= |s| || s[j] != '>' {
        return -1;
      }
      i := j + 1;
    }
    if i < |s| && s[i] == '%' {
      i := i + 1;
    }
    return i;
  }

  method MatchClock(s: string, start: nat) returns (end: int)
    requires start <= |s|
    ensures end == ClockEnd(s, start)
  {
    var i := start;
    if i + 3 > |s| || !In(s[i], Letter) || !In(s[i + 1], Letter) || !In(s[i + 2], Letter) {
      return -1;
    }
    i := i + 3;
    var next := SkipRegexpSpace(s, i);
    if next == i {
      return -1;
    }
    i := next;
    var digits := 0;
    while digits < 2 && i < |s| && In(s[i], Digit)
      invariant 0 <= digits <= 2 && i == next + digits <= |s| && AllIn(s, next, i, Digit)
    {
      i := i + 1;
      digits := digits + 1;
    }
    assert i == DayEnd(s, next) && AllIn(s, start, start + 3, Letter);
    if digits == 0 {
      return -1;
    }
    end := MatchTime(s, i);
  }

  /** The last part of `MatchClock`: spaces and a time. */
  method MatchTime(s: string, start: nat) returns (end: int)
    requires start <= |s|
    ensures end == TimeEnd(s, start)
  {
    var i := SkipRegexpSpace(s, start);
    if i == start {
      return -1;
    }
    var hour := DigitsAt(s, i, 2);
    if !hour || i + 8 > |s| || s[i + 2] != ':' {
      return -1;
    }
    var minute := DigitsAt(s, i + 3, 2);
    var second := DigitsAt(s, i + 6, 2);
    if !minute || s[i + 5] != ':' || !second {
      return -1;
    }
    return i + 8;
  }

  /** A match of the first expression whose text reads as a time `t`. */
  ghost predicate ReadsYearFirst<T>(s: string, read: string -> Option<T>, t: T) {
    exists end: nat :: YearFirstAt(s, end) && read(s[..end]) == Some(t)
  }

  /** A match of the second expression whose clock and year read as a time `t`. */
  ghost predicate ReadsYearLast<T>(s: string, read: string -> Option<T>, t: T) {
    exists m: nat, end: nat, year: nat :: StampWithYearAt(s, m, end, year) && read(s[m..end] + " " + s[year..year + 4]) == Some(t)
  }

  /** A match of the third expression whose clock reads as a time `t`. */
  ghost predicate ReadsWithoutYear<T>(s: string, read: string -> Option<T>, t: T) {
    exists m: nat, end: nat :: StampAt(s, m, end) && read(s[m..end]) == Some(t)
  }

  /** Where a line's leading year and clock end, or -1. */
  function YearFirstEnd(s: string): (end: int)
    ensures end <= |s|
  {
    if AllIn(s, 0, 4, Digit) && RunEnd(s, 4, Space) > 4 then ClockEnd(s, RunEnd(s, 4, Space)) else -1
  }

  /** Where a line's clock ends when it follows the optional prefix, or -1. */
  function StampEnd(s: string): (end: int)
    ensures end >= 0 ==> 0 <= PrefixEnd(s) < end <= |s|
  {
    if PrefixEnd(s) >= 0 then ClockEnd(s, PrefixEnd(s)) else -1
  }

  /** Where the year after that clock starts, or -1. */
  function TrailingYear(s: string): (year: int)
    ensures year >= 0 ==> 0 <= StampEnd(s) < year <= year + 4 <= |s|
  {
    if StampEnd(s) >= 0 then
      var year := RunEnd(s, StampEnd(s), Space);
      if year > StampEnd(s) && AllIn(s, year, year + 4, Digit) then year else -1
    else -1
  }

  function YearFirstText(s: string): Option<string> {
    if YearFirstEnd(s) >= 0 then Some(s[..YearFirstEnd(s)]) else None
  }

  function YearLastText(s: string): Option<string> {
    var year := TrailingYear(s);
    if year >= 0 then Some(s[PrefixEnd(s)..StampEnd(s)] + " " + s[year..year + 4]) else None
  }

  function WithoutYearText(s: string): Option<string> {
    if StampEnd(s) >= 0 then Some(s[PrefixEnd(s)..StampEnd(s)]) else None
  }

  function Read<T>(text: Option<string>, read: string -> Option<T>): Option<T> {
    if text.Some? then read(text.value) else None
  }

  function OrElse<T>(first: Option<T>, second: Option<T>): Option<T> {
    if first.Some? then first else second
  }

  lemma YearFirstReading<T>(s: string, read: string -> Option<T>, t: T)
    ensures ReadsYearFirst(s, read, t) <==> Read(YearFirstText(s), read) == Some(t)
  {
    forall end: nat {
      YearFirstIsOnly(s, end);
    }
    if Read(YearFirstText(s), read) == Some(t) {
      assert YearFirstAt(s, YearFirstEnd(s));
    }
  }

  lemma YearLastReading<T>(s: string, read: string -> Option<T>, t: T)
    ensures ReadsYearLast(s, read, t) <==> Read(YearLastText(s), read) == Some(t)
  {
    forall m: nat, end: nat, year: nat {
      StampWithYearIsOnly(s, m, end, year);
    }
    if TrailingYear(s) >= 0 {
      assert StampWithYearAt(s, PrefixEnd(s), StampEnd(s), TrailingYear(s));
    }
  }

  lemma WithoutYearReading<T>(s: string, read: string -> Option<T>, t: T)
    ensures ReadsWithoutYear(s, read, t) <==> Read(WithoutYearText(s), read) == Some(t)
  {
    forall m: nat, end: nat {
      StampIsOnly(s, m, end);
    }
    if StampEnd(s) >= 0 {
      assert StampAt(s, PrefixEnd(s), StampEnd(s));
    }
  }

  /** The time that the scanners find, or `fallback`. */
  function TimeOf<T>(
    s: string, fallback: Option<T>,
    yearFirst: string -> Option<T>, yearLast: string -> Option<T>, withoutYear: string -> Option<T>): Option<T>
  {
    OrElse(Read(YearFirstText(s), yearFirst),
           OrElse(OrElse(Read(YearLastText(s), yearLast), Read(WithoutYearText(s), withoutYear)), fallback))
  }

  /**
    The time of a line is that of the first of the three expressions which matches with a readable
    time, and the fallback if there is none.
   */
  lemma TimeOfIsFirstReading<T(!new)>(
    s: string, fallback: Option<T>,
    yearFirst: string -> Option<T>, yearLast: string -> Option<T>, withoutYear: string -> Option<T>)
    ensures var r := TimeOf(s, fallback, yearFirst, yearLast, withoutYear);
            if exists t :: ReadsYearFirst(s, yearFirst, t) then forall t :: ReadsYearFirst(s, yearFirst, t) <==> r == Some(t)
            else if exists t :: ReadsYearLast(s, yearLast, t) then forall t :: ReadsYearLast(s, yearLast, t) <==> r == Some(t)
            else if exists t :: ReadsWithoutYear(s, withoutYear, t) then forall t :: ReadsWithoutYear(s, withoutYear, t) <==> r == Some(t)
            else r == fallback
  {
    forall t
      ensures ReadsYearFirst(s, yearFirst, t) <==> Read(YearFirstText(s), yearFirst) == Some(t)
    {
      YearFirstReading(s, yearFirst, t);
    }
    forall t
      ensures ReadsYearLast(s, yearLast, t) <==> Read(YearLastText(s), yearLast) == Some(t)
    {
      YearLastReading(s, yearLast, t);
    }
    forall t
      ensures ReadsWithoutYear(s, withoutYear, t) <==> Read(WithoutYearText(s), withoutYear) == Some(t)
    {
      WithoutYearReading(s, withoutYear, t);
    }
  }

  /** The first half of `ParseNATTimestamp`. */
  method ParseYearFirst<T>(line: string, yearFirst: string -> Option<T>) returns (r: Option<T>)
    ensures r == Read(YearFirstText(line), yearFirst)
  {
    var startsWithYear := DigitsAt(line, 0, 4);
    if startsWithYear {
      var start := SkipRegexpSpace(line, 4);
      if start > 4 {
        var end := MatchClock(line, start);
        if end >= 0 {
          return yearFirst(line[..end]);
        }
      }
    }
    return None;
  }

  /** The second half: a clock after the optional prefix, with or without a year after it. */
  method ParseStamp<T>(line: string, yearLast: string -> Option<T>, withoutYear: string -> Option<T>) returns (r: Option<T>)
    ensures r == OrElse(Read(YearLastText(line), yearLast), Read(WithoutYearText(line), withoutYear))
  {
    var start := SyslogClockStart(line);
    var end := -1;
    if start >= 0 {
      end := MatchClock(line, start);
    }
    if end >= 0 {
      var clock := line[start..end];
      assert WithoutYearText(line) == Some(clock);
      var yearStart := SkipRegexpSpace(line, end);
      var hasYear := DigitsAt(line, yearStart, 4);
      if yearStart > end && hasYear {
        assert YearLastText(line) == Some(clock + " " + line[yearStart..yearStart + 4]);
        r := yearLast(clock + " " + line[yearStart..yearStart + 4]);
        if r.Some? {
          return;
        }
      }
      r := withoutYear(clock);
      return;
    }
    return None;
  }

  /** How a text reads as a time is left open; `fallback` is none for the zero date. */
  method ParseNATTimestamp<T>(
    line: string, fallback: Option<T>,
    yearFirst: string -> Option<T>, yearLast: string -> Option<T>, withoutYear: string -> Option<T>)
    returns (r: Option<T>)
    ensures r == TimeOf(line, fallback, yearFirst, yearLast, withoutYear)
  {
    r := ParseYearFirst(line, yearFirst);
    if r.Some? {
      return;
    }
    r := ParseStamp(line, yearLast, withoutYear);
    if r.Some? {
      return;
    }
    return fallback;
  }
}
