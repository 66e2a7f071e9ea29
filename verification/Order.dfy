/** Comparison of strings and of the composite keys that rows are ordered by. */
module Order {
  /** `a` precedes `b` in byte order, as the database compares strings. */
  predicate StringLess(a: string, b: string) {
    if b == "" then false
    else if a == "" then true
    else if a[0] != b[0] then a[0] < b[0]
    else StringLess(a[1..], b[1..])
  }

  lemma {:induction false} StringTrichotomy(a: string, b: string)
    ensures a == b || StringLess(a, b) || StringLess(b, a)
    ensures !(StringLess(a, b) && StringLess(b, a))
    ensures !StringLess(a, a)
  {
    if a != "" && b != "" && a[0] == b[0] {
      StringTrichotomy(a[1..], b[1..]);
      assert a[1..] == b[1..] ==> a == b by {
        assert a == [a[0]] + a[1..] && b == [b[0]] + b[1..];
      }
    }
    if a != "" {
      StringTrichotomy(a[1..], a[1..]);
    }
  }

  lemma {:induction false} StringTransitive(a: string, b: string, c: string)
    requires StringLess(a, b) && StringLess(b, c)
    ensures StringLess(a, c)
  {
    if a != "" && a[0] == b[0] && b[0] == c[0] {
      StringTransitive(a[1..], b[1..], c[1..]);
    }
  }

  /** The first place where two strings differ decides; a string comes before those it begins. */
  lemma {:induction false} StringLessMeaning(a: string, b: string)
    ensures StringLess(a, b) <==> exists k :: LessFrom(a, b, k)
  {
    if b != "" && a != "" && a[0] == b[0] {
      StringLessMeaning(a[1..], b[1..]);
      if k :| LessFrom(a[1..], b[1..], k) {
        assert LessFrom(a, b, k + 1);
      }
      if k :| LessFrom(a, b, k) {
        assert LessFrom(a[1..], b[1..], k - 1);
      }
    } else {
      assert StringLess(a, b) <==> LessFrom(a, b, 0);
    }
  }

  /** The strings agree before `k`; there `a` has ended, or has the lesser character. */
  predicate LessFrom(a: string, b: string, k: int) {
    && 0 <= k <= |a| && k < |b|
    && (forall i :: 0 <= i < k ==> a[i] == b[i])
    && (k == |a| || a[k] < b[k])
  }

  /** The columns that identify a row and that query results are ordered by. */
  datatype Position = Position(timestamp: int, source: string, file: string, offset: nat)

  predicate Before(a: Position, b: Position) {
    || a.timestamp < b.timestamp
    || (a.timestamp == b.timestamp && TupleLess(a, b))
  }

  /** The tuple comparison `(source_id, source_file, source_offset) < (?, ?, ?)`. */
  predicate TupleLess(a: Position, b: Position) {
    || StringLess(a.source, b.source)
    || (a.source == b.source && StringLess(a.file, b.file))
    || (a.source == b.source && a.file == b.file && a.offset < b.offset)
  }

  /** Rows are ordered by the first column that differs: time, source, file, offset. */
  lemma BeforeMeaning(a: Position, b: Position)
    ensures Before(a, b) <==>
      if a.timestamp != b.timestamp then a.timestamp < b.timestamp
      else if a.source != b.source then StringLess(a.source, b.source)
      else if a.file != b.file then StringLess(a.file, b.file)
      else a.offset < b.offset
  {
    StringTrichotomy(a.source, b.source);
    StringTrichotomy(a.file, b.file);
  }

  lemma BeforeIsTotal(a: Position, b: Position)
    ensures a == b || Before(a, b) || Before(b, a)
    ensures !(Before(a, b) && Before(b, a))
    ensures !Before(a, a)
  {
    StringTrichotomy(a.source, b.source);
    StringTrichotomy(a.file, b.file);
    StringTrichotomy(a.source, a.source);
    StringTrichotomy(a.file, a.file);
  }

  lemma BeforeIsTransitive(a: Position, b: Position, c: Position)
    requires Before(a, b) && Before(b, c)
    ensures Before(a, c)
  {
    if StringLess(a.source, b.source) && StringLess(b.source, c.source) {
      StringTransitive(a.source, b.source, c.source);
    }
    if StringLess(a.file, b.file) && StringLess(b.file, c.file) {
      StringTransitive(a.file, b.file, c.file);
    }
  }
}
