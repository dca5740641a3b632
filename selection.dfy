/**
 * The selection half of print_last_operations: keep the executed operations,
 * sort them newest first with a stable sort, and take the first n.
 */
module Selection {
  import opened Wrappers
  import opened PyStr
  import opened Dates
  import opened Operations

  /** op != None and op.state == "EXECUTED". */
  predicate IsExecuted(entry: Option<Operation>) {
    entry.Some? && entry.value.state == "EXECUTED"
  }

  /** [op for op in operations if op != None and op.state == "EXECUTED"] */
  function Executed(operations: seq<Option<Operation>>): (r: seq<Operation>)
    ensures |r| <= |operations|
    ensures forall i | 0 <= i < |r| :: r[i].state == "EXECUTED"
    ensures forall op: Operation :: op in r <==> Some(op) in operations && op.state == "EXECUTED"
  {
    if operations == [] then []
    else (if IsExecuted(operations[0]) then [operations[0].value] else []) + Executed(operations[1..])
  }

  lemma {:induction false} ExecutedAppend(a: seq<Option<Operation>>, b: seq<Option<Operation>>)
    ensures Executed(a + b) == Executed(a) + Executed(b)
  {
    if a == [] {
      assert a + b == b;
    } else {
      assert (a + b)[1..] == a[1..] + b;
      ExecutedAppend(a[1..], b);
    }
  }

  /** An entry that is None or not executed is dropped wherever it stands. */
  lemma ExecutedSkips(a: seq<Option<Operation>>, x: Option<Operation>, b: seq<Option<Operation>>)
    requires !IsExecuted(x)
    ensures Executed(a + [x] + b) == Executed(a + b)
  {
    assert a + [x] + b == a + ([x] + b);
    assert ([x] + b)[1..] == b;
    ExecutedAppend(a, [x] + b);
    ExecutedAppend(a, b);
  }

  function Wrap(ops: seq<Operation>): (r: seq<Option<Operation>>)
    ensures |r| == |ops| && forall i | 0 <= i < |ops| :: r[i] == Some(ops[i])
  {
    if ops == [] then [] else [Some(ops[0])] + Wrap(ops[1..])
  }

  /** Filtering an already filtered list changes nothing. */
  lemma {:induction false} ExecutedIdempotent(operations: seq<Option<Operation>>)
    ensures Executed(Wrap(Executed(operations))) == Executed(operations)
  {
    if operations != [] {
      var head := if IsExecuted(operations[0]) then [operations[0].value] else [];
      assert Executed(operations) == head + Executed(operations[1..]);
      assert Wrap(head + Executed(operations[1..])) == Wrap(head) + Wrap(Executed(operations[1..]));
      ExecutedAppend(Wrap(head), Wrap(Executed(operations[1..])));
      ExecutedIdempotent(operations[1..]);
    }
  }

  /** An input without executed operations (in particular the empty one) selects nothing. */
  lemma {:induction false} ExecutedEmpty(operations: seq<Option<Operation>>)
    requires forall i | 0 <= i < |operations| :: !IsExecuted(operations[i])
    ensures Executed(operations) == []
  {
    if operations != [] {
      ExecutedEmpty(operations[1..]);
    }
  }

  // ---------------------------------------------------------------------------
  // list.sort(key=lambda op: op.date, reverse=True)

  /** Newest first: no operation is dated before a later one in the list. */
  predicate SortedNewestFirst(s: seq<Operation>) {
    forall i, j | 0 <= i < j < |s| :: !Before(s[i].date, s[j].date)
  }

  /**
   * Where x goes in t: the index of the first operation of t dated before x,
   * or the end of t when there is none.
   */
  function InsertionPoint(x: Operation, t: seq<Operation>): (k: nat)
    ensures k <= |t|
    ensures forall i | 0 <= i < k :: !Before(t[i].date, x.date)
    ensures k < |t| ==> Before(t[k].date, x.date)
  {
    if t == [] || Before(t[0].date, x.date) then 0 else 1 + InsertionPoint(x, t[1..])
  }

  /** x placed before the first operation of t dated before it. */
  function Insert(x: Operation, t: seq<Operation>): (r: seq<Operation>)
    ensures |r| == |t| + 1
  {
    var k := InsertionPoint(x, t);
    t[..k] + [x] + t[k..]
  }

  /** The stable newest-first sort, as insertion of each element in input order. */
  function SortByDate(s: seq<Operation>): (r: seq<Operation>)
    ensures |r| == |s|
  {
    if s == [] then [] else Insert(s[|s| - 1], SortByDate(s[..|s| - 1]))
  }

  lemma InsertPermutation(x: Operation, t: seq<Operation>)
    ensures multiset(Insert(x, t)) == multiset(t) + multiset{x}
  {
    var k := InsertionPoint(x, t);
    assert t == t[..k] + t[k..];
  }

  /** The sort only reorders: the result is a permutation of its input. */
  lemma {:induction false} SortByDatePermutation(s: seq<Operation>)
    ensures multiset(SortByDate(s)) == multiset(s)
  {
    if s != [] {
      var init, last := s[..|s| - 1], s[|s| - 1];
      SortByDatePermutation(init);
      InsertPermutation(last, SortByDate(init));
      assert s == init + [last];
    }
  }

  lemma InsertSorted(x: Operation, t: seq<Operation>)
    requires SortedNewestFirst(t)
    ensures SortedNewestFirst(Insert(x, t))
  {
    var k := InsertionPoint(x, t);
    var r := Insert(x, t);
    assert forall m | 0 <= m < |r| :: r[m] == if m < k then t[m] else if m == k then x else t[m - 1];
    forall i, j | 0 <= i < j < |r| ensures !Before(r[i].date, r[j].date) {
      if i == k && j - 1 > k {
        assert !Before(t[k].date, t[j - 1].date);
      }
    }
  }

  /** The operations of s dated d, in their order in s. */
  function DatedOn(s: seq<Operation>, d: Date): seq<Operation>
  {
    if s == [] then [] else (if s[0].date == d then [s[0]] else []) + DatedOn(s[1..], d)
  }

  lemma {:induction false} DatedOnAppend(a: seq<Operation>, b: seq<Operation>, d: Date)
    ensures DatedOn(a + b, d) == DatedOn(a, d) + DatedOn(b, d)
  {
    if a == [] {
      assert a + b == b;
    } else {
      assert (a + b)[1..] == a[1..] + b;
      DatedOnAppend(a[1..], b, d);
    }
  }

  lemma {:induction false} DatedOnNone(s: seq<Operation>, d: Date)
    requires forall i | 0 <= i < |s| :: s[i].date != d
    ensures DatedOn(s, d) == []
  {
    if s != [] {
      DatedOnNone(s[1..], d);
    }
  }

  /** In a list sorted newest first, nothing from the insertion point on shares x's date. */
  lemma OlderFromInsertionPoint(x: Operation, t: seq<Operation>)
    requires SortedNewestFirst(t)
    ensures forall i | InsertionPoint(x, t) <= i < |t| :: t[i].date != x.date
  {
    var k := InsertionPoint(x, t);
    forall i | k <= i < |t| ensures t[i].date != x.date {
      if i > k {
        assert !Before(t[k].date, t[i].date);
      }
    }
  }

  lemma DatedOnSplice(pre: seq<Operation>, x: Operation, post: seq<Operation>, d: Date)
    ensures DatedOn(pre + [x] + post, d) == DatedOn(pre, d) + (if x.date == d then [x] else []) + DatedOn(post, d)
  {
    DatedOnAppend(pre + [x], post, d);
    DatedOnAppend(pre, [x], d);
  }

  /** Insertion puts x after every operation of the same date already there. */
  lemma DatedOnInsert(x: Operation, t: seq<Operation>, d: Date)
    requires SortedNewestFirst(t)
    ensures DatedOn(Insert(x, t), d) == DatedOn(t, d) + (if x.date == d then [x] else [])
  {
    var k := InsertionPoint(x, t);
    OlderFromInsertionPoint(x, t);
    assert t == t[..k] + t[k..];
    DatedOnSpliceOlder(t[..k], x, t[k..], d);
  }

  /** x placed before operations none of which shares its date. */
  lemma DatedOnSpliceOlder(pre: seq<Operation>, x: Operation, post: seq<Operation>, d: Date)
    requires forall i | 0 <= i < |post| :: post[i].date != x.date
    ensures DatedOn(pre + [x] + post, d) == DatedOn(pre + post, d) + (if x.date == d then [x] else [])
  {
    DatedOnAppend(pre, post, d);
    DatedOnSplice(pre, x, post, d);
    if x.date == d {
      DatedOnNone(post, d);
    }
  }

  lemma {:induction false} SortByDateSorted(s: seq<Operation>)
    ensures SortedNewestFirst(SortByDate(s))
  {
    if s != [] {
      SortByDateSorted(s[..|s| - 1]);
      InsertSorted(s[|s| - 1], SortByDate(s[..|s| - 1]));
    }
  }

  /**
   * The sort is stable: for every date, the operations of that date keep their
   * relative order.
   */
  lemma {:induction false} SortByDateStable(s: seq<Operation>, d: Date)
    ensures DatedOn(SortByDate(s), d) == DatedOn(s, d)
  {
    if s != [] {
      var init, last := s[..|s| - 1], s[|s| - 1];
      var sorted := SortByDate(init);
      assert SortByDate(s) == Insert(last, sorted);
      SortByDateSorted(init);
      SortByDateStable(init, d);
      DatedOnInsert(last, sorted, d);
      assert s == init + [last];
      DatedOnAppend(init, [last], d);
      assert DatedOn([last], d) == if last.date == d then [last] else [];
    }
  }

  /** Python's list.sort(key=..., reverse=True) promises these three properties of the result. */
  lemma SortByDateSpec(s: seq<Operation>)
    ensures multiset(SortByDate(s)) == multiset(s)
    ensures SortedNewestFirst(SortByDate(s))
    ensures forall d: Date :: DatedOn(SortByDate(s), d) == DatedOn(s, d)
  {
    SortByDatePermutation(s);
    SortByDateSorted(s);
    forall d: Date ensures DatedOn(SortByDate(s), d) == DatedOn(s, d) {
      SortByDateStable(s, d);
    }
  }

  /** In a list sorted newest first, x goes right after the last operation not older than it. */
  lemma InsertAtSorted(x: Operation, t: seq<Operation>, k: nat)
    requires SortedNewestFirst(t)
    requires k <= |t|
    requires k > 0 ==> !Before(t[k - 1].date, x.date)
    requires k < |t| ==> Before(t[k].date, x.date)
    ensures Insert(x, t) == t[..k] + [x] + t[k..]
  {
  }

  /**
   * The inner loop of the insertion sort: shifts the operations of a[..i] dated
   * before x one place right, from the end, and returns the hole it leaves.
   */
  method ShiftOlder(a: array<Operation>, i: nat, x: Operation) returns (j: nat)
    requires i < a.Length
    modifies a
    ensures j <= i
    ensures a[..j] == old(a[..])[..j]
    ensures a[j] == old(a[j])
    ensures a[j + 1..i + 1] == old(a[..])[j..i]
    ensures a[i + 1..] == old(a[..])[i + 1..]
    ensures j > 0 ==> !Before(old(a[..])[j - 1].date, x.date)
    ensures j < i ==> Before(old(a[..])[j].date, x.date)
  {
    ghost var before := a[..];
    j := i;
    while j > 0 && Before(a[j - 1].date, x.date)
      invariant 0 <= j <= i
      invariant a[..j] == before[..j]
      invariant a[j] == before[j]
      invariant a[j + 1..i + 1] == before[j..i]
      invariant j < i ==> Before(before[j].date, x.date)
      invariant a[i + 1..] == before[i + 1..]
    {
      a[j] := a[j - 1];
      j := j - 1;
    }
  }

  /**
   * One step of the insertion sort: a[i] moves left past the operations of
   * a[..i] dated before it.
   */
  method InsertLast(a: array<Operation>, i: nat)
    requires i < a.Length
    requires SortedNewestFirst(a[..i])
    modifies a
    ensures a[..i + 1] == Insert(old(a[i]), old(a[..i]))
    ensures a[i + 1..] == old(a[i + 1..])
  {
    ghost var before := a[..];
    ghost var sorted := before[..i];
    var x := a[i];
    var j := ShiftOlder(a, i, x);
    ghost var shifted := a[..];
    a[j] := x;
    assert a[..] == shifted[j := x];
    InsertAtSorted(x, sorted, j);
    Reassemble(before, shifted, x, i, j);
  }

  lemma Reassemble(before: seq<Operation>, shifted: seq<Operation>, x: Operation, i: nat, j: nat)
    requires j <= i < |before| == |shifted|
    requires shifted[..j] == before[..j]
    requires shifted[j + 1..i + 1] == before[j..i]
    requires shifted[i + 1..] == before[i + 1..]
    ensures shifted[j := x][..i + 1] == before[..i][..j] + [x] + before[..i][j..]
    ensures shifted[j := x][i + 1..] == before[i + 1..]
  {
    var after := shifted[j := x];
    assert after[..i + 1] == after[..j] + [x] + after[j + 1..i + 1];
    assert after[..j] == shifted[..j];
    assert after[j + 1..i + 1] == shifted[j + 1..i + 1];
  }

  /**
   * executed_operations.sort(key=lambda op: op.date, reverse=True), in place:
   * an insertion sort, which is stable.
   */
  method SortNewestFirst(a: array<Operation>)
    modifies a
    ensures a[..] == SortByDate(old(a[..]))
  {
    ghost var input := a[..];
    var i := 0;
    while i < a.Length
      invariant 0 <= i <= a.Length
      invariant a[..i] == SortByDate(input[..i])
      invariant a[i..] == input[i..]
    {
      SortByDateSorted(input[..i]);
      ghost var prev := a[..];
      assert prev[i] == input[i] && prev[i + 1..] == input[i + 1..] by {
        assert prev[i..] == input[i..];
        assert prev[i + 1..] == prev[i..][1..];
        assert input[i + 1..] == input[i..][1..];
      }
      InsertLast(a, i);
      assert input[..i + 1][..i] == input[..i];
      i := i + 1;
    }
    assert input[..a.Length] == input;
  }

  // ---------------------------------------------------------------------------
  // executed_operations[:n]

  /** s[:n], with Python's meaning for a negative n (all but the last -n). */
  function Take(s: seq<Operation>, n: int): (r: seq<Operation>)
    ensures n >= 0 ==> |r| == Min(n, |s|)
    ensures n < 0 ==> |r| == Max(0, |s| + n)
    ensures r == s[..|r|]
  {
    if n >= 0 then (if n < |s| then s[..n] else s)
    else if |s| + n > 0 then s[..|s| + n] else []
  }

  /** The operations the loop of print_last_operations visits, in order. */
  function LastOperations(operations: seq<Option<Operation>>, n: int): seq<Operation>
  {
    Take(SortByDate(Executed(operations)), n)
  }

  /** For n >= 0, exactly min(n, number of executed operations) are visited. */
  lemma LastOperationsCount(operations: seq<Option<Operation>>, n: int)
    requires n >= 0
    ensures |LastOperations(operations, n)| == Min(n, |Executed(operations)|)
  {
  }

  /**
   * Every visited operation is an executed operation of the input, and they come
   * newest first.
   */
  lemma LastOperationsExecuted(operations: seq<Option<Operation>>, n: int)
    ensures forall op | op in LastOperations(operations, n) :: Some(op) in operations && op.state == "EXECUTED"
    ensures SortedNewestFirst(LastOperations(operations, n))
  {
    var e := Executed(operations);
    var r := LastOperations(operations, n);
    SortByDateSorted(e);
    SortByDatePermutation(e);
    forall op | op in r ensures Some(op) in operations && op.state == "EXECUTED" {
      assert op in SortByDate(e);
      assert op in multiset(SortByDate(e));
    }
  }

  lemma NewerPrefix(s: seq<Operation>, m: nat, x: Operation, y: Operation)
    requires SortedNewestFirst(s) && m <= |s|
    requires x in s[..m] && y in multiset(s[m..])
    ensures !Before(x.date, y.date)
  {
    assert y in s[m..];
    var k :| m <= k < |s| && s[k] == y;
    var i :| 0 <= i < m && s[i] == x;
  }

  /**
   * The visited operations are the newest ones: an executed operation that is
   * left out is never dated after a visited one.
   */
  lemma LastOperationsNewest(operations: seq<Option<Operation>>, n: int)
    ensures multiset(LastOperations(operations, n)) <= multiset(Executed(operations))
    ensures forall x, y | x in LastOperations(operations, n)
                       && y in multiset(Executed(operations)) - multiset(LastOperations(operations, n))
              :: !Before(x.date, y.date)
  {
    var e := Executed(operations);
    var s := SortByDate(e);
    var r := LastOperations(operations, n);
    var m := |r|;
    SortByDateSorted(e);
    SortByDatePermutation(e);
    assert s == r + s[m..];
    assert multiset(e) - multiset(r) == multiset(s[m..]) by {
      assert multiset(s) == multiset(r) + multiset(s[m..]);
    }
    forall x, y | x in r && y in multiset(s[m..]) ensures !Before(x.date, y.date) {
      NewerPrefix(s, m, x, y);
    }
  }
}
