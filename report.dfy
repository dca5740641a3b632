/**
 * print_last_operations as a whole: select the operations, then format and
 * print each in turn. The output is the sequence of arguments passed to print;
 * Stdout turns it into the text written. A raised exception ends the loop: the
 * blocks of the earlier operations have been printed by then.
 */
module Report {
  import opened Wrappers
  import opened PyStr
  import opened Dates
  import opened Operations
  import opened Formatting
  import opened Selection

  /** The blocks printed, and the exception that stopped the loop, if any. */
  datatype Outcome = Outcome(blocks: seq<Block>, crash: Option<PyError>)

  /** The loop body's result for each visited operation, in order. */
  function Formatted(ops: seq<Operation>): seq<Result<Block, PyError>>
  {
    seq(|ops|, i requires 0 <= i < |ops| => FormatBlock(ops[i]))
  }

  /** The loop over those results: blocks up to the first exception, which ends it. */
  function Render(results: seq<Result<Block, PyError>>): Outcome
  {
    if results == [] then Outcome([], None)
    else
      var before := Render(results[..|results| - 1]);
      if before.crash.Some? then before
      else match results[|results| - 1]
        case Err(e) => Outcome(before.blocks, Some(e))
        case Ok(b) => Outcome(before.blocks + [b], None)
  }

  /** What print_last_operations(operations, n) prints, and whether it raises. */
  function Report(operations: seq<Option<Operation>>, n: int): Outcome
  {
    Render(Formatted(LastOperations(operations, n)))
  }

  /** The arguments of every print call for the blocks, in order. */
  function Prints(blocks: seq<Block>): seq<string>
  {
    if blocks == [] then [] else Prints(blocks[..|blocks| - 1]) + BlockPrints(blocks[|blocks| - 1])
  }

  /** The text print writes for those arguments: each followed by a newline. */
  function Stdout(prints: seq<string>): string
  {
    if prints == [] then "" else prints[0] + "\n" + Stdout(prints[1..])
  }

  /**
   * print_last_operations: filter, sort in place, slice, then print block after
   * block until an operation raises.
   */
  method PrintLastOperations(operations: seq<Option<Operation>>, n: int := 5) returns (out: seq<string>, crash: Option<PyError>)
    ensures out == Prints(Report(operations, n).blocks)
    ensures crash == Report(operations, n).crash
  {
    var visited := SelectLast(operations, n);
    out, crash := PrintBlocks(visited);
  }

  /** The list the loop of print_last_operations walks through. */
  method SelectLast(operations: seq<Option<Operation>>, n: int) returns (visited: seq<Operation>)
    ensures visited == LastOperations(operations, n)
  {
    var executed := Executed(operations);
    var a := new Operation[|executed|](i requires 0 <= i < |executed| => executed[i]);
    assert a[..] == executed;
    SortNewestFirst(a);
    visited := Take(a[..], n);
  }

  /** The loop of print_last_operations over the visited operations. */
  method PrintBlocks(visited: seq<Operation>) returns (out: seq<string>, crash: Option<PyError>)
    ensures out == Prints(Render(Formatted(visited)).blocks)
    ensures crash == Render(Formatted(visited)).crash
  {
    ghost var results := Formatted(visited);
    out, crash := [], None;
    ghost var blocks: seq<Block> := [];
    var i := 0;
    while i < |visited| && crash.None?
      invariant 0 <= i <= |visited|
      invariant Render(results[..i]) == Outcome(blocks, crash)
      invariant out == Prints(blocks)
    {
      RenderStep(results, i);
      match FormatBlock(visited[i]) {
        case Err(e) =>
          crash := Some(e);
        case Ok(b) =>
          out := out + BlockPrints(b);
          ghost var printed := blocks;
          blocks := blocks + [b];
          assert blocks[..|blocks| - 1] == printed;
      }
      i := i + 1;
    }
    if crash.Some? {
      RenderStops(results, i);
    } else {
      assert results[..i] == results;
    }
  }

  /** One more turn of the loop, when it has not raised so far. */
  lemma RenderStep(results: seq<Result<Block, PyError>>, i: nat)
    requires i < |results| && Render(results[..i]).crash.None?
    ensures Render(results[..i + 1]) == match results[i]
      case Err(e) => Outcome(Render(results[..i]).blocks, Some(e))
      case Ok(b) => Outcome(Render(results[..i]).blocks + [b], None)
  {
    assert results[..i + 1][..i] == results[..i];
  }

  /** Once the loop has raised, later operations change nothing. */
  lemma {:induction false} RenderStops(results: seq<Result<Block, PyError>>, i: nat)
    requires i <= |results|
    requires Render(results[..i]).crash.Some?
    ensures Render(results) == Render(results[..i])
  {
    if i < |results| {
      assert results[..|results| - 1][..i] == results[..i];
      RenderStops(results[..|results| - 1], i);
    } else {
      assert results[..i] == results;
    }
  }

  /**
   * Block i is the i-th result; the loop either takes every result or stops at
   * the first exception, which it reports.
   */
  lemma {:induction false} RenderInOrder(results: seq<Result<Block, PyError>>)
    ensures |Render(results).blocks| <= |results|
    ensures forall i | 0 <= i < |Render(results).blocks| :: results[i] == Ok(Render(results).blocks[i])
    ensures Render(results).crash.None? ==> |Render(results).blocks| == |results|
    ensures Render(results).crash.Some? ==>
              |Render(results).blocks| < |results| && results[|Render(results).blocks|] == Err(Render(results).crash.value)
  {
    if results != [] {
      var init := results[..|results| - 1];
      RenderInOrder(init);
      assert forall i | 0 <= i < |init| :: init[i] == results[i];
    }
  }

  /** The loop runs to the end exactly when every visited operation is well formed. */
  lemma RenderCompletes(ops: seq<Operation>)
    ensures Render(Formatted(ops)).crash.None? <==> forall i | 0 <= i < |ops| :: WellFormed(ops[i])
  {
    var results := Formatted(ops);
    var r := Render(results);
    RenderInOrder(results);
    if r.crash.Some? {
      FormatBlockSucceeds(ops[|r.blocks|]);
    } else {
      forall i | 0 <= i < |ops| ensures WellFormed(ops[i]) {
        assert results[i].Ok?;
        FormatBlockSucceeds(ops[i]);
      }
    }
  }

  /**
   * With n >= 0 and no exception, one block is printed for each of the
   * min(n, executed) newest executed operations, newest first.
   */
  lemma ReportBlocks(operations: seq<Option<Operation>>, n: int)
    requires n >= 0
    requires Report(operations, n).crash.None?
    ensures |Report(operations, n).blocks| == Min(n, |Executed(operations)|)
    ensures forall i | 0 <= i < |Report(operations, n).blocks| ::
              FormatBlock(LastOperations(operations, n)[i]) == Ok(Report(operations, n).blocks[i])
  {
    LastOperationsCount(operations, n);
    RenderInOrder(Formatted(LastOperations(operations, n)));
  }

  /** Every block printed is the formatting of an executed operation of the input. */
  lemma ReportShowsExecutedOnly(operations: seq<Option<Operation>>, n: int)
    ensures forall i | 0 <= i < |Report(operations, n).blocks| ::
              exists op | Some(op) in operations && op.state == "EXECUTED" ::
                FormatBlock(op) == Ok(Report(operations, n).blocks[i])
  {
    var visited := LastOperations(operations, n);
    var r := Report(operations, n);
    LastOperationsExecuted(operations, n);
    RenderInOrder(Formatted(visited));
    forall i | 0 <= i < |r.blocks|
      ensures exists op | Some(op) in operations && op.state == "EXECUTED" :: FormatBlock(op) == Ok(r.blocks[i])
    {
      assert visited[i] in visited;
    }
  }

  lemma {:induction false} StdoutAppend(a: seq<string>, b: seq<string>)
    ensures Stdout(a + b) == Stdout(a) + Stdout(b)
  {
    if a == [] {
      assert a + b == b;
    } else {
      assert (a + b)[1..] == a[1..] + b;
      StdoutAppend(a[1..], b);
    }
  }

  /** Every block ends with an empty line: its last print argument ends in a newline. */
  lemma {:induction false} StdoutEndsWithBlankLine(blocks: seq<Block>)
    requires blocks != []
    ensures |Stdout(Prints(blocks))| >= 2
    ensures Stdout(Prints(blocks))[|Stdout(Prints(blocks))| - 2..] == "\n\n"
  {
    var last := blocks[|blocks| - 1];
    var lines := BlockPrints(last);
    StdoutAppend(Prints(blocks[..|blocks| - 1]), lines);
    var tail := [last.amountLine + "\n"];
    assert lines == lines[..|lines| - 1] + tail;
    StdoutAppend(lines[..|lines| - 1], tail);
    assert Stdout(tail) == last.amountLine + "\n" + "\n";
  }

  /**
   * The text of one block: the header line, the route line when there is one,
   * the amount line and an empty line.
   */
  lemma BlockStdout(b: Block)
    ensures Stdout(BlockPrints(b))
      == b.header + "\n" + (if b.route.Some? then b.route.value + "\n" else "") + b.amountLine + "\n\n"
  {
    var tail := [b.amountLine + "\n"];
    assert Stdout(tail) == b.amountLine + "\n" + "\n";
    if b.route.Some? {
      assert BlockPrints(b) == [b.header] + ([b.route.value] + tail);
      assert ([b.route.value] + tail)[1..] == tail;
    } else {
      assert BlockPrints(b) == [b.header] + tail;
    }
  }

  /** The whole output is the text of each printed block, one after the other. */
  lemma {:induction false} PrintsStdout(blocks: seq<Block>, b: Block)
    ensures Stdout(Prints(blocks + [b])) == Stdout(Prints(blocks)) + Stdout(BlockPrints(b))
  {
    assert (blocks + [b])[..|blocks|] == blocks;
    StdoutAppend(Prints(blocks), BlockPrints(b));
  }

  /** An input without executed operations, the empty list among them, prints nothing. */
  lemma ReportNothingExecuted(operations: seq<Option<Operation>>, n: int)
    requires forall i | 0 <= i < |operations| :: !IsExecuted(operations[i])
    ensures Report(operations, n) == Outcome([], None)
    ensures Stdout(Prints(Report(operations, n).blocks)) == ""
  {
    ExecutedEmpty(operations);
  }

  /**
   * An entry that is None or not executed never reaches the output, wherever it
   * stands in the input.
   */
  lemma ReportIgnoresOthers(a: seq<Option<Operation>>, x: Option<Operation>, b: seq<Option<Operation>>, n: int)
    requires !IsExecuted(x)
    ensures Report(a + [x] + b, n) == Report(a + b, n)
  {
    ExecutedSkips(a, x, b);
  }

  /**
   * The three operations of the module-level test data: two executed ones, of
   * 14 October 2018 and 10 August 2019, and a cancelled one of 1 January 2020.
   * Only the executed two are visited, the 2019 one first.
   */
  lemma TestDataSelection(first: Operation, second: Operation, third: Operation)
    requires first.state == "EXECUTED" && first.date == DateTime(2018, 10, 14, 0, 0, 0, 0)
    requires second.state == "EXECUTED" && second.date == DateTime(2019, 8, 10, 0, 0, 0, 0)
    requires third.state == "CANCELLED" && third.date == DateTime(2020, 1, 1, 0, 0, 0, 0)
    ensures LastOperations([Some(first), Some(second), Some(third)], 5) == [second, first]
  {
    var ops := [Some(first), Some(second), Some(third)];
    assert ops[1..][1..] == [Some(third)];
    assert third.state[0] != "EXECUTED"[0];
    assert Executed([Some(third)]) == [] by {
      assert [Some(third)][1..] == [];
    }
    assert Executed(ops[1..]) == [second];
    assert Executed(ops) == [first, second];
    assert Before(first.date, second.date);
    assert SortByDate([first]) == [first];
    assert SortByDate([first, second]) == [second, first] by {
      assert [first, second][..1] == [first];
      assert InsertionPoint(second, [first]) == 0;
    }
  }
}
