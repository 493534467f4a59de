/** The whole import as a function of the file: each line is split into its
    fields, the fields of the first line are the header and every later line
    is a data row read against it; the first row that fails ends the import,
    keeping all that was added before. */
module Ingest {
  import opened Text
  import opened PropertyGraph
  import opened Hierarchy
  import opened Rows

  /** How the import ended: after the last line, or at the (1-based) line
      whose row raised an index error. */
  datatype Outcome = Completed | Stopped(line: nat)

  datatype Run = Run(graph: Graph, outcome: Outcome)

  /** The fields of each line of the file. */
  function Entries(lines: seq<string>): seq<seq<string>> {
    seq(|lines|, i requires 0 <= i < |lines| => Tokenise(lines[i]))
  }

  /** The data rows `rows`, the first of which is line `lineNo`, applied to `g`. */
  function DataRows(g: Graph, header: seq<string>, rows: seq<seq<string>>, lineNo: nat): Run
    decreases |rows|
  {
    if rows == [] then Run(g, Completed)
    else
      var next := g.Union(RowEffect(header, rows[0]));
      if RowCompletes(header, rows[0]) then DataRows(next, header, rows[1..], lineNo + 1)
      else Run(next, Stopped(lineNo))
  }

  /** A suffix of the lines is its first line followed by the rest. */
  lemma SuffixCons(entries: seq<seq<string>>, i: nat)
    requires i < |entries|
    ensures entries[i..] == [entries[i]] + entries[i + 1..]
  {
  }

  /** The first of the data rows is read before the others, and the rest
      only when it completes. */
  lemma DataRowsFirst(g: Graph, header: seq<string>, entry: seq<string>, rest: seq<seq<string>>, lineNo: nat)
    ensures DataRows(g, header, [entry] + rest, lineNo) ==
      if RowCompletes(header, entry) then DataRows(g.Union(RowEffect(header, entry)), header, rest, lineNo + 1)
      else Run(g.Union(RowEffect(header, entry)), Stopped(lineNo))
  {
    assert ([entry] + rest)[1..] == rest;
  }

  /** The import, into a store holding `g`, of a file whose lines have the
      fields `entries` (`Entries` of its lines). */
  function Import(g: Graph, entries: seq<seq<string>>): Run {
    if entries == [] then Run(g, Completed)
    else DataRows(g.Union(HeaderEffect(entries[0])), entries[0], entries[1..], 2)
  }

  /** What the data rows add does not depend on what the store held. */
  lemma {:induction false} DataRowsAdd(g: Graph, header: seq<string>, rows: seq<seq<string>>, lineNo: nat)
    ensures var alone := DataRows(Empty, header, rows, lineNo);
      DataRows(g, header, rows, lineNo) == Run(g.Union(alone.graph), alone.outcome)
    decreases |rows|
  {
    if rows != [] {
      var effect := RowEffect(header, rows[0]);
      if RowCompletes(header, rows[0]) {
        DataRowsAdd(g.Union(effect), header, rows[1..], lineNo + 1);
        DataRowsAdd(Empty.Union(effect), header, rows[1..], lineNo + 1);
      }
    }
  }

  /** The import adds to the store a graph that depends only on the lines,
      and ends the same way whatever the store held. */
  lemma ImportAdds(g: Graph, entries: seq<seq<string>>)
    ensures var alone := Import(Empty, entries);
      Import(g, entries) == Run(g.Union(alone.graph), alone.outcome)
  {
    if entries != [] {
      var header := entries[0];
      DataRowsAdd(g.Union(HeaderEffect(header)), header, entries[1..], 2);
      DataRowsAdd(Empty.Union(HeaderEffect(header)), header, entries[1..], 2);
    }
  }

  /** The import only adds: whatever the store held is still there. */
  lemma ImportOnlyAdds(g: Graph, entries: seq<seq<string>>)
    ensures g.SubgraphOf(Import(g, entries).graph)
  {
    ImportAdds(g, entries);
  }

  /** Importing the same file twice gives the same graph, and the same
      outcome, as importing it once. */
  lemma ImportIdempotent(g: Graph, entries: seq<seq<string>>)
    ensures Import(Import(g, entries).graph, entries) == Import(g, entries)
  {
    ImportAdds(g, entries);
    ImportAdds(Import(g, entries).graph, entries);
  }

  /** The rows complete exactly when each of them does; when they stop, they
      stop at the first row that fails. */
  lemma {:induction false} DataRowsOutcome(g: Graph, header: seq<string>, rows: seq<seq<string>>, lineNo: nat)
    ensures var r := DataRows(g, header, rows, lineNo);
      (r.outcome == Completed <==> forall i :: 0 <= i < |rows| ==> RowCompletes(header, rows[i])) &&
      (r.outcome.Stopped? ==>
        lineNo <= r.outcome.line < lineNo + |rows| &&
        !RowCompletes(header, rows[r.outcome.line - lineNo]) &&
        forall i :: 0 <= i < r.outcome.line - lineNo ==> RowCompletes(header, rows[i]))
    decreases |rows|
  {
    if rows != [] && RowCompletes(header, rows[0]) {
      DataRowsOutcome(g.Union(RowEffect(header, rows[0])), header, rows[1..], lineNo + 1);
      assert forall i :: 1 <= i < |rows| ==> rows[i] == rows[1..][i - 1];
    }
  }

  /** Line 1 is the header and never a data row; the import completes
      exactly when every later line, read against that header, completes,
      and when it stops at line `k`, `k` is a data line and the first line
      that fails. */
  lemma ImportOutcome(g: Graph, entries: seq<seq<string>>)
    requires |entries| >= 1
    ensures var r := Import(g, entries);
      (r.outcome == Completed <==> forall i :: 1 <= i < |entries| ==> RowCompletes(entries[0], entries[i])) &&
      (r.outcome.Stopped? ==>
        2 <= r.outcome.line <= |entries| &&
        !RowCompletes(entries[0], entries[r.outcome.line - 1]) &&
        forall i :: 1 <= i < r.outcome.line - 1 ==> RowCompletes(entries[0], entries[i]))
  {
    var rows := entries[1..];
    DataRowsOutcome(g.Union(HeaderEffect(entries[0])), entries[0], rows, 2);
    assert forall i :: 1 <= i < |entries| ==> rows[i - 1] == entries[i];
  }

  /** No row after the one that stopped is looked at. */
  lemma {:induction false} DataRowsIgnoreRest(g: Graph, header: seq<string>, rows: seq<seq<string>>, lineNo: nat, more: seq<seq<string>>)
    requires DataRows(g, header, rows, lineNo).outcome.Stopped?
    ensures DataRows(g, header, rows + more, lineNo) == DataRows(g, header, rows, lineNo)
    decreases |rows|
  {
    assert (rows + more)[0] == rows[0];
    if RowCompletes(header, rows[0]) {
      assert (rows + more)[1..] == rows[1..] + more;
      DataRowsIgnoreRest(g.Union(RowEffect(header, rows[0])), header, rows[1..], lineNo + 1, more);
    }
  }

  /** Once the import stops at line `k`, whatever follows line `k` makes no
      difference: the store keeps the effects of lines 1 to `k` only. */
  lemma ImportIgnoresLinesAfterStop(g: Graph, entries: seq<seq<string>>, more: seq<seq<string>>)
    requires Import(g, entries).outcome.Stopped?
    ensures Import(g, entries + more) == Import(g, entries)
  {
    assert (entries + more)[0] == entries[0];
    assert (entries + more)[1..] == entries[1..] + more;
    DataRowsIgnoreRest(g.Union(HeaderEffect(entries[0])), entries[0], entries[1..], 2, more);
  }

  /** After rows that all complete, one more row is read as the next line. */
  lemma {:induction false} DataRowsAppend(g: Graph, header: seq<string>, rows: seq<seq<string>>, lineNo: nat, entry: seq<string>)
    requires DataRows(g, header, rows, lineNo).outcome == Completed
    ensures DataRows(g, header, rows + [entry], lineNo) ==
      Run(DataRows(g, header, rows, lineNo).graph.Union(RowEffect(header, entry)),
          if RowCompletes(header, entry) then Completed else Stopped(lineNo + |rows|))
    decreases |rows|
  {
    if rows == [] {
      assert rows + [entry] == [entry];
      assert [entry][1..] == [];
    } else {
      assert (rows + [entry])[0] == rows[0];
      assert (rows + [entry])[1..] == rows[1..] + [entry];
      DataRowsAppend(g.Union(RowEffect(header, rows[0])), header, rows[1..], lineNo + 1, entry);
    }
  }

  /** Every line after the first is a data row against the header of line 1:
      appending a line to a file whose import completed adds exactly that
      row's effect and ends with that row's fate. */
  lemma ImportAppend(g: Graph, entries: seq<seq<string>>, entry: seq<string>)
    requires |entries| >= 1 && Import(g, entries).outcome == Completed
    ensures Import(g, entries + [entry]) ==
      Run(Import(g, entries).graph.Union(RowEffect(entries[0], entry)),
          if RowCompletes(entries[0], entry) then Completed else Stopped(|entries| + 1))
  {
    assert (entries + [entry])[0] == entries[0];
    assert (entries + [entry])[1..] == entries[1..] + [entry];
    DataRowsAppend(g.Union(HeaderEffect(entries[0])), entries[0], entries[1..], 2, entry);
  }

  /** Data rows keep the `parent_dx` edges as they were, and keep every edge
      between nodes that exist. */
  lemma {:induction false} DataRowsShape(g: Graph, header: seq<string>, rows: seq<seq<string>>, lineNo: nat)
    ensures var r := DataRows(g, header, rows, lineNo).graph;
      (forall e :: e in r.edges && e.rel == ParentDx ==> e in g.edges) &&
      (g.Closed() ==> r.Closed())
    decreases |rows|
  {
    if rows != [] {
      RowShape(header, rows[0]);
      if RowCompletes(header, rows[0]) {
        DataRowsShape(g.Union(RowEffect(header, rows[0])), header, rows[1..], lineNo + 1);
      }
    }
  }

  /** Only the header creates `parent_dx` edges; the prefix discipline, and
      with it the absence of cycles and of second parents, survives the
      import, and so does the fact that every edge joins existing nodes. */
  lemma ImportKeepsHierarchy(g: Graph, entries: seq<seq<string>>)
    ensures var r := Import(g, entries).graph;
      forall e :: e in r.edges && e.rel == ParentDx ==>
        e in g.edges || (|entries| >= 1 && e in HeaderEffect(entries[0]).edges)
    ensures ParentsAreImmediatePrefixes(g) ==> ParentsAreImmediatePrefixes(Import(g, entries).graph)
    ensures g.Closed() ==> Import(g, entries).graph.Closed()
  {
    if entries != [] {
      HeaderShape(entries[0], |entries[0]|);
      DataRowsShape(g.Union(HeaderEffect(entries[0])), entries[0], entries[1..], 2);
    }
  }
}
