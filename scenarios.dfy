/** Worked instances of the header and row rules on concrete codes and
    lines. */
module Scenarios {
  import opened Text
  import opened PropertyGraph
  import opened Hierarchy
  import opened Rows
  import opened Ingest

  /** Column `"250.01"` names code `"25001"`. */
  lemma CodeDeletesDots()
    ensures Code("250.01") == "25001"
  {
  }

  /** A five-character code gets its three- and four-character prefixes,
      the longer linked to the shorter; the full code is not part of it. */
  lemma ChainOfFiveCharacterCode()
    ensures Chain("25001") ==
      Graph({Diag("250"), Diag("2500")}, {Edge(Diag("2500"), ParentDx, Diag("250"))})
  {
    ChainStep("25001", 3);
    ChainStep("25001", 4);
    assert "25001"[..3] == "250" && "25001"[..4] == "2500";
  }

  /** A four-character code gets only its three-character category, with no
      edge. */
  lemma ChainOfFourCharacterCode()
    ensures Chain("2501") == Graph({Diag("250")}, {})
  {
    ChainStep("2501", 3);
    assert "2501"[..3] == "250";
  }

  /** A code no longer than its base gets nothing. */
  lemma ChainOfShortCode()
    ensures Chain("V10") == Empty
  {
    ChainNodes("V10");
  }

  /** An external-cause code has a base of four characters. */
  lemma ChainOfExternalCauseCode()
    ensures Chain("E8497") == Graph({Diag("E849")}, {})
  {
    ChainStep("E8497", 4);
    assert "E8497"[..4] == "E849";
  }

  /** Quotes and surrounding whitespace disappear before the split, and
      empty fields are kept. */
  lemma TokeniseLine()
    ensures Tokenise(" \"v1\",,x\n") == ["v1", "", "x"]
  {
    SampleLineCleans();
    SampleFieldsJoin();
    SplitJoin(["v1", "", "x"], ',');
  }

  lemma SampleLineCleans()
    ensures Clean(" \"v1\",,x\n") == "v1,,x"
  {
    assert LeadingSpaces(" \"v1\",,x\n") == 1;
    assert TrimRight("\"v1\",,x\n") == "\"v1\",,x";
  }

  lemma SampleFieldsJoin()
    ensures Join(["v1", "", "x"], ',') == "v1,,x"
  {
    assert ["v1", "", "x"][1..] == ["", "x"];
  }

  /** Case does not tell attribute values apart. */
  lemma AttributesIgnoreCase()
    ensures Lower("Male") == Lower("MALE") == "male"
  {
  }

  /** A header with one diagnosis column, `"250.1"`, at index 7. */
  const SampleHeader: seq<string> := ["visit_id", "sex", "care_site", "race", "age", "r1", "r2", "250.1"]

  /** A data row flagged in that column. */
  const SampleRow: seq<string> := ["v1", "Male", "SiteA", "White", "60", "x", "y", "1"]

  /** The header adds only the category `"250"` of code `"2501"`, with no edge. */
  lemma SampleHeaderEffect()
    ensures HeaderEffect(SampleHeader) == Graph({Diag("250")}, {})
  {
    assert Code("250.1") == "2501";
    ChainOfFourCharacterCode();
    assert SampleHeader[7] == "250.1";
    assert HeaderEffect(SampleHeader) == ColumnsUpTo(SampleHeader, 7).Union(Chain(Code("250.1")));
  }

  /** The row reaches its end; its visit `"v1"` is joined to `"male"`,
      `"sitea"`, `"white"` and `"60"`, and by `dx` to `"2501"`. */
  lemma SampleRowEffect()
    ensures RowCompletes(SampleHeader, SampleRow)
    ensures RowEffect(SampleHeader, SampleRow) ==
      Graph({Node(Visit, "v1"), Node(Sex, "male"), Node(CareSite, "sitea"), Node(Race, "white"),
             Node(Age, "60"), Diag("2501")},
            {Edge(Node(Visit, "v1"), SexOf, Node(Sex, "male")),
             Edge(Node(Visit, "v1"), CareSiteOf, Node(CareSite, "sitea")),
             Edge(Node(Visit, "v1"), RaceOf, Node(Race, "white")),
             Edge(Node(Visit, "v1"), AgeOf, Node(Age, "60")),
             Edge(Node(Visit, "v1"), Dx, Diag("2501"))})
  {
    assert Code("250.1") == "2501";
    assert Lower("v1") == "v1" && Lower("Male") == "male" && Lower("SiteA") == "sitea";
    assert Lower("White") == "white" && Lower("60") == "60";
    assert SampleRow[7] == Flag;
    assert DxUpTo(SampleHeader, SampleRow, 8) ==
      DxUpTo(SampleHeader, SampleRow, 7).Union(Graph({Diag("2501")}, {Edge(Node(Visit, "v1"), Dx, Diag("2501"))}));
  }

  /** A line with no surrounding whitespace and no double quote is split
      into the fields it joins. */
  lemma TokenisePlainLine(line: string, fields: seq<string>)
    requires line != [] && !IsSpace(line[0]) && !IsSpace(line[|line| - 1]) && '"' !in line
    requires |fields| >= 1 && (forall k :: 0 <= k < |fields| ==> ',' !in fields[k])
    requires Join(fields, ',') == line
    ensures Tokenise(line) == fields
  {
    assert line[0..] == line;
    WithoutSpec(line, '"');
    SplitJoin(fields, ',');
  }

  /** The header and that row, as a whole import: `"2501"` is a diagnosis of
      the visit, but, since the prefix loop stops short of the whole code, it
      gets no `parent_dx` edge to `"250"`. */
  lemma SampleImport()
    ensures var r := Import(Empty, [SampleHeader, SampleRow]);
      r.outcome == Completed &&
      Diag("250") in r.graph.nodes && Diag("2501") in r.graph.nodes &&
      Edge(Node(Visit, "v1"), Dx, Diag("2501")) in r.graph.edges &&
      Edge(Diag("2501"), ParentDx, Diag("250")) !in r.graph.edges
  {
    var entries := [SampleHeader, SampleRow];
    assert entries[1..] == [SampleRow];
    var start := Empty.Union(HeaderEffect(SampleHeader));
    assert Import(Empty, entries) == DataRows(start, SampleHeader, [SampleRow], 2);
    assert [SampleRow][1..] == [];
    SampleRowEffect();
    var final := start.Union(RowEffect(SampleHeader, SampleRow));
    assert DataRows(start, SampleHeader, [SampleRow], 2) == Run(final, Completed);
    SampleHeaderEffect();
    assert final.edges == RowEffect(SampleHeader, SampleRow).edges;
  }

  /** A row that stops before the diagnosis column keeps its attributes,
      fails, and no row after it is read. */
  lemma ShortRowStops(g: Graph, later: seq<string>)
    ensures var entry := ["v2", "F", "SiteB", "Asian", "30", ""];
      !RowCompletes(SampleHeader, entry) &&
      RowEffect(SampleHeader, entry) == AttributeEffect(entry) &&
      DataRows(g, SampleHeader, [entry, later], 2) == Run(g.Union(AttributeEffect(entry)), Stopped(2))
  {
  }
}
