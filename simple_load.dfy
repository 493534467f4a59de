/** `SimpleGraph.run_import`: the importer itself, written as the loops it
    runs against the store. Each method is tied to the functions of
    `Hierarchy`, `Rows` and `Ingest` that describe what it adds, so the
    properties proved about those functions hold of the store it leaves. */
module SimpleLoad {
  import opened Text
  import opened PropertyGraph
  import opened Hierarchy
  import opened Rows
  import opened Ingest

  datatype Option<T> = None | Some(value: T)

  /** The prefix loop for one diagnosis code: upserts the prefixes of the
      code from the base length up to, not including, the whole code, and
      links each to the one upserted just before it. */
  method BuildHierarchy(store: Store, code: string)
    modifies store
    ensures store.Snapshot() == old(store.Snapshot()).Union(Chain(code))
  {
    var base := BaseLength(code);
    var last: Option<Node> := None;
    var j := base;
    while j < |code|
      invariant base <= j && (j <= |code| || j == base)
      invariant store.Snapshot() ==
        old(store.Snapshot()).Union(if j <= |code| then ChainUpTo(code, j) else Empty)
      invariant last == (if j == base then None else Some(Diag(code[..j - 1])))
      invariant last.Some? ==> last.value in store.nodes
    {
      ChainStep(code, j);
      var cur := store.GetOrCreate(Diagnosis, code[..j]);
      if last.Some? {
        store.Connect(cur, ParentDx, last.value);
      }
      last := Some(cur);
      j := j + 1;
    }
    ChainNodes(code);
  }

  /** The header phase: every column from index 7 on is a diagnosis code
      with its dots deleted, and gets its prefix hierarchy. */
  method ProcessHeader(store: Store, header: seq<string>)
    modifies store
    ensures store.Snapshot() == old(store.Snapshot()).Union(ColumnsUpTo(header, |header|))
  {
    ghost var start := old(store.Snapshot());
    var z := FirstCodeColumn;
    while z < |header|
      invariant FirstCodeColumn <= z
      invariant z <= |header| ==> store.Snapshot() == start.Union(ColumnsUpTo(header, z))
      invariant z > |header| ==> z == FirstCodeColumn && store.Snapshot() == start
    {
      var icd9 := Without(header[z], '.');
      BuildHierarchy(store, icd9);
      ColumnsStep(header, z);
      UnionAssociative(start, ColumnsUpTo(header, z), Chain(icd9));
      z := z + 1;
    }
  }

  /** The first part of a data row: upserts the sex, care site, race, age
      and visit nodes keyed by the lower-cased fields 1 to 4 and 0, and
      connects the visit to the four others. */
  method AddAttributes(store: Store, entry: seq<string>) returns (visitNode: Node)
    requires |entry| >= AttributeFields
    modifies store
    ensures visitNode == VisitOf(entry) && visitNode in store.nodes
    ensures store.Snapshot() == old(store.Snapshot()).Union(AttributeEffect(entry))
  {
    ghost var start := old(store.Snapshot());
    var sexNode := store.GetOrCreate(Sex, Lower(entry[1]));
    var siteNode := store.GetOrCreate(CareSite, Lower(entry[2]));
    var raceNode := store.GetOrCreate(Race, Lower(entry[3]));
    var ageNode := store.GetOrCreate(Age, Lower(entry[4]));
    visitNode := store.GetOrCreate(Visit, Lower(entry[0]));
    ghost var added := Graph({sexNode, siteNode, raceNode, ageNode, visitNode}, {});
    assert store.Snapshot() == start.Union(added);
    store.Connect(visitNode, SexOf, sexNode);
    store.Connect(visitNode, CareSiteOf, siteNode);
    store.Connect(visitNode, RaceOf, raceNode);
    store.Connect(visitNode, AgeOf, ageNode);
    assert AttributeEffect(entry) == Graph(added.nodes,
      {Edge(visitNode, SexOf, sexNode), Edge(visitNode, CareSiteOf, siteNode),
       Edge(visitNode, RaceOf, raceNode), Edge(visitNode, AgeOf, ageNode)});
  }

  /** The diagnosis loop of a data row: a `dx` edge from the visit to the
      Diagnosis node of every column from index 7 on whose field is `"1"`.
      Returns false at the first column the row does not reach, which in
      the code raises an index error after the earlier columns were
      written. */
  method AddDiagnoses(store: Store, header: seq<string>, entry: seq<string>, visitNode: Node) returns (ok: bool)
    requires |entry| >= 1
    requires visitNode == VisitOf(entry) && visitNode in store.nodes
    modifies store
    ensures ok == (|header| <= FirstCodeColumn || |header| <= |entry|)
    ensures store.Snapshot() == old(store.Snapshot()).Union(DxUpTo(header, entry, Min(|header|, |entry|)))
  {
    ghost var start := old(store.Snapshot());
    var z := FirstCodeColumn;
    while z < |header|
      invariant FirstCodeColumn <= z
      invariant z == FirstCodeColumn || (z <= |header| && z <= |entry|)
      invariant z == FirstCodeColumn ==> store.Snapshot() == start
      invariant z > FirstCodeColumn ==> store.Snapshot() == start.Union(DxUpTo(header, entry, z))
      invariant visitNode in store.nodes
    {
      if z >= |entry| {
        return false;
      }
      if z == FirstCodeColumn {
        assert start.Union(DxUpTo(header, entry, z)) == start;
      }
      if entry[z] == Flag {
        var icd9 := Without(header[z], '.');
        var dxNode := store.GetOrCreate(Diagnosis, icd9);
        store.Connect(visitNode, Dx, dxNode);
      }
      DxStep(header, entry, z);
      UnionAssociative(start, DxUpTo(header, entry, z), DxAt(header, entry, z));
      z := z + 1;
    }
    return true;
  }

  /** One data row: its attributes, then its diagnoses. Returns false where
      the code raises an index error: a missing field 0 to 4 (before
      anything is written) or a diagnosis column the row does not reach. */
  method ProcessRow(store: Store, header: seq<string>, entry: seq<string>) returns (ok: bool)
    modifies store
    ensures ok == RowCompletes(header, entry)
    ensures store.Snapshot() == old(store.Snapshot()).Union(RowEffect(header, entry))
  {
    if |entry| < AttributeFields {
      return false;
    }
    var visitNode := AddAttributes(store, entry);
    ok := AddDiagnoses(store, header, entry, visitNode);
  }

  /** `run_import` on the lines of the file: line 1 is the header, every
      later line a data row; the first row that raises an index error ends
      the import. The store ends as `Import` says, so everything proved about
      `Import` holds of it. */
  method RunImport(store: Store, lines: seq<string>) returns (outcome: Outcome)
    modifies store
    ensures Run(store.Snapshot(), outcome) == Import(old(store.Snapshot()), Entries(lines))
  {
    ghost var start := old(store.Snapshot());
    ghost var entries := Entries(lines);
    var header: seq<string> := [];
    var i: nat := 0;
    while i < |lines|
      invariant i <= |lines|
      invariant i == 0 ==> store.Snapshot() == start
      invariant i >= 1 ==> header == entries[0]
      invariant i >= 1 ==>
        Import(start, entries) == DataRows(store.Snapshot(), header, entries[i..], i + 1)
    {
      var entry := Tokenise(lines[i]);
      ghost var rest := entries[i + 1..];
      assert entry == entries[i];
      SuffixCons(entries, i);
      i := i + 1;
      if i == 1 {
        header := entry;
        ProcessHeader(store, header);
        assert store.Snapshot() == start.Union(HeaderEffect(header));
        continue;
      }
      ghost var before := store.Snapshot();
      var ok := ProcessRow(store, header, entry);
      DataRowsFirst(before, header, entry, rest, i);
      if !ok {
        return Stopped(i);
      }
      assert Import(start, entries) == DataRows(store.Snapshot(), header, entries[i..], i + 1);
    }
    if i >= 1 {
      assert entries[i..] == [];
    }
    return Completed;
  }
}
