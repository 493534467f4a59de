/** What one data line contributes to the graph: a visit linked to its sex,
    care site, race and age, and to every diagnosis whose column holds the
    flag `"1"`. A line too short for the fields the code reads raises an
    index error, and the row then keeps only what it had done before. */
module Rows {
  import opened Text
  import opened PropertyGraph
  import opened Hierarchy

  /** Fields 0 to 4 (visit, sex, care site, race, age) are read before
      anything is written. */
  const AttributeFields: nat := 5

  /** The only value of a diagnosis column that records a diagnosis. */
  const Flag: string := "1"

  function Min(a: nat, b: nat): nat {
    if a <= b then a else b
  }

  /** The Visit node of a row, keyed by its lower-cased first field. */
  function VisitOf(entry: seq<string>): Node
    requires |entry| >= 1
  {
    Node(Visit, Lower(entry[0]))
  }

  /** The Diagnosis node a header column stands for in a row. */
  function DxTarget(header: seq<string>, z: nat): Node
    requires z < |header|
  {
    Diag(Code(header[z]))
  }

  /** The visit, its four attribute nodes and the four edges joining them. */
  function AttributeEffect(entry: seq<string>): Graph
    requires |entry| >= AttributeFields
  {
    var visit := VisitOf(entry);
    var sex := Node(Sex, Lower(entry[1]));
    var site := Node(CareSite, Lower(entry[2]));
    var race := Node(Race, Lower(entry[3]));
    var age := Node(Age, Lower(entry[4]));
    Graph({sex, site, race, age, visit},
          {Edge(visit, SexOf, sex), Edge(visit, CareSiteOf, site),
           Edge(visit, RaceOf, race), Edge(visit, AgeOf, age)})
  }

  /** What diagnosis column `z` adds: a `dx` edge from the visit to the
      column's diagnosis when the row's field there is `"1"`, else nothing. */
  function DxAt(header: seq<string>, entry: seq<string>, z: nat): Graph
    requires 1 <= |entry| && z < |header| && z < |entry|
  {
    if entry[z] == Flag then Graph({DxTarget(header, z)}, {Edge(VisitOf(entry), Dx, DxTarget(header, z))})
    else Empty
  }

  /** The diagnoses of the flagged columns before column `hi`. */
  function DxUpTo(header: seq<string>, entry: seq<string>, hi: nat): Graph
    requires 1 <= |entry| && hi <= |header| && hi <= |entry|
    decreases hi
  {
    if hi <= FirstCodeColumn then Empty
    else DxUpTo(header, entry, hi - 1).Union(DxAt(header, entry, hi - 1))
  }

  /** One round of the diagnosis loop adds what its column adds. */
  lemma DxStep(header: seq<string>, entry: seq<string>, z: nat)
    requires FirstCodeColumn <= z && z < |header| && z < |entry|
    ensures DxUpTo(header, entry, z + 1) == DxUpTo(header, entry, z).Union(DxAt(header, entry, z))
  {
  }

  /** Whether the row is read to its end without an index error: fields 0
      to 4 must exist, and so must every diagnosis column of the header. */
  predicate RowCompletes(header: seq<string>, entry: seq<string>) {
    |entry| >= AttributeFields && (|header| <= FirstCodeColumn || |header| <= |entry|)
  }

  /** Everything the row adds before it ends or fails: nothing if a field
      0 to 4 is missing, otherwise its attributes and the diagnoses of the
      flagged columns it could read. */
  function RowEffect(header: seq<string>, entry: seq<string>): Graph {
    if |entry| < AttributeFields then Empty
    else AttributeEffect(entry).Union(DxUpTo(header, entry, Min(|header|, |entry|)))
  }

  /** The diagnoses of a row are exactly the codes of the flagged columns at
      index 7 or more that the row reaches; any other value adds nothing. */
  lemma {:induction false} DxMembers(header: seq<string>, entry: seq<string>, hi: nat, n: Node, e: Edge)
    requires 1 <= |entry| && hi <= |header| && hi <= |entry|
    ensures n in DxUpTo(header, entry, hi).nodes <==>
      exists z :: FirstCodeColumn <= z < hi && entry[z] == Flag && n == DxTarget(header, z)
    ensures e in DxUpTo(header, entry, hi).edges <==>
      exists z :: FirstCodeColumn <= z < hi && entry[z] == Flag && e == Edge(VisitOf(entry), Dx, DxTarget(header, z))
    decreases hi
  {
    if hi > FirstCodeColumn {
      DxMembers(header, entry, hi - 1, n, e);
      var z := hi - 1;
      if entry[z] == Flag {
        assert FirstCodeColumn <= z < hi;
      }
    }
  }

  /** The visit of a data row is keyed by the lower-cased field 0 and joined
      by `sex`, `care_site`, `race` and `age` to the nodes keyed by the
      lower-cased fields 1 to 4; these are all its nodes other than
      diagnoses and all its edges other than `dx`. */
  lemma RowAttributes(header: seq<string>, entry: seq<string>)
    requires |entry| >= AttributeFields
    ensures var g := RowEffect(header, entry);
      var visit := Node(Visit, Lower(entry[0]));
      (set n | n in g.nodes && n.kind != Diagnosis) ==
        {visit, Node(Sex, Lower(entry[1])), Node(CareSite, Lower(entry[2])),
         Node(Race, Lower(entry[3])), Node(Age, Lower(entry[4]))} &&
      (set e | e in g.edges && e.rel != Dx) ==
        {Edge(visit, SexOf, Node(Sex, Lower(entry[1]))),
         Edge(visit, CareSiteOf, Node(CareSite, Lower(entry[2]))),
         Edge(visit, RaceOf, Node(Race, Lower(entry[3]))),
         Edge(visit, AgeOf, Node(Age, Lower(entry[4])))}
  {
    var hi := Min(|header|, |entry|);
    forall n | n in DxUpTo(header, entry, hi).nodes ensures n.kind == Diagnosis {
      DxMembers(header, entry, hi, n, Edge(n, Dx, n));
    }
    forall e | e in DxUpTo(header, entry, hi).edges ensures e.rel == Dx {
      DxMembers(header, entry, hi, e.src, e);
    }
  }

  /** A data row adds a `dx` edge from its visit, and a Diagnosis node, exactly
      for the columns z >= 7 it reaches whose field is `"1"`; for a row that
      completes these are all such columns of the header. */
  lemma RowDiagnoses(header: seq<string>, entry: seq<string>, n: Node, e: Edge)
    requires |entry| >= AttributeFields
    ensures n.kind == Diagnosis ==>
      (n in RowEffect(header, entry).nodes <==>
        exists z :: FirstCodeColumn <= z < Min(|header|, |entry|) && entry[z] == Flag && n == DxTarget(header, z))
    ensures e.rel == Dx ==>
      (e in RowEffect(header, entry).edges <==>
        exists z :: FirstCodeColumn <= z < Min(|header|, |entry|) && entry[z] == Flag &&
          e == Edge(VisitOf(entry), Dx, DxTarget(header, z)))
    ensures RowCompletes(header, entry) && |header| > FirstCodeColumn ==> Min(|header|, |entry|) == |header|
  {
    DxMembers(header, entry, Min(|header|, |entry|), n, e);
  }

  /** Columns 5 and 6 are never read: two rows that agree elsewhere have the
      same effect and the same fate. */
  lemma {:induction false} RowIgnoresReservedColumns(header: seq<string>, a: seq<string>, b: seq<string>)
    requires |a| == |b|
    requires forall k :: 0 <= k < |a| && k != 5 && k != 6 ==> a[k] == b[k]
    ensures RowEffect(header, a) == RowEffect(header, b)
    ensures RowCompletes(header, a) == RowCompletes(header, b)
  {
    if |a| >= AttributeFields {
      assert a[0] == b[0] && a[1] == b[1] && a[2] == b[2] && a[3] == b[3] && a[4] == b[4];
      DxIgnoresReservedColumns(header, a, b, Min(|header|, |a|));
    }
  }

  lemma {:induction false} DxIgnoresReservedColumns(header: seq<string>, a: seq<string>, b: seq<string>, hi: nat)
    requires 1 <= |a| == |b| && hi <= |header| && hi <= |a|
    requires forall k :: 0 <= k < |a| && k != 5 && k != 6 ==> a[k] == b[k]
    ensures DxUpTo(header, a, hi) == DxUpTo(header, b, hi)
    decreases hi
  {
    if hi > FirstCodeColumn {
      DxIgnoresReservedColumns(header, a, b, hi - 1);
      assert a[hi - 1] == b[hi - 1];
      assert a[0] == b[0];
    }
  }

  /** A row adds no `parent_dx` edge, and every edge it adds joins nodes it
      adds. */
  lemma RowShape(header: seq<string>, entry: seq<string>)
    ensures forall e :: e in RowEffect(header, entry).edges ==> e.rel != ParentDx
    ensures RowEffect(header, entry).Closed()
  {
    if |entry| >= AttributeFields {
      var hi := Min(|header|, |entry|);
      forall e | e in DxUpTo(header, entry, hi).edges
        ensures e.rel == Dx && e.src in RowEffect(header, entry).nodes && e.dst in RowEffect(header, entry).nodes
      {
        DxMembers(header, entry, hi, e.dst, e);
        var z :| FirstCodeColumn <= z < hi && entry[z] == Flag && e == Edge(VisitOf(entry), Dx, DxTarget(header, z));
        DxMembers(header, entry, hi, DxTarget(header, z), e);
      }
    }
  }
}
