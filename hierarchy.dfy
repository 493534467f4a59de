/** What the header line contributes to the graph: for every diagnosis column,
    the chain of ICD-9 category prefixes of its code, each prefix linked by
    `parent_dx` to the prefix one character shorter. */
module Hierarchy {
  import opened Text
  import opened PropertyGraph

  /** Columns 0 to 6 hold the visit, its attributes and two unused fields;
      diagnosis codes start at this column. */
  const FirstCodeColumn: nat := 7

  /** The diagnosis code a header column names: the column with its dots
      deleted (`"250.1"` names `"2501"`). */
  function Code(column: string): string {
    Without(column, '.')
  }

  /** The length of the root category of a code: 4 for external-cause codes
      (those starting with `E`), 3 for all others. */
  function BaseLength(code: string): nat {
    if |code| > 0 && code[0] == 'E' then 4 else 3
  }

  /** The `parent_dx` edge from the prefix of length `j` to the one of length `j - 1`. */
  function ParentLink(code: string, j: nat): Edge
    requires 0 < j <= |code|
  {
    Edge(Diag(code[..j]), ParentDx, Diag(code[..j - 1]))
  }

  /** The part of the chain of `code` built by the rounds of the prefix loop
      before prefix length `hi`: each round upserts one prefix and, from the
      second round on, links it to the prefix of the round before. */
  function ChainUpTo(code: string, hi: nat): Graph
    requires hi <= |code|
    decreases hi
  {
    if hi <= BaseLength(code) then Empty
    else
      var j := hi - 1;
      ChainUpTo(code, j).Union(Graph({Diag(code[..j])},
        if j > BaseLength(code) then {ParentLink(code, j)} else {}))
  }

  /** The hierarchy the header builds for one code: prefix lengths from the
      base length up to, but not including, the length of the code. */
  function Chain(code: string): Graph {
    ChainUpTo(code, |code|)
  }

  /** The chains of the diagnosis columns before column `hi`. */
  function ColumnsUpTo(header: seq<string>, hi: nat): Graph
    requires hi <= |header|
    decreases hi
  {
    if hi <= FirstCodeColumn then Empty
    else ColumnsUpTo(header, hi - 1).Union(Chain(Code(header[hi - 1])))
  }

  /** Everything the header line adds to the graph. */
  function HeaderEffect(header: seq<string>): Graph {
    ColumnsUpTo(header, |header|)
  }

  /** One round of the column loop adds the chain of column `z`. */
  lemma ColumnsStep(header: seq<string>, z: nat)
    requires FirstCodeColumn <= z < |header|
    ensures ColumnsUpTo(header, z + 1) == ColumnsUpTo(header, z).Union(Chain(Code(header[z])))
  {
  }

  /** Every `parent_dx` edge joins two Diagnosis nodes and points from a key
      to that key without its last character. */
  ghost predicate ParentsAreImmediatePrefixes(g: Graph) {
    forall e :: e in g.edges && e.rel == ParentDx ==>
      e.src.kind == Diagnosis && e.dst.kind == Diagnosis &&
      |e.src.key| == |e.dst.key| + 1 && e.dst.key == e.src.key[..|e.dst.key|]
  }

  /** One round of the prefix loop: the prefix of length `j` is upserted and,
      unless it is the base prefix, linked to the prefix of length `j - 1`. */
  lemma ChainStep(code: string, j: nat)
    requires BaseLength(code) <= j < |code|
    ensures ChainUpTo(code, j + 1) ==
      ChainUpTo(code, j).Union(Graph({Diag(code[..j])},
        if j > BaseLength(code) then {ParentLink(code, j)} else {}))
  {
  }

  /** Before the first prefix nothing has been built. */
  lemma ChainStart(code: string)
    requires BaseLength(code) <= |code|
    ensures ChainUpTo(code, BaseLength(code)) == Empty
  {
  }

  /** The rounds before `hi` have upserted exactly the prefixes of length
      `b <= j < hi`, and created exactly the links of the prefixes of
      length `b < j < hi`. */
  lemma {:induction false} ChainMembers(code: string, hi: nat, n: Node, e: Edge)
    requires hi <= |code|
    ensures n in ChainUpTo(code, hi).nodes <==>
      exists j :: BaseLength(code) <= j < hi && n == Diag(code[..j])
    ensures e in ChainUpTo(code, hi).edges <==>
      exists j :: BaseLength(code) < j < hi && e == ParentLink(code, j)
    decreases hi
  {
    var b := BaseLength(code);
    if hi > b {
      ChainMembers(code, hi - 1, n, e);
      var j := hi - 1;
      if n == Diag(code[..j]) {
        assert b <= j < hi;
      }
      if j > b && e == ParentLink(code, j) {
        assert b < j < hi;
      }
    }
  }

  /** The nodes of a chain are exactly the prefixes of the code whose length
      is at least the base length and less than that of the code: there are
      none when the code is no longer than its base, and the full code is
      never one of them. */
  lemma ChainNodes(code: string)
    ensures forall n :: n in Chain(code).nodes <==>
      exists j :: BaseLength(code) <= j < |code| && n == Diag(code[..j])
    ensures |code| <= BaseLength(code) ==> Chain(code) == Empty
    ensures Diag(code) !in Chain(code).nodes
  {
    forall n ensures n in Chain(code).nodes <==>
      exists j :: BaseLength(code) <= j < |code| && n == Diag(code[..j])
    {
      ChainMembers(code, |code|, n, Edge(n, Dx, n));
    }
  }

  /** The edges of a chain: each prefix longer than the base has a
      `parent_dx` edge to the prefix one shorter, every edge is such a link
      from a prefix strictly longer than the base, so the base prefix has no
      parent. */
  lemma ChainEdges(code: string)
    ensures forall j :: BaseLength(code) < j < |code| ==> ParentLink(code, j) in Chain(code).edges
    ensures forall e :: e in Chain(code).edges ==>
      e.rel == ParentDx && BaseLength(code) < |e.src.key| < |code| &&
      e.src == Diag(code[..|e.src.key|]) && e.dst == Diag(code[..|e.src.key| - 1])
  {
    var b := BaseLength(code);
    forall j | b < j < |code| ensures ParentLink(code, j) in Chain(code).edges {
      ChainMembers(code, |code|, Diag(code), ParentLink(code, j));
    }
    forall e | e in Chain(code).edges
      ensures e.rel == ParentDx && b < |e.src.key| < |code| &&
        e.src == Diag(code[..|e.src.key|]) && e.dst == Diag(code[..|e.src.key| - 1])
    {
      ChainMembers(code, |code|, Diag(code), e);
    }
  }

  /** The base prefix never has a parent. */
  lemma BaseHasNoParent(code: string, e: Edge)
    requires BaseLength(code) <= |code|
    requires e in Chain(code).edges
    ensures e.src != Diag(code[..BaseLength(code)])
  {
    ChainEdges(code);
    assert |e.src.key| > BaseLength(code);
  }

  /** A node comes from the header exactly when it belongs to the chain of
      some diagnosis column. */
  lemma {:induction false} HeaderNodes(header: seq<string>, hi: nat, n: Node)
    requires hi <= |header|
    ensures n in ColumnsUpTo(header, hi).nodes <==>
      exists z :: FirstCodeColumn <= z < hi && n in Chain(Code(header[z])).nodes
    decreases hi
  {
    if hi > FirstCodeColumn {
      HeaderNodes(header, hi - 1, n);
      if n in Chain(Code(header[hi - 1])).nodes {
        assert FirstCodeColumn <= hi - 1 < hi;
      }
    }
  }

  /** An edge comes from the header exactly when it belongs to the chain of
      some diagnosis column. */
  lemma {:induction false} HeaderEdges(header: seq<string>, hi: nat, e: Edge)
    requires hi <= |header|
    ensures e in ColumnsUpTo(header, hi).edges <==>
      exists z :: FirstCodeColumn <= z < hi && e in Chain(Code(header[z])).edges
    decreases hi
  {
    if hi > FirstCodeColumn {
      HeaderEdges(header, hi - 1, e);
      if e in Chain(Code(header[hi - 1])).edges {
        assert FirstCodeColumn <= hi - 1 < hi;
      }
    }
  }

  /** The rounds of the prefix loop upsert only Diagnosis nodes and create
      only `parent_dx` edges, each between nodes already upserted and each
      from a key to the key one character shorter that it starts with. */
  lemma {:induction false} ChainShape(code: string, hi: nat)
    requires hi <= |code|
    ensures forall n :: n in ChainUpTo(code, hi).nodes ==> n.kind == Diagnosis
    ensures forall e :: e in ChainUpTo(code, hi).edges ==> e.rel == ParentDx
    ensures ChainUpTo(code, hi).Closed()
    ensures ParentsAreImmediatePrefixes(ChainUpTo(code, hi))
    decreases hi
  {
    var b := BaseLength(code);
    if hi > b {
      ChainShape(code, hi - 1);
      var j := hi - 1;
      if j > b {
        ChainMembers(code, j, Diag(code[..j - 1]), ParentLink(code, j));
        assert Diag(code[..j - 1]) in ChainUpTo(code, j).nodes by {
          assert b <= j - 1 < j;
        }
        assert code[..j][..j - 1] == code[..j - 1];
      }
    }
  }

  /** The header adds only Diagnosis nodes and `parent_dx` edges, its edges
      join nodes it adds, and each such edge goes from a key to its immediate
      prefix. */
  lemma {:induction false} HeaderShape(header: seq<string>, hi: nat)
    requires hi <= |header|
    ensures forall n :: n in ColumnsUpTo(header, hi).nodes ==> n.kind == Diagnosis
    ensures forall e :: e in ColumnsUpTo(header, hi).edges ==> e.rel == ParentDx
    ensures ColumnsUpTo(header, hi).Closed()
    ensures ParentsAreImmediatePrefixes(ColumnsUpTo(header, hi))
    decreases hi
  {
    if hi > FirstCodeColumn {
      HeaderShape(header, hi - 1);
      var code := Code(header[hi - 1]);
      ChainShape(code, |code|);
    }
  }

  /** Under the prefix discipline a diagnosis has at most one parent. */
  lemma AtMostOneParent(g: Graph, e1: Edge, e2: Edge)
    requires ParentsAreImmediatePrefixes(g)
    requires e1 in g.edges && e2 in g.edges && e1.rel == ParentDx && e2.rel == ParentDx
    requires e1.src == e2.src
    ensures e1.dst == e2.dst
  {
  }

  /** Following `parent_dx` edges `k` steps shortens the key by `k`. */
  lemma {:induction false} ParentPathShortens(g: Graph, path: seq<Node>, k: nat)
    requires ParentsAreImmediatePrefixes(g)
    requires forall i :: 0 <= i < |path| - 1 ==> Edge(path[i], ParentDx, path[i + 1]) in g.edges
    requires k < |path|
    ensures |path[k].key| + k == |path[0].key|
  {
    if k > 0 {
      ParentPathShortens(g, path, k - 1);
      assert Edge(path[k - 1], ParentDx, path[k]) in g.edges;
    }
  }

  /** Under the prefix discipline the `parent_dx` relation has no cycle: a
      non-empty path of parent edges never returns to where it started. */
  lemma NoParentCycle(g: Graph, path: seq<Node>)
    requires ParentsAreImmediatePrefixes(g)
    requires |path| >= 2
    requires forall i :: 0 <= i < |path| - 1 ==> Edge(path[i], ParentDx, path[i + 1]) in g.edges
    ensures path[0] != path[|path| - 1]
  {
    ParentPathShortens(g, path, |path| - 1);
  }
}
