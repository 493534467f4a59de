/** The property graph the importer writes to, seen as a key-addressed store:
    a node is identified by its label and its key, an edge by its two end
    nodes and its relation. Creating a node or an edge that is already there
    changes nothing, so the store holds at most one node per (label, key). */
module PropertyGraph {

  /** The node classes of the graph model. */
  datatype Label = Visit | Sex | CareSite | Race | Age | Diagnosis

  /** The relationships: `sex`, `care_site`, `race` and `age` from a visit to
      its attributes, `dx` from a visit to a diagnosis, and `parent_dx` from a
      diagnosis code to its parent category. */
  datatype Relation = SexOf | CareSiteOf | RaceOf | AgeOf | Dx | ParentDx

  datatype Node = Node(kind: Label, key: string)

  datatype Edge = Edge(src: Node, rel: Relation, dst: Node)

  /** An abstract value of the store, also used for the effect of one step. */
  datatype Graph = Graph(nodes: set<Node>, edges: set<Edge>) {

    /** Every edge joins two nodes of the graph. */
    ghost predicate Closed() {
      forall e :: e in edges ==> e.src in nodes && e.dst in nodes
    }

    /** Adding the nodes and edges of `other`. */
    function Union(other: Graph): Graph {
      Graph(nodes + other.nodes, edges + other.edges)
    }

    predicate SubgraphOf(other: Graph) {
      nodes <= other.nodes && edges <= other.edges
    }
  }

  /** Adding the same nodes and edges a second time changes nothing: a row or
      a header processed twice leaves what processing it once left. */
  lemma UnionIdempotent(g: Graph, effect: Graph)
    ensures g.Union(effect).Union(effect) == g.Union(effect)
    ensures g.SubgraphOf(g.Union(effect)) && effect.SubgraphOf(g.Union(effect))
  {
  }

  /** Adding in steps is adding the steps together. */
  lemma UnionAssociative(a: Graph, b: Graph, c: Graph)
    ensures a.Union(b).Union(c) == a.Union(b.Union(c))
  {
  }

  const Empty := Graph({}, {})

  function Diag(code: string): Node {
    Node(Diagnosis, code)
  }

  /** The graph database: one set of nodes and one set of edges that the
      upsert operations only ever add to. */
  class Store {
    var nodes: set<Node>
    var edges: set<Edge>

    function Snapshot(): Graph
      reads this
    {
      Graph(nodes, edges)
    }

    constructor ()
      ensures Snapshot() == Empty
    {
      nodes, edges := {}, {};
    }

    /** `get_or_create` keyed by one unique property (and `create_or_update`
        when no other property is set): returns the handle of the node with
        this label and key, creating it only if it is not there yet. */
    method GetOrCreate(kind: Label, key: string) returns (n: Node)
      modifies this
      ensures n == Node(kind, key) && n in nodes
      ensures Snapshot() == old(Snapshot()).Union(Graph({n}, {}))
    {
      n := Node(kind, key);
      nodes := nodes + {n};
    }

    /** `connect` on a relationship: adds the edge unless it already exists.
        Both ends are handles returned by `GetOrCreate`. */
    method Connect(src: Node, rel: Relation, dst: Node)
      requires src in nodes && dst in nodes
      modifies this
      ensures Snapshot() == old(Snapshot()).Union(Graph({}, {Edge(src, rel, dst)}))
    {
      edges := edges + {Edge(src, rel, dst)};
    }
  }
}
