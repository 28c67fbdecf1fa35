/**
 * `reconstruir_camino`: follow the predecessor map `anterior` backwards from
 * `fin` until a node without predecessor, reverse what was collected, and
 * answer `[]` unless the result starts at `inicio`.
 *
 * The script's loop only terminates when the predecessor chain from `fin` is
 * acyclic. The model asks the caller for a ghost ranking `rank` that strictly
 * decreases along every predecessor link; the maps built by `dijkstra` come
 * with one (each predecessor was settled before its successor).
 */
module PathReconstruction {
  import opened Wrappers
  import opened Graphs

  type Predecessors = map<Node, Option<Node>>

  /** Every predecessor is a key, and ranks strictly fall along each link. */
  ghost predicate Ranked(anterior: Predecessors, rank: map<Node, nat>) {
    && anterior.Keys <= rank.Keys
    && forall v :: v in anterior && anterior[v].Some? ==>
         anterior[v].value in anterior && rank[anterior[v].value] < rank[v]
  }

  /** The node without predecessor at which the chain from `v` ends. */
  ghost function Root(anterior: Predecessors, rank: map<Node, nat>, v: Node): Node
    requires Ranked(anterior, rank) && v in anterior
    decreases rank[v]
  {
    match anterior[v]
    case None => v
    case Some(u) => Root(anterior, rank, u)
  }

  /** The chain from `Root(v)` forwards to `v`. */
  ghost function PathTo(anterior: Predecessors, rank: map<Node, nat>, v: Node): seq<Node>
    requires Ranked(anterior, rank) && v in anterior
    decreases rank[v]
  {
    match anterior[v]
    case None => [v]
    case Some(u) => PathTo(anterior, rank, u) + [v]
  }

  /** `c` starts at a node without predecessor and each node's predecessor is the one before it. */
  ghost predicate IsChain(anterior: Predecessors, c: seq<Node>) {
    && |c| > 0
    && c[0] in anterior && anterior[c[0]] == None
    && forall i :: 0 < i < |c| ==> c[i] in anterior && anterior[c[i]] == Some(c[i - 1])
  }

  lemma {:induction false} PathToIsChain(anterior: Predecessors, rank: map<Node, nat>, v: Node)
    requires Ranked(anterior, rank) && v in anterior
    ensures IsChain(anterior, PathTo(anterior, rank, v))
    ensures PathTo(anterior, rank, v)[0] == Root(anterior, rank, v)
    ensures PathTo(anterior, rank, v)[|PathTo(anterior, rank, v)| - 1] == v
    decreases rank[v]
  {
    match anterior[v]
    case None =>
    case Some(u) =>
      PathToIsChain(anterior, rank, u);
      var pu := PathTo(anterior, rank, u);
      assert PathTo(anterior, rank, v) == pu + [v];
      assert pu[|pu| - 1] == u;
  }

  /** A chain is determined by its last node: it is the `PathTo` that node. */
  lemma {:induction false} ChainIsPathTo(anterior: Predecessors, rank: map<Node, nat>, c: seq<Node>)
    requires Ranked(anterior, rank) && IsChain(anterior, c)
    ensures c == PathTo(anterior, rank, c[|c| - 1])
    decreases |c|
  {
    if |c| > 1 {
      var c' := c[..|c| - 1];
      assert IsChain(anterior, c');
      ChainIsPathTo(anterior, rank, c');
      assert c == c' + [c[|c| - 1]];
    }
  }

  /** list.reverse(), on a value. */
  function Reversed(s: seq<Node>): (r: seq<Node>)
    ensures |r| == |s|
  {
    if s == [] then [] else [s[|s| - 1]] + Reversed(s[..|s| - 1])
  }

  /** `Reversed` puts the `i`-th element from the end at position `i`. */
  lemma {:induction false} ReversedAt(s: seq<Node>, i: nat)
    requires i < |s|
    ensures Reversed(s)[i] == s[|s| - 1 - i]
    decreases |s|
  {
    if i > 0 {
      ReversedAt(s[..|s| - 1], i - 1);
    }
  }

  lemma ReversedSnoc(s: seq<Node>, x: Node)
    ensures Reversed(s + [x]) == [x] + Reversed(s)
  {
    assert (s + [x])[..|s|] == s;
  }

  /** One iteration of the walk: moving `x` from the chain still to walk to the collected part. */
  lemma ChainStep(anterior: Predecessors, rank: map<Node, nat>, camino: seq<Node>, x: Node)
    requires Ranked(anterior, rank) && x in anterior
    ensures PathTo(anterior, rank, x) + Reversed(camino) ==
      (if anterior[x].Some? then PathTo(anterior, rank, anterior[x].value) else []) + Reversed(camino + [x])
  {
    ReversedSnoc(camino, x);
  }

  /** After the walk from `fin`, the reversed collection is the whole chain ending at `fin`. */
  lemma WalkComplete(anterior: Predecessors, rank: map<Node, nat>, fin: Node, camino: seq<Node>)
    requires Ranked(anterior, rank) && fin in anterior
    requires PathTo(anterior, rank, fin) == [] + Reversed(camino)
    ensures var r := Reversed(camino);
      && IsChain(anterior, r) && r[0] == Root(anterior, rank, fin) && r[|r| - 1] == fin
  {
    PathToIsChain(anterior, rank, fin);
    assert [] + Reversed(camino) == Reversed(camino);
  }

  /** reconstruir_camino(anterior, inicio, fin); `fin` may be None. */
  method ReconstruirCamino(anterior: Predecessors, inicio: Node, fin: Option<Node>, ghost rank: map<Node, nat>)
    returns (resultado: seq<Node>)
    requires Ranked(anterior, rank)
    requires fin.Some? ==> fin.value in anterior
    ensures resultado != [] ==>
              && fin.Some?
              && IsChain(anterior, resultado)
              && resultado[0] == inicio
              && resultado[|resultado| - 1] == fin.value
    ensures resultado == [] <==> fin.None? || Root(anterior, rank, fin.value) != inicio
  {
    var camino: seq<Node> := [];
    var nodo := fin;
    while nodo.Some?
      invariant nodo.Some? ==> nodo.value in anterior
      invariant fin.None? ==> camino == []
      invariant fin.Some? ==>
        PathTo(anterior, rank, fin.value) ==
          (if nodo.Some? then PathTo(anterior, rank, nodo.value) else []) + Reversed(camino)
      decreases if nodo.Some? then rank[nodo.value] + 1 else 0
    {
      var x := nodo.value;
      ChainStep(anterior, rank, camino, x);
      camino := camino + [x];
      nodo := anterior[x];
    }
    if fin.Some? {
      WalkComplete(anterior, rank, fin.value, camino);
    }
    camino := Reversed(camino);
    if camino == [] || camino[0] != inicio {
      return [];
    }
    resultado := camino;
  }
}
