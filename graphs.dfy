/** Option type standing for Python's `None`-or-value. */
module Wrappers {
  datatype Option<+T> = None | Some(value: T)
}

/**
 * Weighted directed graphs as the script represents them: a dictionary from
 * node to a dictionary from neighbour to edge weight. Weights are natural
 * numbers, which is the non-negative-weight precondition of Dijkstra's
 * algorithm; distances carry an explicit infinity in place of float('inf').
 */
module Graphs {
  type Node = string

  /** node -> (neighbour -> weight) */
  type Graph = map<Node, map<Node, nat>>

  /** Every neighbour is itself a key of the graph. */
  ghost predicate Closed(g: Graph) {
    forall u, v :: u in g && v in g[u] ==> v in g
  }

  /** A tentative or final distance. */
  datatype Dist = Fin(d: nat) | Inf

  /** The `<` of the script on numbers extended with infinity. */
  predicate Less(a: Dist, b: Dist) {
    a.Fin? && (b.Inf? || a.d < b.d)
  }

  /** Consecutive nodes of `p` are joined by edges of `g`. */
  ghost predicate IsWalk(g: Graph, p: seq<Node>) {
    forall i :: 0 <= i < |p| - 1 ==> p[i] in g && p[i + 1] in g[p[i]]
  }

  /** Total edge weight of a walk. */
  ghost function PathWeight(g: Graph, p: seq<Node>): nat
    requires IsWalk(g, p)
  {
    if |p| <= 1 then 0 else PathWeight(g, p[..|p| - 1]) + g[p[|p| - 2]][p[|p| - 1]]
  }

  /** `p` is a path of `g` from `s` to `t` (a single node is a path from itself). */
  ghost predicate IsPath(g: Graph, p: seq<Node>, s: Node, t: Node) {
    |p| > 0 && p[0] == s && p[|p| - 1] == t && IsWalk(g, p)
  }

  ghost predicate Reachable(g: Graph, s: Node, t: Node) {
    exists p :: IsPath(g, p, s, t)
  }

  /** `d` is the minimum total edge weight over all paths from `s` to `t`. */
  ghost predicate IsShortest(g: Graph, s: Node, t: Node, d: nat) {
    && (exists p :: IsPath(g, p, s, t) && PathWeight(g, p) == d)
    && (forall p :: IsPath(g, p, s, t) ==> d <= PathWeight(g, p))
  }

  /** Appending one edge to a walk adds that edge's weight. */
  lemma WeightExtend(g: Graph, p: seq<Node>, v: Node)
    requires IsWalk(g, p) && |p| > 0 && p[|p| - 1] in g && v in g[p[|p| - 1]]
    ensures IsWalk(g, p + [v])
    ensures PathWeight(g, p + [v]) == PathWeight(g, p) + g[p[|p| - 1]][v]
  {
    assert (p + [v])[..|p|] == p;
  }

  /** A prefix of a walk is a walk that weighs no more (weights are non-negative). */
  lemma {:induction false} PrefixWeight(g: Graph, p: seq<Node>, k: nat)
    requires IsWalk(g, p) && 0 < k <= |p|
    ensures IsWalk(g, p[..k]) && PathWeight(g, p[..k]) <= PathWeight(g, p)
    decreases |p| - k
  {
    if k < |p| {
      PrefixWeight(g, p, k + 1);
      assert p[..k + 1][..k] == p[..k];
      assert PathWeight(g, p[..k + 1]) == PathWeight(g, p[..k]) + g[p[k - 1]][p[k]];
    } else {
      assert p[..k] == p;
    }
  }

  /**
   * A path from inside `inside` to outside it leaves `inside` along an edge
   * `u -> w`, and the part of the path up to `u` plus that edge weighs no
   * more than the whole path.
   */
  lemma Leave(g: Graph, p: seq<Node>, s: Node, v: Node, inside: set<Node>) returns (pre: seq<Node>, u: Node, w: Node)
    requires IsPath(g, p, s, v) && s in inside && v !in inside
    ensures IsPath(g, pre, s, u) && u in inside && u in g
    ensures w in g[u] && w !in inside
    ensures PathWeight(g, pre) + g[u][w] <= PathWeight(g, p)
  {
    var k := FirstOutside(p, inside);
    pre, u, w := p[..k], p[k - 1], p[k];
    assert pre + [w] == p[..k + 1];
    WeightExtend(g, pre, w);
    PrefixWeight(g, p, k + 1);
  }

  /** Index of the first node of `p` outside `s`; `p` must end outside `s`. */
  function FirstOutside(p: seq<Node>, s: set<Node>): (k: nat)
    requires |p| > 0 && p[|p| - 1] !in s
    ensures k < |p| && p[k] !in s
    ensures forall j :: 0 <= j < k ==> p[j] in s
  {
    if p[0] !in s then 0 else 1 + FirstOutside(p[1..], s)
  }
}
