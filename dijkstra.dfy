/**
 * `dijkstra(grafo, inicio, fin, mostrar_pasos)`: Dijkstra's algorithm with a
 * lazy-deletion heap. Entries `(dist, node)` are pushed whenever a distance
 * improves; a popped entry whose node is already in `visitados` is stale and
 * dropped; the first pop of a node settles it; the loop stops right after
 * settling `fin` when one is given.
 *
 * The loop keeps the predicate `Invariant` below, and `Relaxed` for the
 * settled nodes whose edges have been relaxed. The lemmas after it show that
 * each kind of iteration preserves them, and what they give at the two exits.
 */
module ShortestPaths {
  import opened Wrappers
  import opened Graphs
  import opened PriorityQueue
  import opened PathReconstruction

  type Distances = map<Node, Dist>

  /** One settlement as the script reports it: node and confirmed distance. */
  datatype Step = Step(node: Node, dist: nat)

  /** The nodes a sequence of settlements names. */
  function Nodes(steps: seq<Step>): set<Node> {
    set i | 0 <= i < |steps| :: steps[i].node
  }

  // ----------------------------------------------------------------------
  // What the returned maps satisfy
  // ----------------------------------------------------------------------

  /** The edge `u -> v` exists and `dist[v]` is `dist[u]` plus its weight. */
  ghost predicate Link(g: Graph, dist: Distances, u: Node, v: Node) {
    && u in g && v in g[u] && u in dist && v in dist
    && dist[u].Fin? && dist[v].Fin? && dist[u].d + g[u][v] == dist[v].d
  }

  /**
   * The predecessor map is a tree of best-known paths rooted at `s`: every
   * predecessor link is an edge that accounts exactly for the distance, a node
   * other than `s` has a predecessor exactly when its distance is finite, and
   * `rank` falls along every link.
   */
  ghost predicate PredecessorTree(g: Graph, s: Node, dist: Distances, prev: Predecessors, rank: map<Node, nat>) {
    && Tables(g, s, dist, prev)
    && Ranked(prev, rank)
    && (forall v :: v in g && prev[v].Some? ==> Link(g, dist, prev[v].value, v))
    && (forall v :: v in g && v != s && dist[v].Fin? ==> prev[v].Some?)
  }

  /** Following the predecessors from a node at finite distance walks a path from `s` of exactly that weight. */
  lemma {:induction false} TreePath(g: Graph, s: Node, dist: Distances, prev: Predecessors, rank: map<Node, nat>, v: Node)
    requires PredecessorTree(g, s, dist, prev, rank)
    requires v in g && dist[v].Fin?
    ensures Root(prev, rank, v) == s
    ensures IsPath(g, PathTo(prev, rank, v), s, v)
    ensures PathWeight(g, PathTo(prev, rank, v)) == dist[v].d
    decreases rank[v]
  {
    match prev[v]
    case None =>
    case Some(u) =>
      TreePath(g, s, dist, prev, rank, u);
      var pu := PathTo(prev, rank, u);
      assert PathTo(prev, rank, v) == pu + [v];
      WeightExtend(g, pu, v);
  }

  /** A node at infinite distance is its own root, and is not `s`. */
  lemma TreeUnreached(g: Graph, s: Node, dist: Distances, prev: Predecessors, rank: map<Node, nat>, v: Node)
    requires PredecessorTree(g, s, dist, prev, rank)
    requires v in g && dist[v] == Inf
    ensures Root(prev, rank, v) == v && v != s
  {
  }

  // ----------------------------------------------------------------------
  // The relaxation of one settled node's edges (Dijkstra.py:55-67)
  // ----------------------------------------------------------------------

  /** `du + weight(u, v)` undercuts the current distance of the unvisited neighbour `v`. */
  ghost predicate Improves(g: Graph, u: Node, du: nat, visited: set<Node>, dist: Distances, v: Node)
    requires u in g
  {
    v in g[u] && v !in visited && v in dist && Less(Fin(du + g[u][v]), dist[v])
  }

  /** The part of `Relaxation` that handles the edges from `u` to neighbours outside `pending`. */
  ghost predicate RelaxedBut(g: Graph, u: Node, du: nat, visited: set<Node>, pending: set<Node>,
                              dist: Distances, prev: Predecessors, cola: Queue,
                              dist': Distances, prev': Predecessors, cola': Queue)
    requires u in g
  {
    && dist'.Keys == dist.Keys && prev'.Keys == prev.Keys
    && (forall v :: v in dist && v in prev ==>
          if v !in pending && Improves(g, u, du, visited, dist, v)
          then dist'[v] == Fin(du + g[u][v]) && prev'[v] == Some(u)
          else dist'[v] == dist[v] && prev'[v] == prev[v])
    && (forall e :: cola'[e] == cola[e] +
          if e.node !in pending && Improves(g, u, du, visited, dist, e.node) && e.dist == du + g[u][e.node]
          then 1 else 0)
  }

  /**
   * `dist'`, `prev'`, `cola'` are what relaxing the edges of `u` (settled at
   * `du`) makes of `dist`, `prev`, `cola`: exactly the improved neighbours get
   * the new distance and `u` as predecessor, one matching entry is pushed for
   * each, and nothing else changes.
   */
  ghost predicate Relaxation(g: Graph, u: Node, du: nat, visited: set<Node>,
                             dist: Distances, prev: Predecessors, cola: Queue,
                             dist': Distances, prev': Predecessors, cola': Queue)
    requires u in g
  {
    RelaxedBut(g, u, du, visited, {}, dist, prev, cola, dist', prev', cola')
  }

  /** One pass of the inner loop: handling the edge `u -> v` takes `v` off `pending`. */
  lemma RelaxEdge(g: Graph, u: Node, du: nat, visited: set<Node>, pending: set<Node>,
                  dist: Distances, prev: Predecessors, cola: Queue,
                  dist1: Distances, prev1: Predecessors, cola1: Queue, v: Node,
                  dist2: Distances, prev2: Predecessors, cola2: Queue)
    requires u in g && v in g[u] && v in pending && v in dist && v in prev
    requires RelaxedBut(g, u, du, visited, pending, dist, prev, cola, dist1, prev1, cola1)
    requires if v !in visited && Less(Fin(du + g[u][v]), dist1[v])
             then dist2 == dist1[v := Fin(du + g[u][v])] && prev2 == prev1[v := Some(u)]
                  && cola2 == cola1 + multiset{Entry(du + g[u][v], v)}
             else dist2 == dist1 && prev2 == prev1 && cola2 == cola1
    ensures RelaxedBut(g, u, du, visited, pending - {v}, dist, prev, cola, dist2, prev2, cola2)
  {
    assert dist1[v] == dist[v];
  }

  /** The inner `for vecino, peso in grafo[nodo_actual].items()` loop. */
  method Relax(grafo: Graph, nodoActual: Node, distanciaActual: nat, visitados: set<Node>,
               distancias: Distances, anterior: Predecessors, cola: Queue)
    returns (distancias': Distances, anterior': Predecessors, cola': Queue)
    requires Closed(grafo) && nodoActual in grafo
    requires distancias.Keys == grafo.Keys && anterior.Keys == grafo.Keys
    ensures Relaxation(grafo, nodoActual, distanciaActual, visitados, distancias, anterior, cola,
                       distancias', anterior', cola')
  {
    distancias', anterior', cola' := distancias, anterior, cola;
    var pendientes := grafo[nodoActual].Keys;
    while pendientes != {}
      invariant pendientes <= grafo[nodoActual].Keys
      invariant RelaxedBut(grafo, nodoActual, distanciaActual, visitados, pendientes,
                           distancias, anterior, cola, distancias', anterior', cola')
      decreases pendientes
    {
      var vecino :| vecino in pendientes;
      ghost var pending := pendientes;
      ghost var dist1, prev1, cola1 := distancias', anterior', cola';
      pendientes := pendientes - {vecino};
      if vecino !in visitados {
        var nuevaDist := distanciaActual + grafo[nodoActual][vecino];
        if Less(Fin(nuevaDist), distancias'[vecino]) {
          distancias' := distancias'[vecino := Fin(nuevaDist)];
          anterior' := anterior'[vecino := Some(nodoActual)];
          cola' := cola' + multiset{Entry(nuevaDist, vecino)};
        }
      }
      RelaxEdge(grafo, nodoActual, distanciaActual, visitados, pending, distancias, anterior, cola,
                dist1, prev1, cola1, vecino, distancias', anterior', cola');
    }
  }

  // ----------------------------------------------------------------------
  // The loop invariant of the main loop (Dijkstra.py:32-64)
  // ----------------------------------------------------------------------

  /** The script's tables cover the graph; the source is at 0 and has no predecessor. */
  ghost predicate Tables(g: Graph, s: Node, dist: Distances, prev: Predecessors) {
    && s in g && dist.Keys == g.Keys && prev.Keys == g.Keys
    && dist[s] == Fin(0) && prev[s] == None
  }

  /**
   * `settled` lists the visited nodes in settlement order (`orden` gives each
   * one's position), with their distances, which are final and non-decreasing;
   * the first one is the source at 0.
   */
  ghost predicate SettleOrder(g: Graph, s: Node, dist: Distances, visited: set<Node>,
                              settled: seq<Step>, orden: map<Node, nat>) {
    && visited == orden.Keys && visited <= g.Keys
    && (forall v :: v in visited ==> v in dist && dist[v].Fin?)
    && (forall i :: 0 <= i < |settled| ==> settled[i].node in orden && orden[settled[i].node] == i)
    && (forall v :: v in orden ==> orden[v] < |settled| && settled[orden[v]].node == v)
    && (forall i :: 0 <= i < |settled| ==>
          settled[i].node in dist && dist[settled[i].node] == Fin(settled[i].dist))
    && (forall i, j :: 0 <= i < j < |settled| ==> settled[i].dist <= settled[j].dist)
    && (|settled| > 0 ==> settled[0] == Step(s, 0))
  }

  /**
   * Every heap entry is an upper bound on its node's current distance and no
   * smaller than the last confirmed distance. Before the first
   * settlement the heap is its initial `[(0, inicio)]`.
   */
  ghost predicate QueueSound(g: Graph, s: Node, dist: Distances, cola: Queue,
                             visited: set<Node>, settled: seq<Step>) {
    && (forall e :: e in cola ==>
          e.node in g && e.node in dist && dist[e.node].Fin? && dist[e.node].d <= e.dist)
    && (|settled| > 0 ==> forall e :: e in cola ==> settled[|settled| - 1].dist <= e.dist)
    && (|settled| == 0 ==> cola == multiset{Entry(0, s)} && visited == {})
  }

  /** Every unvisited node at finite distance has the heap entry for exactly that distance. */
  ghost predicate Queued(dist: Distances, cola: Queue, visited: set<Node>) {
    forall v :: v in dist && v !in visited && dist[v].Fin? ==> Entry(dist[v].d, v) in cola
  }

  /**
   * A predecessor is a settled node whose edge accounts for the distance and
   * which was settled before its successor; a node other than the source has a
   * predecessor as soon as its distance is finite.
   */
  ghost predicate Links(g: Graph, s: Node, dist: Distances, prev: Predecessors,
                        visited: set<Node>, orden: map<Node, nat>) {
    && (forall v :: v in prev && prev[v].Some? ==>
          && prev[v].value in visited && prev[v].value in orden
          && Link(g, dist, prev[v].value, v)
          && (v in orden ==> orden[prev[v].value] < orden[v]))
    && (forall v :: v in dist && v in prev && v != s && dist[v].Fin? ==> prev[v].Some?)
  }

  /**
   * Each predecessor is the first node, in `rank` order, whose edge reaches
   * its successor's distance: through the edge of every node ranked before
   * it, the successor would be strictly farther (the script replaces a
   * predecessor only on a strict improvement).
   */
  ghost predicate FirstLinks(g: Graph, dist: Distances, prev: Predecessors, rank: map<Node, nat>) {
    forall v, w {:trigger g[w][v], prev[v]} :: && v in prev && prev[v].Some? && prev[v].value in rank
                   && w in rank && rank[w] < rank[prev[v].value]
                   && w in g && v in g[w] && w in dist && v in dist && dist[w].Fin? && dist[v].Fin?
                   ==> dist[v].d < dist[w].d + g[w][v]
  }

  /** No path to a visited node is shorter than its distance. */
  ghost predicate LowerBounds(g: Graph, s: Node, dist: Distances, visited: set<Node>) {
    forall v, p :: v in visited && v in dist && IsPath(g, p, s, v) ==>
      dist[v].Fin? && dist[v].d <= PathWeight(g, p)
  }

  /** Every edge from a node of `sources` into an unvisited node has been relaxed. */
  ghost predicate Relaxed(g: Graph, dist: Distances, visited: set<Node>, sources: set<Node>) {
    forall u :: u in sources && u in g ==>
      forall v {:trigger g[u][v]} :: v in g[u] && v !in visited ==>
        && u in dist && v in dist && dist[u].Fin? && dist[v].Fin?
        && dist[v].d <= dist[u].d + g[u][v]
  }

  ghost predicate Invariant(g: Graph, s: Node, dist: Distances, prev: Predecessors, cola: Queue,
                            visited: set<Node>, settled: seq<Step>, orden: map<Node, nat>) {
    && Tables(g, s, dist, prev)
    && SettleOrder(g, s, dist, visited, settled, orden)
    && QueueSound(g, s, dist, cola, visited, settled)
    && Queued(dist, cola, visited)
    && Links(g, s, dist, prev, visited, orden)
    && FirstLinks(g, dist, prev, orden)
    && LowerBounds(g, s, dist, visited)
  }

  // ----------------------------------------------------------------------
  // One iteration at a time
  // ----------------------------------------------------------------------

  /** Dropping a stale entry (Dijkstra.py:36-37) keeps the invariant. */
  lemma SkipStale(g: Graph, s: Node, dist: Distances, prev: Predecessors, cola: Queue,
                  visited: set<Node>, settled: seq<Step>, orden: map<Node, nat>, e: Entry)
    requires Invariant(g, s, dist, prev, cola, visited, settled, orden)
    requires e in cola && e.node in visited
    ensures Invariant(g, s, dist, prev, cola - multiset{e}, visited, settled, orden)
  {
    var cola' := cola - multiset{e};
    forall v | v in dist && v !in visited && dist[v].Fin?
      ensures Entry(dist[v].d, v) in cola'
    {
      assert cola'[Entry(dist[v].d, v)] == cola[Entry(dist[v].d, v)];
    }
  }

  /** The entry popped for an unvisited node carries exactly that node's current distance. */
  lemma PoppedIsCurrent(g: Graph, s: Node, dist: Distances, cola: Queue,
                        visited: set<Node>, settled: seq<Step>, e: Entry)
    requires QueueSound(g, s, dist, cola, visited, settled) && Queued(dist, cola, visited)
    requires IsMin(cola, e) && e.node !in visited
    ensures e.node in g && e.node in dist && dist[e.node] == Fin(e.dist)
  {
    assert Entry(dist[e.node].d, e.node) in cola;
  }

  /**
   * A path from the source to an unvisited node leaves the visited nodes
   * somewhere; the first node outside them already has a heap entry no
   * heavier than the path.
   */
  lemma Frontier(g: Graph, s: Node, dist: Distances, cola: Queue, visited: set<Node>,
                 p: seq<Node>, v: Node)
    requires s in dist && dist[s] == Fin(0)
    requires Queued(dist, cola, visited)
    requires LowerBounds(g, s, dist, visited) && Relaxed(g, dist, visited, visited)
    requires IsPath(g, p, s, v) && v !in visited
    ensures exists e :: e in cola && e.dist <= PathWeight(g, p)
  {
    var k := FirstOutside(p, visited);
    PrefixWeight(g, p, k + 1);
    if k == 0 {
      assert Entry(0, s) in cola;
    } else {
      var u, w := p[k - 1], p[k];
      var pre := p[..k];
      assert IsPath(g, pre, s, u);
      assert pre + [w] == p[..k + 1];
      WeightExtend(g, pre, w);
      assert Entry(dist[w].d, w) in cola;
    }
  }

  /** The popped node's distance is a lower bound on every path to it, so settling it keeps `LowerBounds`. */
  lemma SettleIsShortest(g: Graph, s: Node, dist: Distances, cola: Queue, visited: set<Node>, e: Entry)
    requires s in dist && dist[s] == Fin(0)
    requires Queued(dist, cola, visited)
    requires LowerBounds(g, s, dist, visited) && Relaxed(g, dist, visited, visited)
    requires IsMin(cola, e) && e.node !in visited && e.node in dist && dist[e.node] == Fin(e.dist)
    ensures LowerBounds(g, s, dist, visited + {e.node})
  {
    forall v, p | v in visited + {e.node} && v in dist && IsPath(g, p, s, v)
      ensures dist[v].Fin? && dist[v].d <= PathWeight(g, p)
    {
      if v == e.node {
        Frontier(g, s, dist, cola, visited, p, v);
      }
    }
  }

  /** Settling the least entry appends it to the settlement order, which stays non-decreasing. */
  lemma SettleExtendsOrder(g: Graph, s: Node, dist: Distances, cola: Queue, visited: set<Node>,
                           settled: seq<Step>, orden: map<Node, nat>, e: Entry)
    requires SettleOrder(g, s, dist, visited, settled, orden)
    requires QueueSound(g, s, dist, cola, visited, settled)
    requires IsMin(cola, e) && e.node !in visited && e.node in g
    requires e.node in dist && dist[e.node] == Fin(e.dist)
    ensures SettleOrder(g, s, dist, visited + {e.node}, settled + [Step(e.node, e.dist)],
                        orden[e.node := |settled|])
  {
    var settled', orden' := settled + [Step(e.node, e.dist)], orden[e.node := |settled|];
    forall i | 0 <= i < |settled'|
      ensures settled'[i].node in orden' && orden'[settled'[i].node] == i
    {
      if i < |settled| {
        assert settled'[i] == settled[i];
      }
    }
  }

  /** Removing the settled node's entry keeps the heap sound for the new visited set. */
  lemma SettleKeepsQueue(g: Graph, s: Node, dist: Distances, cola: Queue, visited: set<Node>,
                         settled: seq<Step>, e: Entry)
    requires QueueSound(g, s, dist, cola, visited, settled) && Queued(dist, cola, visited)
    requires IsMin(cola, e) && e.node !in visited
    ensures QueueSound(g, s, dist, cola - multiset{e}, visited + {e.node}, settled + [Step(e.node, e.dist)])
    ensures Queued(dist, cola - multiset{e}, visited + {e.node})
  {
    var cola' := cola - multiset{e};
    forall x | x in dist && x !in visited + {e.node} && dist[x].Fin?
      ensures Entry(dist[x].d, x) in cola'
    {
      assert cola'[Entry(dist[x].d, x)] == cola[Entry(dist[x].d, x)];
    }
  }

  /** Settling a node leaves every predecessor link settled before its successor. */
  lemma SettleKeepsLinks(g: Graph, s: Node, dist: Distances, prev: Predecessors,
                         visited: set<Node>, orden: map<Node, nat>, v: Node, n: nat)
    requires Links(g, s, dist, prev, visited, orden)
    requires visited == orden.Keys && v !in visited
    requires forall u :: u in orden ==> orden[u] < n
    ensures Links(g, s, dist, prev, visited + {v}, orden[v := n])
  {
  }

  /** Settling a node at the last position leaves every predecessor the first to reach its successor. */
  lemma SettleKeepsFirst(g: Graph, s: Node, dist: Distances, prev: Predecessors,
                         visited: set<Node>, orden: map<Node, nat>, v: Node, n: nat)
    requires Links(g, s, dist, prev, visited, orden) && FirstLinks(g, dist, prev, orden)
    requires visited == orden.Keys && v !in visited
    requires forall u :: u in orden ==> orden[u] < n
    ensures FirstLinks(g, dist, prev, orden[v := n])
  {
  }

  /**
   * Settling the least entry's node (Dijkstra.py:33-39) keeps the invariant,
   * with every earlier settled node still relaxed.
   */
  lemma Settle(g: Graph, s: Node, dist: Distances, prev: Predecessors, cola: Queue,
               visited: set<Node>, settled: seq<Step>, orden: map<Node, nat>, e: Entry,
               cola': Queue, visited': set<Node>, settled': seq<Step>, orden': map<Node, nat>)
    requires Invariant(g, s, dist, prev, cola, visited, settled, orden)
    requires Relaxed(g, dist, visited, visited)
    requires IsMin(cola, e) && e.node !in visited
    requires cola' == cola - multiset{e} && visited' == visited + {e.node}
    requires settled' == settled + [Step(e.node, e.dist)] && orden' == orden[e.node := |settled|]
    ensures e.node in g && e.node in dist && dist[e.node] == Fin(e.dist)
    ensures Invariant(g, s, dist, prev, cola', visited', settled', orden')
    ensures Relaxed(g, dist, visited', visited)
    ensures e.node in orden' && orden'[e.node] == |settled'| - 1
  {
    PoppedIsCurrent(g, s, dist, cola, visited, settled, e);
    SettleIsShortest(g, s, dist, cola, visited, e);
    SettleExtendsOrder(g, s, dist, cola, visited, settled, orden, e);
    SettleKeepsQueue(g, s, dist, cola, visited, settled, e);
    SettleKeepsLinks(g, s, dist, prev, visited, orden, e.node, |settled|);
    SettleKeepsFirst(g, s, dist, prev, visited, orden, e.node, |settled|);
  }

  /** Relaxation changes no settled node and never raises a distance. */
  lemma RelaxationLowers(g: Graph, u: Node, du: nat, visited: set<Node>,
                         dist: Distances, prev: Predecessors, cola: Queue,
                         dist': Distances, prev': Predecessors, cola': Queue)
    requires u in g && dist.Keys == prev.Keys
    requires Relaxation(g, u, du, visited, dist, prev, cola, dist', prev', cola')
    ensures forall v :: v in visited && v in dist ==> dist'[v] == dist[v] && prev'[v] == prev[v]
    ensures forall v :: v in dist && dist[v].Fin? ==> dist'[v].Fin? && dist'[v].d <= dist[v].d
    ensures cola <= cola'
  {
    assert forall e :: cola[e] <= cola'[e];
  }

  /** After relaxing, every heap entry is still an upper bound no smaller than the last confirmed distance, and every improved node is queued. */
  lemma RelaxKeepsQueue(g: Graph, s: Node, dist: Distances, prev: Predecessors, cola: Queue,
                        visited: set<Node>, settled: seq<Step>,
                        dist': Distances, prev': Predecessors, cola': Queue)
    requires dist.Keys == prev.Keys && dist.Keys == g.Keys
    requires |settled| > 0 && settled[|settled| - 1].node in g
    requires QueueSound(g, s, dist, cola, visited, settled) && Queued(dist, cola, visited)
    requires Relaxation(g, settled[|settled| - 1].node, settled[|settled| - 1].dist, visited,
                        dist, prev, cola, dist', prev', cola')
    ensures QueueSound(g, s, dist', cola', visited, settled) && Queued(dist', cola', visited)
  {
    var u, du := settled[|settled| - 1].node, settled[|settled| - 1].dist;
    RelaxationLowers(g, u, du, visited, dist, prev, cola, dist', prev', cola');
    forall x | x in cola'
      ensures x.node in g && x.node in dist' && dist'[x.node].Fin? && dist'[x.node].d <= x.dist
      ensures du <= x.dist
    {
      if cola[x] == 0 {
        assert Improves(g, u, du, visited, dist, x.node);
      }
    }
    forall v | v in dist' && v !in visited && dist'[v].Fin?
      ensures Entry(dist'[v].d, v) in cola'
    {
      if !Improves(g, u, du, visited, dist, v) {
        assert cola'[Entry(dist'[v].d, v)] >= cola[Entry(dist'[v].d, v)];
      }
    }
  }

  /** After relaxing, every predecessor link still accounts for its node's distance. */
  lemma RelaxKeepsLinks(g: Graph, s: Node, dist: Distances, prev: Predecessors,
                        visited: set<Node>, orden: map<Node, nat>, u: Node, du: nat, cola: Queue,
                        dist': Distances, prev': Predecessors, cola': Queue)
    requires dist.Keys == prev.Keys && u in g && u in visited && u in orden
    requires u in dist && dist[u] == Fin(du)
    requires forall v :: v in visited ==> v in dist && dist[v].Fin?
    requires visited == orden.Keys
    requires Links(g, s, dist, prev, visited, orden)
    requires Relaxation(g, u, du, visited, dist, prev, cola, dist', prev', cola')
    ensures Links(g, s, dist', prev', visited, orden)
  {
    RelaxationLowers(g, u, du, visited, dist, prev, cola, dist', prev', cola');
    forall v | v in prev' && prev'[v].Some?
      ensures && prev'[v].value in visited && prev'[v].value in orden
              && Link(g, dist', prev'[v].value, v)
              && (v in orden ==> orden[prev'[v].value] < orden[v])
    {
      if Improves(g, u, du, visited, dist, v) {
        assert prev'[v].value == u;
      } else {
        assert prev'[v] == prev[v];
      }
    }
  }

  /**
   * After relaxing the edges of `u`, every predecessor is still the first to
   * reach its successor: `u` becomes a predecessor only by a strict
   * improvement on a distance that the edges of every other settled node
   * already bounded.
   */
  lemma RelaxKeepsFirst(g: Graph, dist: Distances, prev: Predecessors, visited: set<Node>,
                        before: set<Node>, orden: map<Node, nat>, u: Node, du: nat, cola: Queue,
                        dist': Distances, prev': Predecessors, cola': Queue)
    requires dist.Keys == prev.Keys && u in g && visited == before + {u} && visited == orden.Keys
    requires Relaxed(g, dist, visited, before) && FirstLinks(g, dist, prev, orden)
    requires Relaxation(g, u, du, visited, dist, prev, cola, dist', prev', cola')
    ensures FirstLinks(g, dist', prev', orden)
  {
    RelaxationLowers(g, u, du, visited, dist, prev, cola, dist', prev', cola');
    forall v, w | && v in prev' && prev'[v].Some? && prev'[v].value in orden
                  && w in orden && orden[w] < orden[prev'[v].value]
                  && w in g && v in g[w] && w in dist' && v in dist' && dist'[w].Fin? && dist'[v].Fin?
      ensures dist'[v].d < dist'[w].d + g[w][v]
    {
      if Improves(g, u, du, visited, dist, v) {
        assert w in before && v !in visited;
      } else {
        assert prev'[v] == prev[v] && dist'[v] == dist[v];
      }
    }
  }

  /** After relaxing, every edge out of a settled node, the new one included, is relaxed. */
  lemma RelaxKeepsRelaxed(g: Graph, dist: Distances, prev: Predecessors, visited: set<Node>,
                          before: set<Node>, u: Node, du: nat, cola: Queue,
                          dist': Distances, prev': Predecessors, cola': Queue)
    requires dist.Keys == prev.Keys && u in g && visited == before + {u}
    requires u in dist && dist[u] == Fin(du)
    requires forall v :: v in visited ==> v in dist && dist[v].Fin?
    requires Relaxed(g, dist, visited, before)
    requires Closed(g) && g.Keys == dist.Keys
    requires Relaxation(g, u, du, visited, dist, prev, cola, dist', prev', cola')
    ensures Relaxed(g, dist', visited, visited)
  {
    RelaxationLowers(g, u, du, visited, dist, prev, cola, dist', prev', cola');
    forall x, v | x in visited && x in g && v in g[x] && v !in visited
      ensures && x in dist' && v in dist' && dist'[x].Fin? && dist'[v].Fin?
              && dist'[v].d <= dist'[x].d + g[x][v]
    {
      if x == u && !Improves(g, u, du, visited, dist, v) {
        assert !Less(Fin(du + g[u][v]), dist[v]);
      }
    }
  }

  /**
   * Relaxing the edges of the node just settled (Dijkstra.py:55-64) restores
   * the invariant with every settled node relaxed.
   */
  lemma RelaxKeeps(g: Graph, s: Node, dist: Distances, prev: Predecessors, cola: Queue,
                   visited: set<Node>, settled: seq<Step>, orden: map<Node, nat>, before: set<Node>,
                   u: Node, du: nat, dist': Distances, prev': Predecessors, cola': Queue)
    requires Closed(g)
    requires Invariant(g, s, dist, prev, cola, visited, settled, orden)
    requires |settled| > 0 && settled[|settled| - 1] == Step(u, du) && visited == before + {u}
    requires Relaxed(g, dist, visited, before)
    requires u in g
    requires Relaxation(g, u, du, visited, dist, prev, cola, dist', prev', cola')
    ensures Invariant(g, s, dist', prev', cola', visited, settled, orden)
    ensures Relaxed(g, dist', visited, visited)
  {
    assert u in orden && orden[u] == |settled| - 1;
    RelaxationLowers(g, u, du, visited, dist, prev, cola, dist', prev', cola');
    assert !Improves(g, u, du, visited, dist, s) by {
      assert !Less(Fin(du + if s in g[u] then g[u][s] else 0), Fin(0));
    }
    assert Tables(g, s, dist', prev');
    assert SettleOrder(g, s, dist', visited, settled, orden);
    RelaxKeepsQueue(g, s, dist, prev, cola, visited, settled, dist', prev', cola');
    RelaxKeepsLinks(g, s, dist, prev, visited, orden, u, du, cola, dist', prev', cola');
    RelaxKeepsFirst(g, dist, prev, visited, before, orden, u, du, cola, dist', prev', cola');
    assert LowerBounds(g, s, dist', visited);
    RelaxKeepsRelaxed(g, dist, prev, visited, before, u, du, cola, dist', prev', cola');
  }

  /**
   * When the heap runs dry every unvisited node is at infinite distance,
   * without predecessor, and unreachable: a path to it would leave the
   * visited nodes along a relaxed edge, whose target would still be queued.
   */
  lemma Drained(g: Graph, s: Node, dist: Distances, prev: Predecessors,
                visited: set<Node>, settled: seq<Step>, orden: map<Node, nat>)
    requires Invariant(g, s, dist, prev, multiset{}, visited, settled, orden)
    requires Relaxed(g, dist, visited, visited)
    ensures |settled| > 0
    ensures forall v :: v in g && v !in visited ==>
              dist[v] == Inf && prev[v] == None && !Reachable(g, s, v)
  {
    forall v | v in g && v !in visited
      ensures dist[v] == Inf && prev[v] == None && !Reachable(g, s, v)
    {
      if p :| IsPath(g, p, s, v) {
        Frontier(g, s, dist, multiset{}, visited, p, v);
        assert false;
      }
    }
  }

  /** The settlement positions, and one past them for unsettled nodes. */
  ghost function SettleRank(g: Graph, orden: map<Node, nat>, n: nat): map<Node, nat> {
    map v | v in g :: if v in orden then orden[v] else n
  }

  /** The predecessor links kept by the loop form a predecessor tree, ranked by settlement order. */
  lemma LinksFormTree(g: Graph, s: Node, dist: Distances, prev: Predecessors,
                      visited: set<Node>, settled: seq<Step>, orden: map<Node, nat>)
    requires Tables(g, s, dist, prev) && Links(g, s, dist, prev, visited, orden)
    requires visited == orden.Keys && forall v :: v in orden ==> orden[v] < |settled|
    ensures PredecessorTree(g, s, dist, prev, SettleRank(g, orden, |settled|))
  {
    var rank := SettleRank(g, orden, |settled|);
    assert Ranked(prev, rank);
  }

  /** The settlement record names each visited node exactly once. */
  lemma SettledOnce(g: Graph, s: Node, dist: Distances, visited: set<Node>,
                    settled: seq<Step>, orden: map<Node, nat>)
    requires SettleOrder(g, s, dist, visited, settled, orden)
    ensures Nodes(settled) == visited
    ensures forall i, j :: 0 <= i < j < |settled| ==> settled[i].node != settled[j].node
  {
    forall v | v in visited ensures v in Nodes(settled) {
      assert settled[orden[v]].node == v;
    }
  }

  /** A settled distance is the weight of the tree path and a lower bound on every path: the shortest distance. */
  lemma SettledAreShortest(g: Graph, s: Node, dist: Distances, prev: Predecessors, rank: map<Node, nat>,
                           visited: set<Node>, settled: seq<Step>, orden: map<Node, nat>)
    requires PredecessorTree(g, s, dist, prev, rank)
    requires SettleOrder(g, s, dist, visited, settled, orden)
    requires LowerBounds(g, s, dist, visited)
    ensures forall i :: 0 <= i < |settled| ==>
              settled[i].node in g && IsShortest(g, s, settled[i].node, settled[i].dist)
  {
    forall i | 0 <= i < |settled|
      ensures settled[i].node in g && IsShortest(g, s, settled[i].node, settled[i].dist)
    {
      var v := settled[i].node;
      TreePath(g, s, dist, prev, rank, v);
    }
  }

  /** The settlements start with the source at 0, name each node once, in non-decreasing distance. */
  ghost predicate SettlementRecord(s: Node, settled: seq<Step>) {
    && |settled| > 0 && settled[0] == Step(s, 0)
    && forall i, j :: 0 <= i < j < |settled| ==>
         settled[i].node != settled[j].node && settled[i].dist <= settled[j].dist
  }

  /** Each settled node keeps its confirmed distance, which is its shortest distance from `s`. */
  ghost predicate SettledShortest(g: Graph, s: Node, dist: Distances, settled: seq<Step>) {
    forall i :: 0 <= i < |settled| ==>
      && settled[i].node in g && settled[i].node in dist
      && dist[settled[i].node] == Fin(settled[i].dist)
      && IsShortest(g, s, settled[i].node, settled[i].dist)
  }

  /** Nothing is settled after `fin`. */
  ghost predicate StopsAtFin(fin: Option<Node>, settled: seq<Step>) {
    forall i :: 0 <= i < |settled| && fin == Some(settled[i].node) ==> i == |settled| - 1
  }

  /**
   * Every predecessor is a settled node, and `rank` gives each settled node
   * its position in the record and every other node one past the last; with
   * `Ranked`, each predecessor was settled before its successor.
   */
  ghost predicate RankedBySettlement(g: Graph, prev: Predecessors, settled: seq<Step>, rank: map<Node, nat>) {
    && (forall v :: v in g && v in prev && prev[v].Some? ==> prev[v].value in Nodes(settled))
    && (forall i :: 0 <= i < |settled| ==> settled[i].node in rank && rank[settled[i].node] == i)
    && (forall v :: v in g && v !in Nodes(settled) ==> v in rank && rank[v] == |settled|)
  }

  /**
   * Unless the loop stopped at `fin`, every node left unsettled is
   * unreachable from `s` and kept distance infinity and no predecessor.
   */
  ghost predicate Exhausted(g: Graph, s: Node, fin: Option<Node>, dist: Distances, prev: Predecessors,
                            settled: seq<Step>) {
    (fin.None? || fin.value !in Nodes(settled)) ==>
      forall v :: v in g && v !in Nodes(settled) ==>
        v in dist && v in prev && dist[v] == Inf && prev[v] == None && !Reachable(g, s, v)
  }

  /**
   * No node left unsettled at a finite distance is closer than the last
   * settlement: its heap entry was still waiting behind the least one.
   */
  ghost predicate Behind(g: Graph, dist: Distances, settled: seq<Step>) {
    |settled| > 0 ==>
      forall v :: v in g && v !in Nodes(settled) && v in dist && dist[v].Fin? ==>
        settled[|settled| - 1].dist <= dist[v].d
  }

  /** Every node left unsettled at a finite distance still has its heap entry, no closer than the last settlement. */
  lemma Waiting(g: Graph, s: Node, dist: Distances, cola: Queue, visited: set<Node>, settled: seq<Step>)
    requires QueueSound(g, s, dist, cola, visited, settled) && Queued(dist, cola, visited)
    requires Nodes(settled) == visited
    ensures Behind(g, dist, settled)
  {
    if |settled| > 0 {
      forall v | v in g && v !in Nodes(settled) && v in dist && dist[v].Fin?
        ensures settled[|settled| - 1].dist <= dist[v].d
      {
        assert Entry(dist[v].d, v) in cola;
      }
    }
  }

  /** Read against the settlement positions, each predecessor is still the first to reach its successor. */
  lemma FirstBySettlement(g: Graph, s: Node, dist: Distances, prev: Predecessors,
                          visited: set<Node>, orden: map<Node, nat>, n: nat)
    requires Links(g, s, dist, prev, visited, orden) && FirstLinks(g, dist, prev, orden)
    requires forall v :: v in orden ==> orden[v] < n
    ensures FirstLinks(g, dist, prev, SettleRank(g, orden, n))
  {
    var rank := SettleRank(g, orden, n);
    forall v, w | && v in prev && prev[v].Some? && prev[v].value in rank
                  && w in rank && rank[w] < rank[prev[v].value]
                  && w in g && v in g[w] && w in dist && v in dist && dist[w].Fin? && dist[v].Fin?
      ensures dist[v].d < dist[w].d + g[w][v]
    {
      var u := prev[v].value;
      assert u in orden && rank[u] == orden[u];
      assert w in orden && rank[w] == orden[w];
    }
  }

  /**
   * What the invariant gives at either exit of the loop: right after settling
   * `fin`, or with the heap empty and every settled node relaxed.
   */
  lemma Finish(g: Graph, s: Node, fin: Option<Node>, dist: Distances, prev: Predecessors, cola: Queue,
               visited: set<Node>, settled: seq<Step>, orden: map<Node, nat>)
    requires Invariant(g, s, dist, prev, cola, visited, settled, orden)
    requires fin.Some? && fin.value in visited ==> orden[fin.value] == |settled| - 1
    requires fin.None? || fin.value !in visited ==>
               cola == multiset{} && Relaxed(g, dist, visited, visited)
    ensures PredecessorTree(g, s, dist, prev, SettleRank(g, orden, |settled|))
    ensures SettlementRecord(s, settled)
    ensures SettledShortest(g, s, dist, settled)
    ensures StopsAtFin(fin, settled)
    ensures Exhausted(g, s, fin, dist, prev, settled)
    ensures Nodes(settled) == visited
    ensures RankedBySettlement(g, prev, settled, SettleRank(g, orden, |settled|))
    ensures FirstLinks(g, dist, prev, SettleRank(g, orden, |settled|))
    ensures Behind(g, dist, settled)
  {
    LinksFormTree(g, s, dist, prev, visited, settled, orden);
    SettledOnce(g, s, dist, visited, settled, orden);
    FirstBySettlement(g, s, dist, prev, visited, orden, |settled|);
    Waiting(g, s, dist, cola, visited, settled);
    SettledAreShortest(g, s, dist, prev, SettleRank(g, orden, |settled|), visited, settled, orden);
    if fin.None? || fin.value !in visited {
      Drained(g, s, dist, prev, visited, settled, orden);
    }
  }

  /** Before `fin` is visited, every predecessor is a visited node other than `fin`. */
  lemma NotStopped(g: Graph, s: Node, fin: Option<Node>, dist: Distances, prev: Predecessors, cola: Queue,
                   visited: set<Node>, settled: seq<Step>, orden: map<Node, nat>)
    requires Invariant(g, s, dist, prev, cola, visited, settled, orden)
    requires Relaxed(g, dist, visited, visited)
    requires fin.Some? ==> fin.value !in visited
    ensures RelaxedExceptFin(g, fin, dist, prev, visited)
  {
    if fin.Some? {
      assert visited - {fin.value} == visited;
    }
  }

  /** The state before the first iteration satisfies the invariant. */
  lemma Initially(g: Graph, s: Node, dist: Distances, prev: Predecessors)
    requires s in g
    requires dist == (map v | v in g :: Inf)[s := Fin(0)]
    requires prev == map v | v in g :: None
    ensures Invariant(g, s, dist, prev, multiset{Entry(0, s)}, {}, [], map[])
    ensures Relaxed(g, dist, {}, {})
  {
  }

  /** Settling an unvisited node of the graph shrinks the set of unvisited nodes. */
  lemma FewerUnvisited(keys: set<Node>, visited: set<Node>, v: Node)
    requires v in keys && v !in visited
    ensures |keys - (visited + {v})| < |keys - visited|
  {
    assert keys - visited == (keys - (visited + {v})) + {v};
  }

  /**
   * One pass of the main loop's body (Dijkstra.py:33-64) once `e` has been
   * popped, leaving `resto`: an entry of a visited node is dropped and nothing
   * else changes; otherwise its node is visited and recorded, and the pass
   * stops if it is `fin`, with the maps and heap as they were, or else relaxes
   * its edges.
   */
  ghost predicate Pass(g: Graph, fin: Option<Node>, e: Entry,
                       dist: Distances, prev: Predecessors, resto: Queue, visited: set<Node>, settled: seq<Step>,
                       dist': Distances, prev': Predecessors, cola': Queue, visited': set<Node>,
                       settled': seq<Step>, parar: bool) {
    if e.node in visited then
      && !parar && dist' == dist && prev' == prev && cola' == resto
      && visited' == visited && settled' == settled
    else
      && e.node in g
      && visited' == visited + {e.node}
      && settled' == settled + [Step(e.node, e.dist)]
      && (parar <==> fin == Some(e.node))
      && if parar then dist' == dist && prev' == prev && cola' == resto
         else Relaxation(g, e.node, e.dist, visited', dist, prev, resto, dist', prev', cola')
  }

  /**
   * The main loop's body after a pop of an unvisited node (Dijkstra.py:39-64):
   * settle `entrada` (record it, and report it when `mostrarPasos`), stop if
   * it is `fin`, and otherwise relax its edges.
   */
  method Visit(grafo: Graph, inicio: Node, fin: Option<Node>, entrada: Entry,
               distancias: Distances, anterior: Predecessors, resto: Queue, visitados: set<Node>,
               settled: seq<Step>, ghost cola: Queue, ghost orden: map<Node, nat>)
    returns (distancias': Distances, anterior': Predecessors, cola': Queue, visitados': set<Node>,
             settled': seq<Step>, ghost orden': map<Node, nat>, parar: bool)
    requires Closed(grafo)
    requires Invariant(grafo, inicio, distancias, anterior, cola, visitados, settled, orden)
    requires Relaxed(grafo, distancias, visitados, visitados)
    requires IsMin(cola, entrada) && entrada.node !in visitados && resto == cola - multiset{entrada}
    requires fin.Some? ==> fin.value !in visitados
    ensures Pass(grafo, fin, entrada, distancias, anterior, resto, visitados, settled,
                 distancias', anterior', cola', visitados', settled', parar)
    ensures |grafo.Keys - visitados'| < |grafo.Keys - visitados|
    ensures Invariant(grafo, inicio, distancias', anterior', cola', visitados', settled', orden')
    ensures parar ==> orden'[entrada.node] == |settled'| - 1
    ensures parar ==> RelaxedExceptFin(grafo, fin, distancias', anterior', visitados')
    ensures !parar ==> Relaxed(grafo, distancias', visitados', visitados') && (fin.Some? ==> fin.value !in visitados')
  {
    var nodoActual, distanciaActual := entrada.node, entrada.dist;
    visitados' := visitados + {nodoActual};
    orden' := orden[nodoActual := |settled|];
    settled' := settled + [Step(nodoActual, distanciaActual)];
    Settle(grafo, inicio, distancias, anterior, cola, visitados, settled, orden, entrada,
           resto, visitados', settled', orden');
    FewerUnvisited(grafo.Keys, visitados, nodoActual);
    distancias', anterior', cola' := distancias, anterior, resto;
    parar := fin.Some? && nodoActual == fin.value;
    if parar {
      assert visitados' - {nodoActual} == visitados;
    } else {
      distancias', anterior', cola' := Relax(grafo, nodoActual, distanciaActual, visitados', distancias, anterior, resto);
      RelaxKeeps(grafo, inicio, distancias, anterior, resto, visitados', settled', orden', visitados,
                 nodoActual, distanciaActual, distancias', anterior', cola');
    }
  }

  /**
   * One pass of the main loop's body (Dijkstra.py:33-64): pop a least entry;
   * drop it if its node is already visited, otherwise `Visit` it.
   */
  method Iterate(grafo: Graph, inicio: Node, fin: Option<Node>,
                 distancias: Distances, anterior: Predecessors, cola: Queue, visitados: set<Node>,
                 settled: seq<Step>, ghost orden: map<Node, nat>)
    returns (entrada: Entry, distancias': Distances, anterior': Predecessors, cola': Queue,
             visitados': set<Node>, settled': seq<Step>, ghost orden': map<Node, nat>, parar: bool)
    requires Closed(grafo) && cola != multiset{}
    requires Invariant(grafo, inicio, distancias, anterior, cola, visitados, settled, orden)
    requires Relaxed(grafo, distancias, visitados, visitados)
    requires fin.Some? ==> fin.value !in visitados
    ensures IsMin(cola, entrada)
    ensures Pass(grafo, fin, entrada, distancias, anterior, cola - multiset{entrada}, visitados, settled,
                 distancias', anterior', cola', visitados', settled', parar)
    ensures Invariant(grafo, inicio, distancias', anterior', cola', visitados', settled', orden')
    ensures parar ==> fin.Some? && fin.value in visitados' && orden'[fin.value] == |settled'| - 1
    ensures parar ==> RelaxedExceptFin(grafo, fin, distancias', anterior', visitados')
    ensures !parar ==> Relaxed(grafo, distancias', visitados', visitados') && (fin.Some? ==> fin.value !in visitados')
    ensures || |grafo.Keys - visitados'| < |grafo.Keys - visitados|
            || (|grafo.Keys - visitados'| == |grafo.Keys - visitados| && |cola'| < |cola|)
  {
    var resto;
    entrada, resto := PopMin(cola);
    if entrada.node in visitados {
      SkipStale(grafo, inicio, distancias, anterior, cola, visitados, settled, orden, entrada);
      return entrada, distancias, anterior, resto, visitados, settled, orden, false;
    }
    distancias', anterior', cola', visitados', settled', orden', parar :=
      Visit(grafo, inicio, fin, entrada, distancias, anterior, resto, visitados, settled, cola, orden);
  }

  // ----------------------------------------------------------------------
  // The algorithm
  // ----------------------------------------------------------------------

  /**
   * The edges relaxed when the loop ends (Dijkstra.py:50-64): those of every
   * node of `done` other than `fin` into the nodes outside `done`, and none of
   * `fin`'s, since the loop breaks right after settling `fin`; so `fin` is
   * nobody's predecessor.
   */
  ghost predicate RelaxedExceptFin(g: Graph, fin: Option<Node>, dist: Distances, prev: Predecessors,
                                   done: set<Node>) {
    && Relaxed(g, dist, done, if fin.Some? then done - {fin.value} else done)
    && (fin.Some? ==> forall v :: v in prev && prev[v].Some? ==> prev[v].value != fin.value)
  }

  /**
   * The initialisation and main loop of `dijkstra` (Dijkstra.py:24-64), up
   * to the point where the loop has stopped: either `fin` was just settled,
   * or the heap ran empty with every settled node relaxed.
   */
  method Explore(grafo: Graph, inicio: Node, fin: Option<Node>)
    returns (distancias: Distances, anterior: Predecessors, cola: Queue, visitados: set<Node>,
             settled: seq<Step>, ghost orden: map<Node, nat>)
    requires Closed(grafo) && inicio in grafo
    ensures Invariant(grafo, inicio, distancias, anterior, cola, visitados, settled, orden)
    ensures fin.Some? && fin.value in visitados ==> orden[fin.value] == |settled| - 1
    ensures fin.None? || fin.value !in visitados ==>
              cola == multiset{} && Relaxed(grafo, distancias, visitados, visitados)
    ensures RelaxedExceptFin(grafo, fin, distancias, anterior, visitados)
  {
    distancias := map v | v in grafo :: Inf;
    distancias := distancias[inicio := Fin(0)];
    anterior := map v | v in grafo :: None;
    cola := multiset{Entry(0, inicio)};
    visitados := {};
    settled := [];
    orden := map[];
    Initially(grafo, inicio, distancias, anterior);

    while cola != multiset{}
      invariant Invariant(grafo, inicio, distancias, anterior, cola, visitados, settled, orden)
      invariant Relaxed(grafo, distancias, visitados, visitados)
      invariant fin.Some? ==> fin.value !in visitados
      decreases |grafo.Keys - visitados|, |cola|
    {
      var entrada, parar;
      entrada, distancias, anterior, cola, visitados, settled, orden, parar :=
        Iterate(grafo, inicio, fin, distancias, anterior, cola, visitados, settled, orden);
      if parar {
        break;
      }
    }
    if fin.None? || fin.value !in visitados {
      NotStopped(grafo, inicio, fin, distancias, anterior, cola, visitados, settled, orden);
    }
  }

  /**
   * dijkstra(grafo, inicio, fin, mostrar_pasos). `pasos` is what the script
   * prints per settlement (when `mostrarPasos`); the ghost `settled` records
   * every settlement either way, and the ghost `rank` orders the predecessor
   * links for `ReconstruirCamino`.
   */
  method Dijkstra(grafo: Graph, inicio: Node, fin: Option<Node>, mostrarPasos: bool)
    returns (distancias: Distances, anterior: Predecessors, pasos: seq<Step>,
             ghost settled: seq<Step>, ghost rank: map<Node, nat>)
    requires Closed(grafo) && inicio in grafo
    ensures PredecessorTree(grafo, inicio, distancias, anterior, rank)
    ensures RankedBySettlement(grafo, anterior, settled, rank)
    ensures FirstLinks(grafo, distancias, anterior, rank)
    ensures Behind(grafo, distancias, settled)
    ensures pasos == if mostrarPasos then settled else []
    ensures SettlementRecord(inicio, settled)
    ensures SettledShortest(grafo, inicio, distancias, settled)
    ensures StopsAtFin(fin, settled)
    ensures Exhausted(grafo, inicio, fin, distancias, anterior, settled)
    ensures RelaxedExceptFin(grafo, fin, distancias, anterior, Nodes(settled))
  {
    var cola, visitados, confirmados;
    ghost var orden;
    distancias, anterior, cola, visitados, confirmados, orden := Explore(grafo, inicio, fin);
    settled := confirmados;
    pasos := if mostrarPasos then confirmados else [];
    Finish(grafo, inicio, fin, distancias, anterior, cola, visitados, settled, orden);
    rank := SettleRank(grafo, orden, |settled|);
  }

  /**
   * At either exit, no path from `s` to a node left unsettled weighs less
   * than the last confirmed distance, so every node closer than that has
   * been settled: the path leaves the settled nodes along a relaxed edge into
   * a node that `Behind` places no closer than the last settlement.
   */
  lemma UnsettledNotCloser(g: Graph, s: Node, fin: Option<Node>, dist: Distances, prev: Predecessors,
                           settled: seq<Step>, p: seq<Node>, v: Node)
    requires Closed(g)
    requires SettlementRecord(s, settled) && SettledShortest(g, s, dist, settled)
    requires StopsAtFin(fin, settled) && Behind(g, dist, settled)
    requires RelaxedExceptFin(g, fin, dist, prev, Nodes(settled))
    requires IsPath(g, p, s, v) && v !in Nodes(settled)
    ensures settled[|settled| - 1].dist <= PathWeight(g, p)
  {
    var done := Nodes(settled);
    assert s in done by { assert settled[0].node == s; }
    var pre, u, w := Leave(g, p, s, v, done);
    var i :| 0 <= i < |settled| && settled[i].node == u;
    assert settled[i].dist <= PathWeight(g, pre);
    if fin == Some(u) {
      assert i == |settled| - 1;
    } else {
      assert u in done - (if fin.Some? then {fin.value} else {});
      assert dist[w].d <= dist[u].d + g[u][w];
    }
  }
}
