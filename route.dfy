/**
 * The script's entry point once both nodes are known to be in the graph
 * (Dijkstra.py:171-184): run `dijkstra` towards `fin`, rebuild the path with
 * `reconstruir_camino`, and report `distancias[fin]` as the total distance.
 */
module ShortestRoute {
  import opened Wrappers
  import opened Graphs
  import opened PathReconstruction
  import opened ShortestPaths

  /** A node outside the settlement record did not stop the loop, so it was never reached. */
  lemma Unsettled(grafo: Graph, inicio: Node, fin: Node, distancias: Distances, anterior: Predecessors,
                  settled: seq<Step>, rank: map<Node, nat>)
    requires fin in grafo && fin !in Nodes(settled)
    requires PredecessorTree(grafo, inicio, distancias, anterior, rank)
    requires Exhausted(grafo, inicio, Some(fin), distancias, anterior, settled)
    ensures distancias[fin] == Inf && !Reachable(grafo, inicio, fin)
    ensures Root(anterior, rank, fin) != inicio
  {
    TreeUnreached(grafo, inicio, distancias, anterior, rank, fin);
  }

  /** A settled node's tree path is a shortest path from `inicio`, weighing its distance. */
  lemma SettledRoute(grafo: Graph, inicio: Node, fin: Node, distancias: Distances, anterior: Predecessors,
                     settled: seq<Step>, rank: map<Node, nat>)
    requires fin in Nodes(settled)
    requires PredecessorTree(grafo, inicio, distancias, anterior, rank)
    requires SettledShortest(grafo, inicio, distancias, settled)
    ensures fin in grafo && distancias[fin].Fin?
    ensures Root(anterior, rank, fin) == inicio
    ensures IsPath(grafo, PathTo(anterior, rank, fin), inicio, fin)
    ensures PathWeight(grafo, PathTo(anterior, rank, fin)) == distancias[fin].d
    ensures IsShortest(grafo, inicio, fin, distancias[fin].d)
  {
    var i :| 0 <= i < |settled| && settled[i].node == fin;
    TreePath(grafo, inicio, distancias, anterior, rank, fin);
  }

  /**
   * dijkstra(grafo, inicio, fin) followed by reconstruir_camino: the path is
   * non-empty exactly when `fin` is reachable from `inicio`, and then it is a
   * shortest path whose weight is the reported total; otherwise the total is
   * infinity.
   */
  method CaminoMasCorto(grafo: Graph, inicio: Node, fin: Node) returns (camino: seq<Node>, total: Dist)
    requires Closed(grafo) && inicio in grafo && fin in grafo
    ensures camino != [] <==> Reachable(grafo, inicio, fin)
    ensures camino != [] ==>
              && IsPath(grafo, camino, inicio, fin)
              && total.Fin? && PathWeight(grafo, camino) == total.d
              && IsShortest(grafo, inicio, fin, total.d)
    ensures camino == [] ==> total == Inf
    ensures inicio == fin ==> camino == [inicio]
  {
    var distancias, anterior, pasos;
    ghost var settled, rank;
    distancias, anterior, pasos, settled, rank := Dijkstra(grafo, inicio, Some(fin), true);
    camino := ReconstruirCamino(anterior, inicio, Some(fin), rank);
    total := distancias[fin];
    if fin in Nodes(settled) {
      SettledRoute(grafo, inicio, fin, distancias, anterior, settled, rank);
      ChainIsPathTo(anterior, rank, camino);
    } else {
      Unsettled(grafo, inicio, fin, distancias, anterior, settled, rank);
      assert settled[0].node == inicio;
    }
  }
}
