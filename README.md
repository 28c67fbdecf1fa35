# Dijkstra's shortest paths, verified model

`Dijkstra.py` defines three functions. The model covers two of them, `dijkstra` and `reconstruir_camino`, and the main block's composition of them. The third, `dibujar_grafo`, only draws the graph.

- `dijkstra(grafo, inicio, fin, mostrar_pasos)` runs Dijkstra's single-source shortest-path algorithm.
  - The graph is a dictionary of dictionaries.
  - The heap `cola` holds `(distancia, nodo)` entries, with lazy deletion through the `visitados` set.
  - The loop stops early once the optional target `fin` has been settled.
  - It returns the distance map `distancias` and the predecessor map `anterior`.
- `reconstruir_camino(anterior, inicio, fin)` walks the predecessor map backwards from `fin` and reverses the walk.
  - It returns `[]` unless the result starts at `inicio`.
- The main block runs both, then reports the path and `distancias[fin]` as the total distance.

The model has six modules in five files. `dijkstra.dfy` and `reconstruct.dfy` carry the script's loops as methods with loop invariants, and `queue.dfy` carries the heap pop as a method. `graphs.dfy` holds pure definitions and lemmas, because the script has no graph code of its own to follow, and `route.dfy` composes the two functions in one straight-line method:

- **`Wrappers`** (`graphs.dfy`) defines `Option`, which stands for Python's `None`-or-value.
- **`Graphs`** (`graphs.dfy`) defines graphs, walks, path weight and shortest distance.
  - Weights are natural numbers and distances are `Fin(d) | Inf`.
- **`PriorityQueue`** (`queue.dfy`) models the heap as a multiset of entries.
  - `heappop` may return any least entry.
- **`ShortestPaths`** (`dijkstra.dfy`) models `dijkstra` as methods with loops over the script's variables.
  - `Relax` is the `for` loop over the neighbours.
  - `Visit` and `Iterate` are one pass of the `while cola` loop.
  - `Explore` is the loop itself, and `Dijkstra` is the whole function.
  - A loop invariant (`Invariant`, `Relaxed`) is proved preserved by every kind of iteration.
  - At the exits, the model proves:
    - the settled distances are shortest;
    - the settlement order is non-decreasing;
    - the predecessor links form a tree of paths whose weights are exactly the distances;
    - every predecessor is a settled node, settled before its successor;
    - every predecessor is the first settled node whose edge reaches its successor's distance, because line 61 replaces a predecessor only on a strict improvement;
    - no node left unsettled is closer than the last settled distance, so after an early stop at `fin` every node strictly closer than `fin` has been settled;
    - after an early stop at `fin`, none of `fin`'s edges has been relaxed, and those of every other settled node have;
    - without an early stop, every node left unvisited is unreachable.
- **`PathReconstruction`** (`reconstruct.dfy`) models `reconstruir_camino`: the append loop, the reverse and the final check.
- **`ShortestRoute`** (`route.dfy`) is the main block's composition.
  - The path is non-empty exactly when `fin` is reachable.
  - A non-empty path is a shortest path whose weight is the reported total.

Choices the model makes about inputs the code does not check:

- **Neighbours as keys:** every neighbour must be a key of the graph (`Closed`). Line 61 reads `distancias[vecino]`, which fails for a neighbour that is not a key.
- **Start node:** `inicio` must be a key of the graph. `dijkstra` does not check it.
- **Target:** `fin` may be any node, or none. If it is not a key of the graph, the loop never stops early.
- **Ties:** `heapq` breaks ties between equal distances by comparing node names. The model lets any least entry come out.

## Model

| member | source | states |
|---|---|---|
| `PriorityQueue.MinExists` | Dijkstra.py:32-33 | A non-empty heap has an entry no other entry undercuts, so `heappop` under `while cola` always yields a minimum. |
| `PriorityQueue.PopMin` | Dijkstra.py:33 | `heappop` returns an entry of least distance and the heap loses exactly one copy of it. |
| `PathReconstruction.PathToIsChain` | Dijkstra.py:78-80 | The predecessor chain ending at `v` starts at its root, which has no predecessor, and ends at `v`. Each node's predecessor is the node before it. |
| `PathReconstruction.ChainIsPathTo` | Dijkstra.py:78-80 | Any such chain is the one the predecessor walk from its last node produces, so the walk's result is unique. |
| `PathReconstruction.Reversed` | Dijkstra.py:81 | `camino.reverse()` as a new sequence of the same length. Its element-by-element meaning is `ReversedAt`. |
| `PathReconstruction.ReversedAt` | Dijkstra.py:81 | `reverse` puts the element `i` places from the end at position `i`. |
| `PathReconstruction.ReversedSnoc` | Dijkstra.py:79-81 | Reversing after an `append` puts the appended node first. |
| `PathReconstruction.ChainStep` | Dijkstra.py:78-80 | One loop iteration moves the current node from the part of the chain still to walk to the collected part. The whole chain is unchanged. |
| `PathReconstruction.WalkComplete` | Dijkstra.py:76-81 | When the walk ends, the reversed collection is a chain from the root of `fin` to `fin`. |
| `PathReconstruction.ReconstruirCamino` | Dijkstra.py:72-85 | A non-empty result is a predecessor chain from `inicio` to `fin`. The result is `[]` exactly when `fin` is None or the chain from `fin` does not start at `inicio`. |
| `ShortestPaths.RelaxEdge` | Dijkstra.py:56-64 | Handling one neighbour extends the relaxation by exactly that edge. |
| `ShortestPaths.Relax` | Dijkstra.py:55-64 | The neighbour loop lowers the distance exactly for unvisited neighbours that `distancia_actual + peso` improves. For those it sets the predecessor to the current node and pushes the matching entry. Nothing else changes. |
| `ShortestPaths.RelaxationLowers` | Dijkstra.py:56-64 | Relaxation leaves every visited node's distance and predecessor alone. It never raises a distance and only adds heap entries. |
| `ShortestPaths.SkipStale` | Dijkstra.py:35-37 | Discarding a popped entry of an already visited node keeps the loop invariant. |
| `ShortestPaths.PoppedIsCurrent` | Dijkstra.py:33-39 | The least entry popped for an unvisited node carries exactly that node's current distance. |
| `ShortestPaths.Frontier` | Dijkstra.py:32-33 | A path from `inicio` to an unvisited node leaves the visited set at a node whose heap entry is no heavier than the path. |
| `ShortestPaths.SettleIsShortest` | Dijkstra.py:33-39 | The distance at which a node is settled is no larger than the weight of any path to it. |
| `ShortestPaths.SettleExtendsOrder` | Dijkstra.py:39-48 | Settling appends the step, with every earlier node keeping its position, and confirmed distances stay non-decreasing. |
| `ShortestPaths.SettleKeepsQueue` | Dijkstra.py:33-39 | After the pop, every heap entry is still an upper bound on its node's distance and at least the last confirmed distance. Every unvisited node at finite distance still has its entry. |
| `ShortestPaths.SettleKeepsLinks` | Dijkstra.py:33-39 | Settling a node at the next position keeps every predecessor a settled node, settled before its successor, whose edge accounts exactly for the successor's distance. |
| `ShortestPaths.SettleKeepsFirst` | Dijkstra.py:33-39 | Settling a node at the next position keeps every predecessor the first settled node whose edge reaches its successor's distance. |
| `ShortestPaths.Settle` | Dijkstra.py:33-39 | Settling the popped node keeps the whole loop invariant and records the node as settled last. |
| `ShortestPaths.RelaxKeepsQueue` | Dijkstra.py:59-64 | After relaxing, the heap stays sound and every improved node has the entry for its new distance. |
| `ShortestPaths.RelaxKeepsLinks` | Dijkstra.py:59-63 | After relaxing, every predecessor is a visited node, settled before its successor, whose edge accounts exactly for the successor's distance. |
| `ShortestPaths.RelaxKeepsFirst` | Dijkstra.py:59-63 | After relaxing, the edge of every node settled before a predecessor still gives its successor a strictly larger distance. The current node becomes a predecessor only by a strict improvement (line 61's `<`) on a distance that the earlier settled nodes' edges already bounded. |
| `ShortestPaths.RelaxKeepsRelaxed` | Dijkstra.py:55-64 | After relaxing, every edge from a visited node to an unvisited node, those of the settled node included, satisfies the triangle inequality. |
| `ShortestPaths.RelaxKeeps` | Dijkstra.py:55-64 | Relaxing the settled node's edges restores the loop invariant with every visited node relaxed. |
| `ShortestPaths.Drained` | Dijkstra.py:32 | When the heap runs empty, every unvisited node has infinite distance, no predecessor and no path from `inicio`. |
| `ShortestPaths.LinksFormTree` | Dijkstra.py:59-63 | The predecessor links form a tree rooted at `inicio`, ranked by settlement order. Each link is an edge whose weight accounts for the distance. |
| `ShortestPaths.SettledOnce` | Dijkstra.py:36-39 | The settlement record names each visited node exactly once. |
| `ShortestPaths.SettledAreShortest` | Dijkstra.py:32-52 | Every settled distance is the shortest-path distance from `inicio`. |
| `ShortestPaths.Finish` | Dijkstra.py:32-52 | At either exit of the loop: the predecessor tree holds, ranked by settlement position, and every predecessor is a settled node. The settlements start with `inicio` at 0, name exactly the visited nodes, each once, and do not decrease. Each settled distance is shortest. Nothing is settled after `fin`. Without an early stop, every unvisited node is unreachable with distance infinity. Every predecessor is the first node in settlement order whose edge reaches its successor's distance. No unsettled node at finite distance is closer than the last settled distance. |
| `ShortestPaths.Waiting` | Dijkstra.py:32-33 | Every node left unsettled at a finite distance still has its heap entry, so its distance is no smaller than the last settled distance. |
| `ShortestPaths.FirstBySettlement` | Dijkstra.py:59-63 | Read against the settlement ranks returned to the caller, every predecessor is still the first settled node whose edge reaches its successor's distance. |
| `ShortestPaths.Initially` | Dijkstra.py:17-28 | The initial maps, heap `[(0, inicio)]` and empty `visitados` satisfy the loop invariant. |
| `ShortestPaths.FewerUnvisited` | Dijkstra.py:39 | Adding an unvisited node to `visitados` shrinks the set of unvisited nodes. Together with the heap shrinking on stale pops, this is why the loop terminates. |
| `ShortestPaths.NotStopped` | Dijkstra.py:32-64 | While `fin` is unvisited, every visited node's edges are relaxed and every predecessor is a visited node, so none is `fin`. |
| `ShortestPaths.Visit` | Dijkstra.py:39-64 | The pass adds the node to `visitados`, records its step and keeps the invariant. It stops exactly when the node is `fin`. When it stops, the maps and heap are left as they were, so none of `fin`'s edges is relaxed. Otherwise the new maps and heap are exactly the `Relaxation` of the node's edges, and every visited node is relaxed. |
| `ShortestPaths.Iterate` | Dijkstra.py:32-64 | One pass pops a least entry. The pass drops a stale entry and leaves `distancias`, `anterior`, `visitados` and the steps unchanged. Otherwise it does what `Visit` states. It keeps the invariant and stops only right after settling `fin`. Either the unvisited set shrinks, or it stays the same and the heap shrinks. |
| `ShortestPaths.Explore` | Dijkstra.py:17-64 | The loop ends with the invariant, either right after settling `fin` or with the heap empty and every visited node relaxed. Every visited node other than `fin` has had its edges relaxed, and `fin` is nobody's predecessor. |
| `ShortestPaths.Dijkstra` | Dijkstra.py:8-69 | Both maps cover exactly the graph's keys. `inicio` is at 0 with no predecessor. The predecessors form a tree of paths whose weights equal the distances. Every predecessor is a settled node, and `rank` is the settlement position: each predecessor was settled before its successor. The reported steps are the settlements, or nothing when `mostrar_pasos` is false. Settled distances are shortest, in non-decreasing order, each node once, and nothing is settled after `fin`. Every settled node other than `fin` has had its edges into unsettled nodes relaxed, and `fin` is nobody's predecessor. Without an early stop, the unsettled nodes are unreachable and keep infinity and None. Each predecessor is the first settled node whose edge reaches its successor's distance: every node settled before it reaches the successor only at a strictly larger distance. No unsettled node at finite distance is closer than the last settled distance. So only ties between equal heap entries are left open. |
| `ShortestPaths.UnsettledNotCloser` | Dijkstra.py:32-64 | At either exit, every path from `inicio` to an unsettled node weighs at least the last settled distance. After an early stop at `fin`, every node strictly closer than `fin` has therefore been settled. |
| `ShortestPaths.TreePath` | Dijkstra.py:59-63 | From a node at finite distance, the predecessor walk ends at `inicio` and spells a path whose weight is exactly that distance. |
| `ShortestPaths.TreeUnreached` | Dijkstra.py:18-22 | A node at infinite distance has no predecessor chain to `inicio`. |
| `ShortestRoute.Unsettled` | Dijkstra.py:171-173 | If `fin` was never settled, it is unreachable, its distance is infinity and its chain does not start at `inicio`. |
| `ShortestRoute.SettledRoute` | Dijkstra.py:171-184 | If `fin` was settled, its predecessor chain is a shortest path from `inicio` whose weight is `distancias[fin]`. |
| `ShortestRoute.CaminoMasCorto` | Dijkstra.py:171-184 | The path is non-empty exactly when `fin` is reachable. Then it is a shortest path whose weight is the reported total. Otherwise the total is infinity. With `inicio == fin` the path is `[inicio]`. |

## Left out

- The `print` calls in `dijkstra` (lines 41-48, 66-67) are not modelled as text.
  - Each settlement becomes a `Step(node, confirmed distance)`.
  - `pasos` returns these steps when `mostrar_pasos` is set, so `|pasos|` is the final value of `paso`.
  - The snapshot of the distance map and the relaxation messages are not recorded.
- `dibujar_grafo` (lines 91-148) is not modelled: it only calls networkx and matplotlib to draw.
- Most of the main block (lines 154-193) is not modelled: the `input()` prompts, the node check at line 167 and the console output. Only the composition at lines 171-184 is modelled, by `ShortestRoute.CaminoMasCorto`, with both nodes required to be in the graph.
- `float('inf')` and general numeric weights are replaced by natural numbers and an explicit `Inf`. Negative weights are outside the algorithm's precondition.
- `heapq` internals are not modelled: neither the heap layout nor the tie-breaking between equal distances, which compares node names.
- Dijkstra: requires `Closed(grafo)` and `inicio in grafo`, and so excludes some inputs the script accepts.
  - A neighbour that is not a key is only read when its edge is relaxed (line 61). An edge out of a node that is never settled, or out of `fin` at the early stop, does no harm in the script.
  - With `inicio` outside the graph and `fin == inicio`, the script stops at line 52, before line 55 reads `grafo[inicio]`.
  - Where the script does read a missing key (line 55 or 61), it raises `KeyError`. The model has no such error.
- `ReconstruirCamino` builds the reversal as a new sequence rather than reversing the list in place. No other reference to the list exists, so nothing observable depends on the difference.
- ReconstruirCamino: requires a ghost ranking under which every predecessor is a key and ranks fall along every link, and so excludes some inputs the script accepts.
  - The script only follows the chain from `fin`. A cycle elsewhere, or a predecessor elsewhere that is not a key, does not affect it.
  - On that chain, a cycle makes the script loop forever, and a predecessor that is not a key raises `KeyError` at line 80.
  - Maps produced by `dijkstra` are never like that: `ShortestPaths.Dijkstra` returns a ranking that meets the requirement.
- ReconstruirCamino: requires `fin`, when given, to be a key of `anterior`. Otherwise the script raises `KeyError` at line 80, and the model has no such error.
- The iteration order of `grafo[nodo_actual].items()` is not modelled: `Relax` handles the neighbours in any order, and its result does not depend on that order.
