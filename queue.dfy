/**
 * The script's heap `cola` of `(distancia_acumulada, nodo)` pairs, seen only
 * through what `heapq` promises: a push adds one entry and a pop removes one
 * entry of least distance. The heap layout and the order in which equal
 * distances come out are not modelled, so a pop may return any minimum.
 */
module PriorityQueue {
  import opened Graphs

  datatype Entry = Entry(dist: nat, node: Node)

  type Queue = multiset<Entry>

  /** `e` is an entry of `q` whose distance no other entry undercuts. */
  predicate IsMin(q: Queue, e: Entry) {
    e in q && forall x :: x in q ==> e.dist <= x.dist
  }

  /** Every non-empty queue has a least entry. */
  lemma {:induction false} MinExists(q: Queue)
    requires q != multiset{}
    ensures exists e :: IsMin(q, e)
    decreases |q|
  {
    var x :| x in q;
    var rest := q - multiset{x};
    if rest == multiset{} {
      assert forall y :: y in q ==> y == x by {
        forall y | y in q ensures y == x {
          assert rest[y] == 0;
        }
      }
      assert IsMin(q, x);
    } else {
      MinExists(rest);
      var y :| IsMin(rest, y);
      assert forall z :: z in q ==> z == x || z in rest by {
        forall z | z in q && z != x ensures z in rest { assert rest[z] == q[z]; }
      }
      if x.dist <= y.dist {
        assert IsMin(q, x);
      } else {
        assert IsMin(q, y);
      }
    }
  }

  /** heapq.heappop: removes and returns one least entry. */
  method PopMin(q: Queue) returns (e: Entry, rest: Queue)
    requires q != multiset{}
    ensures IsMin(q, e)
    ensures rest == q - multiset{e}
  {
    MinExists(q);
    e :| IsMin(q, e);
    rest := q - multiset{e};
  }
}
