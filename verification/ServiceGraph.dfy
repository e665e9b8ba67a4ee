/** Reachability and call distance in a service graph, independent of any search that computes them. */
module ServiceGraph {

  type Key = string

  /** Outgoing calls of every service whose defining file is known. */
  type Graph = map<Key, set<Key>>

  function Succ(g: Graph, k: Key): set<Key> {
    if k in g then g[k] else {}
  }

  ghost function Successors(g: Graph, s: set<Key>): set<Key> {
    set k, x | k in s && x in Succ(g, k) :: x
  }

  /** Services within `n` calls of a file whose direct targets are `start`: the direct targets are one call away. */
  ghost function Within(g: Graph, start: set<Key>, n: nat): set<Key> {
    if n == 0 then {}
    else start + Within(g, start, n - 1) + Successors(g, Within(g, start, n - 1))
  }

  ghost predicate Reaches(g: Graph, start: set<Key>, k: Key) {
    exists n: nat :: k in Within(g, start, n)
  }

  /** `n` is the length of a shortest call chain from the file to `k`. */
  ghost predicate AtDistance(g: Graph, start: set<Key>, k: Key, n: nat) {
    n > 0 && k in Within(g, start, n) && k !in Within(g, start, n - 1)
  }

  lemma {:induction false} WithinMonotone(g: Graph, start: set<Key>, m: nat, n: nat)
    requires m <= n
    ensures Within(g, start, m) <= Within(g, start, n)
    decreases n - m
  {
    if m < n {
      WithinMonotone(g, start, m + 1, n);
    }
  }

  lemma {:induction false} ReachesHasDistance(g: Graph, start: set<Key>, k: Key, n: nat) returns (d: nat)
    requires k in Within(g, start, n)
    ensures d <= n && AtDistance(g, start, k, d)
    decreases n
  {
    if k in Within(g, start, n - 1) {
      d := ReachesHasDistance(g, start, k, n - 1);
    } else {
      d := n;
    }
  }

  lemma DistanceUnique(g: Graph, start: set<Key>, k: Key, m: nat, n: nat)
    requires AtDistance(g, start, k, m) && k in Within(g, start, n)
    ensures m <= n
    ensures AtDistance(g, start, k, n) ==> m == n
  {
    hide Within;
    if n < m {
      WithinMonotone(g, start, n, m - 1);
    }
    if AtDistance(g, start, k, n) && m < n {
      WithinMonotone(g, start, m, n - 1);
    }
  }

  lemma ReachesClosed(g: Graph, start: set<Key>, k: Key, x: Key)
    requires x in start || (Reaches(g, start, k) && x in Succ(g, k))
    ensures Reaches(g, start, x)
  {
    if x in start {
      assert x in Within(g, start, 1);
    } else {
      var n: nat :| k in Within(g, start, n);
      assert x in Within(g, start, n + 1);
    }
  }

  /** Adding edges keeps everything reachable at least as close; a dropped self-loop changes nothing. */
  lemma {:induction false} MoreEdges(g: Graph, g': Graph, start: set<Key>, n: nat)
    requires forall k :: Succ(g, k) <= Succ(g', k) + {k}
    ensures Within(g, start, n) <= Within(g', start, n)
  {
    if n > 0 {
      MoreEdges(g, g', start, n - 1);
    }
  }

  /** What holds of the start set and survives every edge holds of everything reachable. */
  lemma {:induction false} ReachInduction(g: Graph, start: set<Key>, p: Key -> bool, n: nat)
    requires forall k :: k in start ==> p(k)
    requires forall k, x :: p(k) && x in Succ(g, k) ==> p(x)
    ensures forall k :: k in Within(g, start, n) ==> p(k)
  {
    if n > 0 {
      ReachInduction(g, start, p, n - 1);
    }
  }

  lemma ReachesThrough(g: Graph, start: set<Key>, k: Key, x: Key)
    requires Reaches(g, start, k) && Reaches(g, Succ(g, k), x)
    ensures Reaches(g, start, x)
  {
    hide Within;
    var m: nat :| k in Within(g, start, m);
    var n: nat :| x in Within(g, Succ(g, k), n);
    WithinThrough(g, start, k, m, x, n);
  }

  lemma OneMore(g: Graph, start: set<Key>, k: Key, x: Key, n: nat)
    requires k in Within(g, start, n) && x in Succ(g, k)
    ensures x in Within(g, start, n + 1)
  {
  }

  lemma {:induction false} LevelInduction(g: Graph, start: set<Key>, p: (Key, nat) -> bool, n: nat)
    requires forall k, m: nat :: k in start && m > 0 ==> p(k, m)
    requires forall k, x, m: nat :: p(k, m) && x in Succ(g, k) ==> p(x, m + 1)
    requires forall k, m: nat :: p(k, m) ==> p(k, m + 1)
    ensures forall k :: k in Within(g, start, n) ==> p(k, n)
  {
    if n > 0 {
      LevelInduction(g, start, p, n - 1);
    }
  }

  lemma WithinThrough(g: Graph, start: set<Key>, k: Key, m: nat, x: Key, n: nat)
    requires k in Within(g, start, m) && x in Within(g, Succ(g, k), n)
    ensures x in Within(g, start, m + n)
  {
    hide Within;
    var p := (y: Key, j: nat) => y in Within(g, start, m + j);
    forall y, j: nat | y in Succ(g, k) && j > 0 ensures p(y, j) {
      OneMore(g, start, k, y, m);
      WithinMonotone(g, start, m + 1, m + j);
    }
    forall y, z, j: nat | p(y, j) && z in Succ(g, y) ensures p(z, j + 1) {
      OneMore(g, start, y, z, m + j);
    }
    forall y, j: nat | p(y, j) ensures p(y, j + 1) {
      WithinMonotone(g, start, m + j, m + j + 1);
    }
    LevelInduction(g, Succ(g, k), p, n);
  }

  /** The graph `g'` grows `g` by shortcuts only, up to self-loops. */
  ghost predicate ShortcutsOf(g: Graph, g': Graph) {
    && (forall k :: Succ(g, k) <= Succ(g', k) + {k})
    && (forall k, x :: x in Succ(g', k) ==> Reaches(g, Succ(g, k), x))
  }

  /** Shortcuts keep the reachable set, and can only bring a service closer. */
  lemma ShortcutsKeepReach(g: Graph, g': Graph, start: set<Key>, x: Key)
    requires ShortcutsOf(g, g')
    ensures Reaches(g, start, x) <==> Reaches(g', start, x)
  {
    hide Within;
    if Reaches(g, start, x) {
      var n: nat :| x in Within(g, start, n);
      MoreEdges(g, g', start, n);
    }
    if Reaches(g', start, x) {
      var n: nat :| x in Within(g', start, n);
      var p := k => Reaches(g, start, k);
      forall k | k in start ensures p(k) {
        ReachesClosed(g, start, k, k);
      }
      forall k, y | p(k) && y in Succ(g', k) ensures p(y) {
        ReachesThrough(g, start, k, y);
      }
      ReachInduction(g', start, p, n);
    }
  }

  lemma ShortcutsNeverLengthen(g: Graph, g': Graph, start: set<Key>, x: Key, m: nat, n: nat)
    requires ShortcutsOf(g, g')
    requires AtDistance(g, start, x, m) && AtDistance(g', start, x, n)
    ensures n <= m
  {
    hide Within;
    MoreEdges(g, g', start, m);
    DistanceUnique(g', start, x, n, m);
  }

  /** No edge of `g'` that a search from `start` can follow skips a level of `g`; what lies beyond
      the searching file itself (`root`) is of no interest. */
  ghost predicate NoEdgeSkipsALevel(g: Graph, g': Graph, start: set<Key>, root: Key) {
    forall k, x, n: nat :: k in Within(g, start, n) && x in Succ(g', k) && x != root ==> x in Within(g, start, n + 1)
  }

  /** Every service but the root is equally far away in both graphs. */
  ghost predicate SameDistances(g: Graph, g': Graph, start: set<Key>, root: Key) {
    forall x, n: nat :: x != root ==> (AtDistance(g, start, x, n) <==> AtDistance(g', start, x, n))
  }

  /** Exactly when distances read in the grown graph are the true ones. */
  lemma DistancesSurviveIff(g: Graph, g': Graph, start: set<Key>, root: Key)
    requires forall k :: Succ(g, k) <= Succ(g', k) + {k}
    requires Succ(g', root) <= start
    ensures SameDistances(g, g', start, root) <==> NoEdgeSkipsALevel(g, g', start, root)
  {
    hide Within;
    if NoEdgeSkipsALevel(g, g', start, root) {
      forall x, n: nat | x != root ensures AtDistance(g, start, x, n) <==> AtDistance(g', start, x, n) {
        if n > 0 {
          SameLevels(g, g', start, root, x, n - 1);
          SameLevels(g, g', start, root, x, n);
        }
      }
    }
    if SameDistances(g, g', start, root) {
      forall k, x, n: nat | k in Within(g, start, n) && x in Succ(g', k) && x != root
        ensures x in Within(g, start, n + 1)
      {
        NoSkip(g, g', start, root, k, x, n);
      }
    }
  }

  lemma OneMoreCall(g: Graph, g': Graph, start: set<Key>, k: Key, x: Key, n: nat)
    requires forall j :: Succ(g, j) <= Succ(g', j) + {j}
    requires k in Within(g, start, n) && x in Succ(g', k)
    ensures x in Within(g', start, n + 1)
  {
    MoreEdges(g, g', start, n);
  }

  lemma NoSkip(g: Graph, g': Graph, start: set<Key>, root: Key, k: Key, x: Key, n: nat)
    requires forall j :: Succ(g, j) <= Succ(g', j) + {j}
    requires SameDistances(g, g', start, root)
    requires k in Within(g, start, n) && x in Succ(g', k) && x != root
    ensures x in Within(g, start, n + 1)
  {
    hide Within;
    OneMoreCall(g, g', start, k, x, n);
    var d := ReachesHasDistance(g', start, x, n + 1);
    DistanceTransfers(g, g', start, root, x, d);
    WithinMonotone(g, start, d, n + 1);
  }

  lemma DistanceTransfers(g: Graph, g': Graph, start: set<Key>, root: Key, x: Key, d: nat)
    requires SameDistances(g, g', start, root) && AtDistance(g', start, x, d) && x != root
    ensures AtDistance(g, start, x, d)
  {
  }

  lemma EdgeKeepsLevel(g: Graph, g': Graph, start: set<Key>, root: Key, k: Key, x: Key, n: nat)
    requires NoEdgeSkipsALevel(g, g', start, root)
    requires k in Within(g, start, n) && x in Succ(g', k) && x != root
    ensures x in Within(g, start, n + 1)
  {
  }

  lemma SameLevels(g: Graph, g': Graph, start: set<Key>, root: Key, x: Key, n: nat)
    requires forall k :: Succ(g, k) <= Succ(g', k) + {k}
    requires Succ(g', root) <= start && x != root
    requires NoEdgeSkipsALevel(g, g', start, root)
    ensures x in Within(g, start, n) <==> x in Within(g', start, n)
  {
    MoreEdges(g, g', start, n);
    var p := (k: Key, m: nat) => (k == root && m > 0) || k in Within(g, start, m);
    forall k, y, m: nat | p(k, m) && y in Succ(g', k) ensures p(y, m + 1) {
      if k == root || y == root {
        assert m > 0 || k in Within(g, start, m);
      } else {
        EdgeKeepsLevel(g, g', start, root, k, y, m);
      }
    }
    forall k, m: nat | p(k, m) ensures p(k, m + 1) {
      WithinMonotone(g, start, m, m + 1);
    }
    LevelInduction(g', start, p, n);
  }

  /** A file calls `b`, which calls `c` alone, which calls `d` alone. Once the list of `b` also holds `d`, the file
      reads `d` two calls away although three are needed. */
  lemma ShortcutShortensDepth(g: Graph, g': Graph, b: Key, c: Key, d: Key)
    requires b != c && c != d && b != d
    requires Succ(g, b) == {c} && Succ(g, c) == {d} && d in Succ(g', b)
    ensures AtDistance(g, {b}, d, 3) && AtDistance(g', {b}, d, 2)
  {
    assert Within(g, {b}, 1) == {b} && Within(g', {b}, 1) == {b};
    assert Within(g, {b}, 2) == {b, c};
    assert d in Within(g, {b}, 3);
    assert d in Within(g', {b}, 2);
  }

  /** A finished breadth-first labelling: direct targets at one, each edge raising the depth by at most one,
      every label witnessed by a call chain, and the root itself never entered. */
  ghost predicate Labelling(g: Graph, start: set<Key>, root: Key, d: map<Key, nat>) {
    && root !in d && Succ(g, root) <= start
    && (forall k :: k in start && k != root ==> k in d && d[k] == 1)
    && (forall k, x :: k in d && x in Succ(g, k) && x != root ==> x in d && d[x] <= d[k] + 1)
    && (forall k :: k in d ==> 1 <= d[k] && k in Within(g, start, d[k]))
  }

  /** Such a labelling gives exactly the shortest call distances. */
  lemma LabellingIsDistance(g: Graph, start: set<Key>, root: Key, d: map<Key, nat>, k: Key)
    requires Labelling(g, start, root, d)
    ensures k != root ==> (k in d <==> Reaches(g, start, k))
    ensures k in d ==> AtDistance(g, start, k, d[k])
  {
    if k in d {
      assert Reaches(g, start, k);
      LabelBelow(g, start, root, d, d[k] - 1);
    }
    if k != root && Reaches(g, start, k) {
      var n: nat :| k in Within(g, start, n);
      LabelBelow(g, start, root, d, n);
    }
  }

  lemma {:induction false} LabelBelow(g: Graph, start: set<Key>, root: Key, d: map<Key, nat>, n: nat)
    requires Labelling(g, start, root, d)
    ensures forall k :: k in Within(g, start, n) && k != root ==> k in d && d[k] <= n
  {
    if n > 0 {
      LabelBelow(g, start, root, d, n - 1);
      hide *;
      forall x | x in Within(g, start, n) && x != root ensures x in d && d[x] <= n {
        LabelOneBelow(g, start, root, d, n, x);
      }
    }
  }

  lemma WithinStep(g: Graph, start: set<Key>, n: nat, x: Key)
    requires n > 0 && x in Within(g, start, n) && x !in start && x !in Within(g, start, n - 1)
    ensures exists k :: k in Within(g, start, n - 1) && x in Succ(g, k)
  {
    hide Succ;
  }

  lemma LabelOneBelow(g: Graph, start: set<Key>, root: Key, d: map<Key, nat>, n: nat, x: Key)
    requires Labelling(g, start, root, d) && n > 0 && x in Within(g, start, n) && x != root
    requires forall k :: k in Within(g, start, n - 1) && k != root ==> k in d && d[k] <= n - 1
    ensures x in d && d[x] <= n
  {
    hide Within, Succ;
    if x !in start && x !in Within(g, start, n - 1) {
      WithinStep(g, start, n, x);
      var k :| k in Within(g, start, n - 1) && x in Succ(g, k);
      assert k == root ==> x in start;
    }
  }
}
