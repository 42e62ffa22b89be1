/** Reachability in a graph given by its successor lists. */
module Reachability {

  ghost predicate IsPath<T(!new)>(next: T -> seq<T>, path: seq<T>) {
    path != [] && forall i | 0 <= i < |path| - 1 :: path[i + 1] in next(path[i])
  }

  ghost predicate Reachable<T(!new)>(next: T -> seq<T>, root: T, x: T) {
    exists path :: IsPath(next, path) && path[0] == root && path[|path| - 1] == x
  }

  lemma ReachesItself<T(!new)>(next: T -> seq<T>, root: T)
    ensures Reachable(next, root, root)
  {
    assert IsPath(next, [root]);
  }

  lemma ReachesSuccessor<T(!new)>(next: T -> seq<T>, root: T, x: T, y: T)
    requires Reachable(next, root, x) && y in next(x)
    ensures Reachable(next, root, y)
  {
    var path :| IsPath(next, path) && path[0] == root && path[|path| - 1] == x;
    assert IsPath(next, path + [y]);
  }

  // A set with the root that is closed under successors has everything reachable.
  lemma ClosedHasReachable<T(!new)>(next: T -> seq<T>, root: T, closed: set<T>, x: T)
    requires root in closed && forall v, w | v in closed && w in next(v) :: w in closed
    requires Reachable(next, root, x)
    ensures x in closed
  {
    var path :| IsPath(next, path) && path[0] == root && path[|path| - 1] == x;
    PathStaysIn(next, path, closed, |path| - 1);
  }

  lemma {:induction false} PathStaysIn<T(!new)>(next: T -> seq<T>, path: seq<T>, closed: set<T>, n: nat)
    requires IsPath(next, path) && n < |path| && path[0] in closed
    requires forall v, w | v in closed && w in next(v) :: w in closed
    ensures path[n] in closed
  {
    if n > 0 {
      PathStaysIn(next, path, closed, n - 1);
      assert path[n - 1 + 1] in next(path[n - 1]);
    }
  }

  // ----- a walk with a stack -----

  // What the walk has seen is reachable, what is stacked is reachable or to be ignored, and
  // everything one step beyond what was seen is seen or stacked.
  ghost predicate Walk<T(!new)>(next: T -> seq<T>, root: T, ignored: set<T>, seen: set<T>, stack: seq<T>) {
    && (root in seen || root in stack)
    && (forall v | v in seen :: Reachable(next, root, v))
    && (forall v | v in stack && v !in ignored :: Reachable(next, root, v))
    && (forall v, w | v in seen && w in next(v) :: w in seen || w in stack)
  }

  lemma WalkStarts<T(!new)>(next: T -> seq<T>, root: T, ignored: set<T>)
    ensures Walk(next, root, ignored, {}, [root])
  {
    ReachesItself(next, root);
  }

  lemma WalkSkips<T(!new)>(next: T -> seq<T>, root: T, ignored: set<T>, seen: set<T>, stack: seq<T>, v: T)
    requires Walk(next, root, ignored, seen, stack + [v]) && (v in seen || v in ignored)
    requires root !in ignored && forall u, w | u in seen && w in next(u) :: w !in ignored
    ensures Walk(next, root, ignored, seen, stack)
  {
  }

  // Marking the popped vertex and stacking its successors, ignored ones among them or not.
  lemma WalkVisits<T(!new)>(next: T -> seq<T>, root: T, ignored: set<T>, seen: set<T>, stack: seq<T>, v: T,
                            more: seq<T>)
    requires Walk(next, root, ignored, seen, stack + [v]) && v !in ignored
    requires forall w | w in next(v) :: w in more
    requires forall w | w in more && w !in ignored :: w in next(v)
    ensures Walk(next, root, ignored, seen + {v}, stack + more)
  {
    assert v in stack + [v];
    forall w | w in more && w !in ignored ensures Reachable(next, root, w) {
      ReachesSuccessor(next, root, v, w);
    }
  }

  lemma WalkEnds<T(!new)>(next: T -> seq<T>, root: T, ignored: set<T>, seen: set<T>)
    requires Walk(next, root, ignored, seen, [])
    ensures forall v :: v in seen <==> Reachable(next, root, v)
  {
    forall v | Reachable(next, root, v) ensures v in seen {
      ClosedHasReachable(next, root, seen, v);
    }
  }

  // Marking a vertex of a finite universe leaves fewer of its vertices unmarked.
  lemma FewerLeft<T>(universe: set<T>, seen: set<T>, v: T)
    requires v in universe && v !in seen
    ensures |universe - (seen + {v})| < |universe - seen|
  {
    assert universe - seen == (universe - (seen + {v})) + {v};
  }
}
