/** Reachability in a directed graph given by its successor function, witnessed by paths. */
module Reachability {
  ghost predicate IsPath<T(!new)>(start: set<T>, succ: T -> set<T>, path: seq<T>) {
    && path != []
    && path[0] in start
    && forall i :: 0 <= i < |path| - 1 ==> path[i + 1] in succ(path[i])
  }

  ghost predicate Reachable<T(!new)>(start: set<T>, succ: T -> set<T>, x: T) {
    exists path :: IsPath(start, succ, path) && path[|path| - 1] == x
  }

  lemma StartReachable<T(!new)>(start: set<T>, succ: T -> set<T>, x: T)
    requires x in start
    ensures Reachable(start, succ, x)
  {
    assert IsPath(start, succ, [x]) && [x][|[x]| - 1] == x;
  }

  lemma StepReachable<T(!new)>(start: set<T>, succ: T -> set<T>, x: T, y: T)
    requires Reachable(start, succ, x) && y in succ(x)
    ensures Reachable(start, succ, y)
  {
    var path :| IsPath(start, succ, path) && path[|path| - 1] == x;
    var longer := path + [y];
    assert IsPath(start, succ, longer) && longer[|longer| - 1] == y;
  }

  /** A set that contains the start and is closed under successors contains every reachable node. */
  lemma ClosedContainsReachable<T(!new)>(start: set<T>, succ: T -> set<T>, closed: set<T>, x: T)
    requires start <= closed && forall y :: y in closed ==> succ(y) <= closed
    requires Reachable(start, succ, x)
    ensures x in closed
  {
    var path :| IsPath(start, succ, path) && path[|path| - 1] == x;
    ClosedContainsPath(start, succ, closed, path, |path| - 1);
  }

  lemma {:induction false} ClosedContainsPath<T(!new)>(start: set<T>, succ: T -> set<T>, closed: set<T>, path: seq<T>, n: nat)
    requires start <= closed && forall y :: y in closed ==> succ(y) <= closed
    requires IsPath(start, succ, path) && n < |path|
    ensures path[n] in closed
  {
    if n > 0 {
      ClosedContainsPath(start, succ, closed, path, n - 1);
    }
  }

  /** The measure of every fixpoint loop. */
  lemma SmallerSet<T>(a: set<T>, b: set<T>)
    requires a <= b
    ensures |a| <= |b| && (a != b ==> |a| < |b|)
  {
    assert b == a + (b - a);
  }
}
