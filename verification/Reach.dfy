/** Being reachable along a relation's steps: what the repository's graph searches compute. */
module Reach {

  ghost predicate Path<T(!new)>(next: (T, T) -> bool, path: seq<T>) {
    path != [] && forall i, j | 0 <= i && j == i + 1 && j < |path| :: next(path[i], path[j])
  }

  ghost predicate Reaches<T(!new)>(next: (T, T) -> bool, a: T, b: T) {
    exists path: seq<T> :: Path(next, path) && path[0] == a && path[|path| - 1] == b
  }

  lemma ReachesSelf<T(!new)>(next: (T, T) -> bool, a: T)
    ensures Reaches(next, a, a)
  {
    assert Path(next, [a]) && [a][0] == a;
  }

  lemma ReachesOn<T(!new)>(next: (T, T) -> bool, a: T, b: T, c: T)
    requires Reaches(next, a, b) && next(b, c)
    ensures Reaches(next, a, c)
  {
    var path :| Path(next, path) && path[0] == a && path[|path| - 1] == b;
    var more := path + [c];
    assert more[|path| - 1] == b && more[|path|] == c && more[0] == a;
    assert Path(next, more);
  }

  lemma ReachesFirst<T(!new)>(next: (T, T) -> bool, a: T, b: T, c: T)
    requires next(a, b) && Reaches(next, b, c)
    ensures Reaches(next, a, c)
  {
    var path :| Path(next, path) && path[0] == b && path[|path| - 1] == c;
    var more := [a] + path;
    assert forall i | 0 < i < |more| :: more[i] == path[i - 1];
    assert Path(next, more) && more[|more| - 1] == c;
  }

  /** What holds at `a` and along every step holds of all that `a` reaches. */
  lemma ReachesKeeps<T(!new)>(next: (T, T) -> bool, a: T, b: T, holds: T -> bool)
    requires Reaches(next, a, b) && holds(a)
    requires forall x, y | holds(x) && next(x, y) :: holds(y)
    ensures holds(b)
  {
    var path :| Path(next, path) && path[0] == a && path[|path| - 1] == b;
    PathKeeps(next, path, |path| - 1, holds);
  }

  lemma {:induction false} PathKeeps<T(!new)>(next: (T, T) -> bool, path: seq<T>, k: nat, holds: T -> bool)
    requires Path(next, path) && k < |path| && holds(path[0])
    requires forall x, y | holds(x) && next(x, y) :: holds(y)
    ensures holds(path[k])
  {
    if k > 0 {
      PathKeeps(next, path, k - 1, holds);
      assert next(path[k - 1], path[k]);
    }
  }
}
