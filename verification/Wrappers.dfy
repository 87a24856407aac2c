/** The Option and Result shapes the other modules share, and facts about slices and concatenations. */
module Wrappers {
  datatype Option<+T> = None | Some(value: T) {
    function GetOr(default: T): T {
      match this
      case Some(v) => v
      case None => default
    }
  }

  datatype Result<+T, +E> = Ok(value: T) | Err(error: E)

  lemma SliceOfFront<T>(a: seq<T>, b: seq<T>, i: nat, j: nat)
    requires i <= j <= |a|
    ensures (a + b)[i..j] == a[i..j]
  {
  }

  lemma SliceOfBack<T>(a: seq<T>, b: seq<T>)
    ensures (a + b)[|a|..|a| + |b|] == b
  {
  }

  lemma SliceAfter<T>(all: seq<T>, a: seq<T>, b: seq<T>)
    requires a + b <= all
    ensures all[|a|..|a| + |b|] == b
  {
    assert all == a + b + all[|a + b|..];
  }

  /** How many elements the first `k` parts have together. */
  function Before<T>(parts: seq<seq<T>>, k: nat): nat
    requires k <= |parts|
  {
    if k == 0 then 0 else Before(parts, k - 1) + |parts[k - 1]|
  }

  /** `all` is as long as all parts together, and part `k` is the piece of it right behind the parts before. */
  ghost predicate Concatenates<T(!new)>(all: seq<T>, parts: seq<seq<T>>) {
    |all| == Before(parts, |parts|)
    && forall k, i :: 0 <= k < |parts| && 0 <= i < |parts[k]| ==> HasAt(all, Before(parts, k) + i, parts[k][i])
  }

  predicate HasAt<T(==)>(all: seq<T>, at: nat, x: T) {
    at < |all| && all[at] == x
  }

  lemma {:induction false} BeforeOfFront<T>(front: seq<seq<T>>, part: seq<T>, k: nat)
    requires k <= |front|
    ensures Before(front + [part], k) == Before(front, k)
  {
    if k > 0 {
      BeforeOfFront(front, part, k - 1);
    }
  }

  lemma ConcatenatesMore<T(!new)>(all: seq<T>, front: seq<seq<T>>, part: seq<T>)
    requires Concatenates(all, front)
    ensures Concatenates(all + part, front + [part])
  {
    var parts, n := front + [part], |front|;
    BeforeOfFront(front, part, n);
    forall k, i | 0 <= k < |parts| && 0 <= i < |parts[k]| ensures HasAt(all + part, Before(parts, k) + i, parts[k][i]) {
      BeforeOfFront(front, part, if k < n then k else n);
      assert k < n ==> HasAt(all, Before(front, k) + i, front[k][i]);
    }
  }
}
