/** What `std::priority_queue::top()` returns under a "greater" comparator:
    some element whose key is minimal. Which one among equal keys is left open,
    as the heap leaves it. */
module HeapOrder {
  import opened Tasks

  predicate IsTop(t: Task, pool: multiset<Task>, key: Task -> real)
  {
    t in pool && forall u :: u in pool ==> key(t) <= key(u)
  }

  /** A non-empty pool always has a top element, whatever the key. */
  lemma {:induction false} TopExists(pool: multiset<Task>, key: Task -> real)
    requires |pool| > 0
    ensures exists t :: IsTop(t, pool, key)
    decreases |pool|
  {
    var x :| x in pool;
    var rest := pool - multiset{x};
    assert pool == rest + multiset{x};
    if |rest| == 0 {
      assert forall u :: u in pool ==> u == x;
      assert IsTop(x, pool, key);
    } else {
      TopExists(rest, key);
      var m :| IsTop(m, rest, key);
      if key(x) <= key(m) {
        assert IsTop(x, pool, key);
      } else {
        assert IsTop(m, pool, key);
      }
    }
  }

  /** Keys of a sequence never decrease. */
  predicate SortedBy(s: seq<Task>, key: Task -> real)
  {
    forall i, j :: 0 <= i < j < |s| ==> key(s[i]) <= key(s[j])
  }

  /** What a drain has produced so far: in key order, and no key in it is
      larger than a key still queued. */
  predicate Drained(out: seq<Task>, pool: multiset<Task>, key: Task -> real)
  {
    SortedBy(out, key) && forall i, u :: 0 <= i < |out| && u in pool ==> key(out[i]) <= key(u)
  }

  /** Taking a top element off the pool and appending it keeps the drain in
      order. */
  lemma DrainStep(out: seq<Task>, pool: multiset<Task>, t: Task, key: Task -> real)
    requires Drained(out, pool, key) && IsTop(t, pool, key)
    ensures Drained(out + [t], pool - multiset{t}, key)
  {
    var out' := out + [t];
    forall i, j | 0 <= i < j < |out'| ensures key(out'[i]) <= key(out'[j]) {
      if j < |out| {
        assert out'[i] == out[i] && out'[j] == out[j];
      } else {
        assert out'[i] == out[i];
      }
    }
    forall i, u | 0 <= i < |out'| && u in pool - multiset{t} ensures key(out'[i]) <= key(u) {
      assert u in pool;
      if i < |out| {
        assert out'[i] == out[i];
      }
    }
  }
}
