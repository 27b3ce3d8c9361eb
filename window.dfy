/** Bounded histories that keep only the newest entries. Three places in the
    system keep one: the adaptive scheduler's workload window (C++
    `push_back` + `erase(begin())`), the dashboard API's `deque(maxlen=...)`
    and the dashboard page's `events.slice(...)`. */
module Window {

  /** The last `min(|s|, n)` elements of `s`, in order. */
  function KeepLast<T>(s: seq<T>, n: nat): (r: seq<T>)
    ensures |r| == if |s| <= n then |s| else n
    ensures r == s[|s| - |r|..]
  {
    if |s| <= n then s else s[|s| - n..]
  }

  /** One bounded append as the C++ vector and the Python deque perform it:
      append at the back, then drop the front element if the bound is exceeded. */
  function PushBounded<T>(s: seq<T>, x: T, n: nat): seq<T>
  {
    var t := s + [x];
    if |t| > n then t[1..] else t
  }

  /** Appending to a window that is already the newest `n` of a history gives
      the newest `n` of the extended history. */
  lemma {:induction false} PushBoundedKeepsLast<T>(all: seq<T>, x: T, n: nat)
    ensures PushBounded(KeepLast(all, n), x, n) == KeepLast(all + [x], n)
  {
    var w := KeepLast(all, n);
    var t := w + [x];
    var all' := all + [x];
    if |t| > n {
      assert |w| == n;
      assert |all| >= n;
      assert t[1..] == all'[|all'| - n..] by {
        forall i | 0 <= i < n ensures t[1..][i] == all'[|all'| - n..][i] {
          if i < n - 1 {
            assert t[1..][i] == w[i + 1] == all[|all| - n + i + 1];
          }
        }
      }
    } else {
      assert |all| <= n - 1 || n == 0;
      if |all| > n {
        assert false;
      }
      assert w == all;
    }
  }

  /** Keeping the newest `n` after each append is the same as keeping the
      newest `n` of everything appended (the JavaScript page trims with a slice
      that may drop more than one element). */
  lemma {:induction false} KeepLastAppend<T>(s: seq<T>, x: T, n: nat)
    ensures KeepLast(KeepLast(s, n) + [x], n) == KeepLast(s + [x], n)
  {
    PushBoundedKeepsLast(s, x, n);
    var w := KeepLast(s, n);
    var t := w + [x];
    assert |t| <= n + 1;
    if |t| > n {
      assert KeepLast(t, n) == t[1..];
    }
  }
}
