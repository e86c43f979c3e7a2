/** `GhibliCacheTimer.run`: one cache update at start, then one more each
    time waiting on the stop flag times out. `waits[i]` is what the `i`-th
    `stop_flag.wait(wait_time)` returns (true once the flag is set), and
    `raises` holds the numbers of the `update_data` calls that raise; `run`
    has no handler, so such a call ends the thread. */
module Timer {

  /** The number of `update_data` calls made from call `k` on. */
  function CallsFrom(waits: seq<bool>, raises: set<nat>, k: nat): (n: nat)
    requires k <= |waits|
    ensures 1 <= n <= |waits| - k + 1
    decreases |waits| - k
  {
    if k in raises || k == |waits| || waits[k] then 1
    else 1 + CallsFrom(waits, raises, k + 1)
  }

  /** The calls of a whole run. */
  function Calls(waits: seq<bool>, raises: set<nat>): (n: nat)
  {
    CallsFrom(waits, raises, 0)
  }

  /** Every call but the last returned normally and was followed by a wait
      that timed out; the last one raised, or was followed by a wait that
      saw the flag, or by no more waits. */
  lemma {:induction false} CallsFromSpec(waits: seq<bool>, raises: set<nat>, k: nat)
    requires k <= |waits|
    ensures var n := CallsFrom(waits, raises, k);
      && (forall i :: k <= i < k + n - 1 ==> i !in raises && !waits[i])
      && (k + n - 1 in raises || k + n - 1 == |waits| || waits[k + n - 1])
    decreases |waits| - k
  {
    if !(k in raises || k == |waits| || waits[k]) {
      CallsFromSpec(waits, raises, k + 1);
    }
  }

  /** The characterisation above pins the number of calls down. */
  lemma {:induction false} CallsUnique(waits: seq<bool>, raises: set<nat>, n: nat)
    requires 1 <= n <= |waits| + 1
    requires forall i :: 0 <= i < n - 1 ==> i !in raises && !waits[i]
    requires n - 1 in raises || n - 1 == |waits| || waits[n - 1]
    ensures Calls(waits, raises) == n
  {
    CallsFromSpec(waits, raises, 0);
  }

  /** A flag set before the first wait ends the run after the one call made
      at start (the cadence `test_stop` expects). */
  lemma StopBeforeFirstTimeout(waits: seq<bool>, raises: set<nat>)
    requires |waits| > 0 && waits[0]
    ensures Calls(waits, raises) == 1
  {
  }

  /** Without failures, `k` timeouts followed by the flag give `k + 1` calls:
      one at start and one per timeout, none after the flag. */
  lemma {:induction false} OneCallPerTimeout(waits: seq<bool>, k: nat)
    requires k < |waits| && waits[k]
    requires forall i :: 0 <= i < k ==> !waits[i]
    ensures Calls(waits, {}) == k + 1
  {
    CallsUnique(waits, {}, k + 1);
  }

  /** `run`: returns how many times it called `update_data`. */
  method Run(waits: seq<bool>, raises: set<nat>) returns (calls: nat)
    ensures calls == Calls(waits, raises)
  {
    calls := 1;
    var alive := 0 !in raises;
    var w := 0;
    while alive && w < |waits| && !waits[w]
      invariant w == calls - 1 && w <= |waits|
      invariant alive == (w !in raises)
      invariant Calls(waits, raises) == w + CallsFrom(waits, raises, w)
    {
      w := w + 1;
      calls := calls + 1;
      alive := w !in raises;
    }
  }
}
