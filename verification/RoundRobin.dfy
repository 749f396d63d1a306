/** Round-robin dealing: which entries of a log go to queue `t` of `n`. */
module RoundRobin {
  import opened Arithmetic

  /** The entries of `log` whose index is congruent to `t` modulo `n`, in order. */
  function Share<T>(log: seq<T>, t: nat, n: nat): seq<T>
    requires t < n
  {
    if log == [] then []
    else
      var k := |log| - 1;
      Share(log[..k], t, n) + (if k % n == t then [log[k]] else [])
  }

  lemma ShareStep<T>(log: seq<T>, x: T, t: nat, n: nat)
    requires t < n
    ensures Share(log + [x], t, n) == Share(log, t, n) + (if |log| % n == t then [x] else [])
  {
    assert (log + [x])[..|log|] == log;
  }

  lemma DivModStep(k: nat, n: nat)
    requires n > 0
    ensures (k + 1) % n == (if k % n + 1 == n then 0 else k % n + 1)
    ensures (k + 1) / n == (if k % n + 1 == n then k / n + 1 else k / n)
  {
    DivModIdentity(k, n);
    if k % n + 1 == n {
      Distribute(k / n, -1, n);
      DivModUnique(k + 1, n, k / n + 1, 0);
    } else {
      DivModUnique(k + 1, n, k / n, k % n + 1);
    }
  }

  /** Queue `t` gets one entry per full round, and one more if the unfinished round
      has reached it. */
  lemma {:induction false} ShareSize<T>(log: seq<T>, t: nat, n: nat)
    requires t < n
    ensures |Share(log, t, n)| == |log| / n + (if t < |log| % n then 1 else 0)
  {
    if log == [] {
      DivModUnique(0, n, 0, 0);
    } else {
      ShareSize(log[..|log| - 1], t, n);
      DivModStep(|log| - 1, n);
    }
  }

  /** The j-th entry of the share of queue `t` is entry t + j * n of the log. */
  lemma {:induction false} ShareIsStride<T>(log: seq<T>, t: nat, n: nat, j: nat)
    requires t < n && j < |Share(log, t, n)|
    ensures t + j * n < |log| && Share(log, t, n)[j] == log[t + j * n]
  {
    var k := |log| - 1;
    var before := Share(log[..k], t, n);
    if j < |before| {
      ShareIsStride(log[..k], t, n, j);
    } else {
      ShareSize(log[..k], t, n);
      DivModIdentity(k, n);
    }
  }

  /** Shares never differ in length by more than one, earlier queues being served first. */
  lemma SharesBalanced<T>(log: seq<T>, t: nat, u: nat, n: nat)
    requires t <= u < n
    ensures |Share(log, u, n)| <= |Share(log, t, n)| <= |Share(log, u, n)| + 1
  {
    ShareSize(log, t, n);
    ShareSize(log, u, n);
  }
}
