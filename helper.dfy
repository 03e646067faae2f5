/** The round-robin work distributor of `src/utils/helper.rs`.

    `run_in_threads(n, items, task)` starts `n` workers; worker `t` applies
    `task(t, items[i])` to the indices `i = t, t + n, t + 2n, ...` below
    `items.len()` and sends each result on a channel, which is drained after
    all workers have joined. The model runs the workers one after another,
    so its result order is one of the orders the channel can deliver; the
    promise callers may rely on is the multiset of results. */
module Helper {
  import opened Common

  /** Every index in `idx` is below `len`. */
  predicate Below(idx: seq<nat>, len: nat) {
    forall k :: 0 <= k < |idx| ==> idx[k] < len
  }

  /** The indices worker `t` visits, in its own order: `t, t + n, ...`
      below `len`. */
  function WorkerIndices(n: nat, len: nat, t: nat): seq<nat>
    requires n >= 1
    decreases len - t
  {
    if t >= len then [] else [t] + WorkerIndices(n, len, t + n)
  }

  /** The indices of workers `0 .. t - 1`, worker after worker. */
  function Workers(n: nat, len: nat, t: nat): seq<nat>
    requires n >= 1
  {
    if t == 0 then [] else Workers(n, len, t - 1) + WorkerIndices(n, len, t - 1)
  }

  /** The order in which the sequential model processes the indices. */
  function Schedule(n: nat, len: nat): seq<nat>
    requires n >= 1
  {
    Workers(n, len, n)
  }

  function Range(len: nat): (r: seq<nat>)
    ensures |r| == len && forall k :: 0 <= k < len ==> r[k] == k
  {
    if len == 0 then [] else Range(len - 1) + [len - 1]
  }

  /** The worker that owns index `i`: the remainder of `i` divided by `n`,
      computed by repeated subtraction. */
  function Owner(i: nat, n: nat): (w: nat)
    requires n >= 1
    ensures w < n && w <= i
  {
    if i < n then i else Owner(i - n, n)
  }

  /** The repeated subtraction is the remainder: worker `i mod n` owns `i`. */
  lemma {:induction false} OwnerIsMod(i: nat, n: nat)
    requires n >= 1
    ensures Owner(i, n) == i % n
    decreases i
  {
    if i >= n {
      OwnerIsMod(i - n, n);
      ModShift(i - n, n);
    }
  }

  lemma ModShift(j: nat, n: nat)
    requires n >= 1
    ensures (j + n) % n == j % n
  {
    var q := j / n;
    assert (q + 1) * n == q * n + n;
    ModUnique(j + n, n, q + 1, j % n);
  }

  /** The remainder is the only one below `n`. */
  lemma ModUnique(x: int, n: int, q: int, r: int)
    requires n >= 1 && 0 <= r < n && x == q * n + r
    ensures x % n == r
  {
    var q2, r2 := x / n, x % n;
    assert (q - q2) * n == q * n - q2 * n;
    if q - q2 >= 1 {
      MulAtLeast(q - q2, n);
    } else if q2 - q >= 1 {
      assert (q2 - q) * n == q2 * n - q * n;
      MulAtLeast(q2 - q, n);
    }
  }

  lemma {:induction false} MulAtLeast(a: int, n: int)
    requires a >= 1 && n >= 1
    ensures a * n >= n
    decreases a
  {
    if a > 1 {
      MulAtLeast(a - 1, n);
      assert a * n == (a - 1) * n + n;
    }
  }


  /** The results of `task` on the given indices, each paired with the worker
      id that owns the index. */
  function Apply<T, R>(n: nat, items: seq<T>, task: (nat, T) -> R, idx: seq<nat>): (r: seq<R>)
    requires n >= 1 && Below(idx, |items|)
    ensures |r| == |idx|
  {
    if idx == [] then [] else [task(Owner(idx[0], n), items[idx[0]])] + Apply(n, items, task, idx[1..])
  }

  lemma {:induction false} ApplyConcat<T, R>(n: nat, items: seq<T>, task: (nat, T) -> R, a: seq<nat>, b: seq<nat>)
    requires n >= 1 && Below(a, |items|) && Below(b, |items|)
    ensures Below(a + b, |items|)
    ensures Apply(n, items, task, a + b) == Apply(n, items, task, a) + Apply(n, items, task, b)
  {
    if a != [] {
      var ab := a + b;
      assert ab[0] == a[0];
      assert ab[1..] == a[1..] + b;
      ApplyConcat(n, items, task, a[1..], b);
      var x := task(Owner(a[0], n), items[a[0]]);
      assert Apply(n, items, task, ab) == [x] + Apply(n, items, task, ab[1..]);
      assert Apply(n, items, task, a) == [x] + Apply(n, items, task, a[1..]);
    } else {
      assert a + b == b;
    }
  }

  /** Two indices less than `n` apart have different owners. */
  lemma {:induction false} OwnersDiffer(s: nat, i: nat, n: nat)
    requires n >= 1 && s < i < s + n
    ensures Owner(i, n) != Owner(s, n)
  {
    if s >= n {
      OwnersDiffer(s - n, i - n, n);
    } else if i >= n {
      assert Owner(i, n) == Owner(i - n, n) == i - n;
    }
  }

  lemma OwnerStep(s: nat, n: nat)
    requires n >= 1
    ensures Owner(s + n, n) == Owner(s, n)
  {
  }

  lemma OwnerBelow(t: nat, n: nat)
    requires t < n
    ensures Owner(t, n) == t
  {
  }

  lemma {:induction false} WorkerIndicesBounded(n: nat, len: nat, t: nat)
    requires n >= 1
    ensures Below(WorkerIndices(n, len, t), len)
    decreases len - t
  {
    if t < len {
      WorkerIndicesBounded(n, len, t + n);
    }
  }

  lemma {:induction false} WorkersBounded(n: nat, len: nat, t: nat)
    requires n >= 1
    ensures Below(Workers(n, len, t), len)
  {
    if t > 0 {
      WorkersBounded(n, len, t - 1);
      WorkerIndicesBounded(n, len, t - 1);
      assert Workers(n, len, t) == Workers(n, len, t - 1) + WorkerIndices(n, len, t - 1);
    }
  }

  /** How often `i` occurs in `s`. */
  function Count(s: seq<nat>, i: nat): nat {
    if s == [] then 0 else (if s[0] == i then 1 else 0) + Count(s[1..], i)
  }

  lemma {:induction false} CountConcat(a: seq<nat>, b: seq<nat>, i: nat)
    ensures Count(a + b, i) == Count(a, i) + Count(b, i)
  {
    if a == [] {
      assert a + b == b;
    } else {
      assert (a + b)[1..] == a[1..] + b;
      CountConcat(a[1..], b, i);
    }
  }

  lemma {:induction false} CountIsMultiplicity(s: seq<nat>, i: nat)
    ensures Count(s, i) == multiset(s)[i]
  {
    if s != [] {
      CountIsMultiplicity(s[1..], i);
      assert s == [s[0]] + s[1..];
      assert multiset(s) == multiset{s[0]} + multiset(s[1..]);
    }
  }

  /** The stride starting at `s` visits index `i` at most once, and exactly
      when `i` lies in `s .. len - 1` and has the owner of `s`. */
  lemma {:induction false} WorkerIndicesCount(n: nat, len: nat, s: nat, i: nat)
    requires n >= 1
    ensures Count(WorkerIndices(n, len, s), i) == if s <= i < len && Owner(i, n) == Owner(s, n) then 1 else 0
    decreases len - s
  {
    if s < len {
      WorkerIndicesCount(n, len, s + n, i);
      assert WorkerIndices(n, len, s)[1..] == WorkerIndices(n, len, s + n);
      OwnerStep(s, n);
      if s < i < s + n {
        OwnersDiffer(s, i, n);
      }
    }
  }

  /** Index `i` is visited by exactly one of the workers below `t`, the one
      numbered `i mod n`, when that number is below `t`. */
  lemma {:induction false} WorkersCount(n: nat, len: nat, t: nat, i: nat)
    requires n >= 1 && t <= n
    ensures Count(Workers(n, len, t), i) == if i < len && Owner(i, n) < t then 1 else 0
  {
    if t > 0 {
      WorkersCount(n, len, t - 1, i);
      WorkerIndicesCount(n, len, t - 1, i);
      OwnerBelow(t - 1, n);
      CountConcat(Workers(n, len, t - 1), WorkerIndices(n, len, t - 1), i);
    }
  }

  lemma {:induction false} RangeCount(len: nat, i: nat)
    ensures Count(Range(len), i) == if i < len then 1 else 0
  {
    if len > 0 {
      RangeCount(len - 1, i);
      CountConcat(Range(len - 1), [len - 1], i);
    }
  }

  /** With at least one worker every index below `len` is processed exactly
      once: the schedule is a permutation of `0 .. len - 1`. */
  lemma SchedulePermutes(n: nat, len: nat)
    requires n >= 1
    ensures multiset(Schedule(n, len)) == multiset(Range(len))
  {
    forall i: nat
      ensures multiset(Schedule(n, len))[i] == multiset(Range(len))[i]
    {
      WorkersCount(n, len, n, i);
      RangeCount(len, i);
      CountIsMultiplicity(Schedule(n, len), i);
      CountIsMultiplicity(Range(len), i);
    }
  }

  /** Index `i` belongs to worker `t < n` exactly when `t == i mod n`. */
  lemma OwnerIsModulo(n: nat, len: nat, t: nat, i: nat)
    requires n >= 1 && t < n
    ensures i in WorkerIndices(n, len, t) <==> i < len && Owner(i, n) == t
  {
    WorkerIndicesCount(n, len, t, i);
    CountIsMultiplicity(WorkerIndices(n, len, t), i);
    OwnerBelow(t, n);
  }

  lemma RemoveOne<X>(a: seq<X>, b: seq<X>, j: nat)
    requires a != [] && j < |b| && b[j] == a[0]
    requires multiset(a) == multiset(b)
    ensures multiset(a[1..]) == multiset(b[..j] + b[j + 1..])
  {
    var x := a[0];
    var rest := b[..j] + b[j + 1..];
    assert a == [x] + a[1..];
    assert b == b[..j] + [x] + b[j + 1..];
    assert multiset(a) == multiset(a[1..]) + multiset{x};
    assert multiset(b) == multiset(rest) + multiset{x};
    assert multiset(a[1..]) == multiset(a) - multiset{x};
    assert multiset(rest) == multiset(b) - multiset{x};
  }

  lemma MiddleOut<X>(l: seq<X>, x: X, r: seq<X>)
    ensures multiset(l + [x] + r) == multiset(l + r) + multiset{x}
  {
  }

  /** The results of `b` around its element `j`. */
  lemma ApplySplit<T, R>(n: nat, items: seq<T>, task: (nat, T) -> R, b: seq<nat>, j: nat)
    requires n >= 1 && Below(b, |items|) && j < |b|
    ensures Below(b[..j], |items|) && Below(b[j + 1..], |items|)
    ensures Apply(n, items, task, b)
      == Apply(n, items, task, b[..j]) + [task(Owner(b[j], n), items[b[j]])] + Apply(n, items, task, b[j + 1..])
  {
    var left, right := b[..j], b[j + 1..];
    assert Below(left, |items|) && Below(right, |items|) && Below([b[j]], |items|);
    ApplyConcat(n, items, task, [b[j]], right);
    ApplyConcat(n, items, task, left, [b[j]] + right);
    assert b == left + ([b[j]] + right);
  }

  /** Taking index `j` out of `b` takes its result out of the results. */
  lemma ApplyRemove<T, R>(n: nat, items: seq<T>, task: (nat, T) -> R, b: seq<nat>, j: nat)
    requires n >= 1 && Below(b, |items|) && j < |b|
    ensures Below(b[..j] + b[j + 1..], |items|)
    ensures multiset(Apply(n, items, task, b))
      == multiset(Apply(n, items, task, b[..j] + b[j + 1..])) + multiset{task(Owner(b[j], n), items[b[j]])}
  {
    ApplySplit(n, items, task, b, j);
    ApplyConcat(n, items, task, b[..j], b[j + 1..]);
    MiddleOut(Apply(n, items, task, b[..j]), task(Owner(b[j], n), items[b[j]]), Apply(n, items, task, b[j + 1..]));
  }

  /** Applying the same function to two permutations of one index sequence
      gives two permutations of one result sequence. */
  lemma {:induction false} ApplyPermutation<T, R>(n: nat, items: seq<T>, task: (nat, T) -> R, a: seq<nat>, b: seq<nat>)
    requires n >= 1 && Below(a, |items|) && Below(b, |items|)
    requires multiset(a) == multiset(b)
    ensures multiset(Apply(n, items, task, a)) == multiset(Apply(n, items, task, b))
    decreases |a|
  {
    if a != [] {
      assert a[0] in multiset(b);
      var j :| 0 <= j < |b| && b[j] == a[0];
      RemoveOne(a, b, j);
      ApplyRemove(n, items, task, b, j);
      ApplyRemove(n, items, task, a, 0);
      assert a[..0] + a[1..] == a[1..];
      ApplyPermutation(n, items, task, a[1..], b[..j] + b[j + 1..]);
    } else {
      assert b == [] by {
        assert |multiset(b)| == 0;
      }
    }
  }

  /** The schedule's results are as many as the items and a permutation of
      the results in index order. */
  lemma ScheduleResults<T, R>(n: nat, items: seq<T>, task: (nat, T) -> R)
    requires n >= 1
    ensures Below(Schedule(n, |items|), |items|)
    ensures |Apply(n, items, task, Schedule(n, |items|))| == |items|
    ensures multiset(Apply(n, items, task, Schedule(n, |items|))) == multiset(Apply(n, items, task, Range(|items|)))
  {
    var len := |items|;
    WorkersBounded(n, len, n);
    SchedulePermutes(n, len);
    assert |Schedule(n, len)| == |Range(len)| by {
      assert |multiset(Schedule(n, len))| == |multiset(Range(len))|;
    }
    ApplyPermutation(n, items, task, Schedule(n, len), Range(len));
  }

  /** One step of worker `t`: the result for index `i`, then the rest of its
      stride. */
  lemma ApplyStride<T, R>(n: nat, items: seq<T>, task: (nat, T) -> R, i: nat, t: nat)
    requires n >= 1 && i < |items| && Owner(i, n) == t
    requires Below(WorkerIndices(n, |items|, i), |items|)
    ensures Owner(i + n, n) == t
    ensures Below(WorkerIndices(n, |items|, i + n), |items|)
    ensures Apply(n, items, task, WorkerIndices(n, |items|, i))
      == [task(t, items[i])] + Apply(n, items, task, WorkerIndices(n, |items|, i + n))
  {
    OwnerStep(i, n);
    var w := WorkerIndices(n, |items|, i);
    assert w == [i] + WorkerIndices(n, |items|, i + n);
    assert w[1..] == WorkerIndices(n, |items|, i + n);
  }

  /** Worker `t`'s results follow those of the workers before it. */
  lemma ApplyWorker<T, R>(n: nat, items: seq<T>, task: (nat, T) -> R, t: nat)
    requires n >= 1
    ensures Below(Workers(n, |items|, t), |items|) && Below(WorkerIndices(n, |items|, t), |items|)
    ensures Below(Workers(n, |items|, t + 1), |items|)
    ensures Apply(n, items, task, Workers(n, |items|, t + 1))
      == Apply(n, items, task, Workers(n, |items|, t)) + Apply(n, items, task, WorkerIndices(n, |items|, t))
  {
    var len := |items|;
    WorkersBounded(n, len, t);
    WorkersBounded(n, len, t + 1);
    WorkerIndicesBounded(n, len, t);
    ApplyConcat(n, items, task, Workers(n, len, t), WorkerIndices(n, len, t));
  }

  /** The body of worker `t`: `task(t, items[i])` for `i = t, t + n, ...`
      below `items.len()`, in increasing order. */
  method RunWorker<T, R>(n: nat, items: seq<T>, task: (nat, T) -> R, t: nat) returns (sent: seq<R>)
    requires 1 <= n && t < n
    ensures Below(WorkerIndices(n, |items|, t), |items|)
    ensures sent == Apply(n, items, task, WorkerIndices(n, |items|, t))
  {
    WorkerIndicesBounded(n, |items|, t);
    OwnerBelow(t, n);
    ghost var all := Apply(n, items, task, WorkerIndices(n, |items|, t));
    sent := [];
    var i := t;
    while i < |items|
      invariant Owner(i, n) == t
      invariant Below(WorkerIndices(n, |items|, i), |items|)
      invariant sent + Apply(n, items, task, WorkerIndices(n, |items|, i)) == all
      decreases |items| - i
    {
      ApplyStride(n, items, task, i, t);
      sent := sent + [task(t, items[i])];
      i := i + n;
    }
  }

  /** `run_in_threads`: with `n >= 1` workers every item is handed to
      `task(i mod n, items[i])` exactly once, so the results are as many as
      the items and form the multiset of those applications; with no
      workers nothing runs. */
  method RunInThreads<T, R>(n: nat, items: seq<T>, task: (nat, T) -> R) returns (results: seq<R>)
    ensures n == 0 ==> results == []
    ensures n >= 1 ==> |results| == |items|
    ensures n >= 1 ==> multiset(results) == multiset(Apply(n, items, task, Range(|items|)))
  {
    results := [];
    if n == 0 {
      return;
    }
    var t := 0;
    while t < n
      invariant 0 <= t <= n
      invariant Below(Workers(n, |items|, t), |items|)
      invariant results == Apply(n, items, task, Workers(n, |items|, t))
    {
      var sent := RunWorker(n, items, task, t);
      ApplyWorker(n, items, task, t);
      results := results + sent;
      t := t + 1;
    }
    ScheduleResults(n, items, task);
  }

  /** `run_in_threads_default`: as many workers as the host reports available
      parallelism; a host that cannot report it makes the call panic. */
  method RunInThreadsDefault<T, R>(parallelism: Option<nat>, items: seq<T>, task: (nat, T) -> R)
    returns (results: Run<seq<R>>)
    requires parallelism.Some? ==> parallelism.value >= 1
    ensures parallelism.None? <==> results == Panic
    ensures results.Ok? ==> |results.value| == |items|
    ensures results.Ok? ==> multiset(results.value) == multiset(Apply(parallelism.value, items, task, Range(|items|)))
  {
    if parallelism.None? {
      return Panic;
    }
    var r := RunInThreads(parallelism.value, items, task);
    results := Ok(r);
  }
}
