// Lock-out of an address after repeated authentication failures, with exponential back-off
// (crates/core/src/gatekeeper.rs; called from crates/server/src/connect.rs).

module Gatekeeper {
  import opened Common

  type Ip = nat

  datatype Config = Config(maxFailures: nat, baseLockout: nat, maxBackoffShift: nat)

  datatype FailRecord = FailRecord(count: nat, lockoutUntil: Option<nat>, lastAttempt: nat)

  type Records = map<Ip, FailRecord>

  predicate Locked(m: Records, ip: Ip, now: nat) {
    ip in m && m[ip].lockoutUntil.Some? && now < m[ip].lockoutUntil.value
  }

  /** A passed deadline is cleared when the address is looked at. */
  function Checked(m: Records, ip: Ip, now: nat): Records {
    if ip in m && !Locked(m, ip, now) then m[ip := m[ip].(lockoutUntil := None)] else m
  }

  /** How long the lock of the count-th failure lasts. */
  function Lockout(c: Config, count: nat): nat
    requires count >= c.maxFailures
  {
    c.baseLockout * Pow2(Min(count - c.maxFailures, c.maxBackoffShift))
  }

  function Failed(c: Config, m: Records, ip: Ip, now: nat): Records {
    var seen := if ip in m then m[ip] else FailRecord(0, None, now);
    var r := seen.(count := seen.count + 1, lastAttempt := now);
    m[ip := if r.count >= c.maxFailures then r.(lockoutUntil := Some(now + Lockout(c, r.count))) else r]
  }

  function Since(now: nat, then_: nat): nat { if now >= then_ then now - then_ else 0 }

  function Pruned(m: Records, maxIdle: nat, now: nat): Records {
    map ip | ip in m && (Locked(m, ip, now) || Since(now, m[ip].lastAttempt) < maxIdle) :: m[ip]
  }

  class AuthGatekeeper {
    const config: Config
    var records: Records

    constructor (config: Config)
      ensures this.config == config && records == map[]
    {
      this.config := config;
      records := map[];
    }

    method Check(ip: Ip, now: nat) returns (ok: bool)
      modifies this
      ensures ok <==> (ip in old(records) && old(records)[ip].lockoutUntil.Some? ==> now >= old(records)[ip].lockoutUntil.value)
      ensures records == Checked(old(records), ip, now)
    {
      if ip in records && records[ip].lockoutUntil.Some? {
        if now < records[ip].lockoutUntil.value {
          return false;
        }
      }
      if ip in records {
        if records[ip].lockoutUntil.Some? && now >= records[ip].lockoutUntil.value {
          records := records[ip := records[ip].(lockoutUntil := None)];
        }
      }
      ok := true;
    }

    method RecordFailure(ip: Ip, now: nat)
      modifies this
      ensures records == Failed(config, old(records), ip, now)
    {
      var entry := if ip in records then records[ip] else FailRecord(0, None, now);
      entry := entry.(count := entry.count + 1);
      entry := entry.(lastAttempt := now);
      if entry.count >= config.maxFailures {
        var shift := Min(entry.count - config.maxFailures, config.maxBackoffShift);
        var duration := config.baseLockout * Pow2(shift);
        entry := entry.(lockoutUntil := Some(now + duration));
      }
      records := records[ip := entry];
    }

    method RecordSuccess(ip: Ip)
      modifies this
      ensures records == old(records) - {ip}
    {
      records := records - {ip};
    }

    method PruneStale(maxIdle: nat, now: nat)
      modifies this
      ensures records == Pruned(old(records), maxIdle, now)
    {
      var kept, left := map[], records;
      ghost var done := map[];
      assert kept == Pruned(done, maxIdle, now);
      while left != map[]
        invariant done.Keys !! left.Keys && done + left == old(records)
        invariant kept == Pruned(done, maxIdle, now)
        invariant records == old(records)
        decreases left
      {
        var ip :| ip in left;
        var v := left[ip];
        PruneStep(done, maxIdle, now, ip, v);
        MoveEntry(done, left, ip);
        var keep := false;
        if v.lockoutUntil.Some? && now < v.lockoutUntil.value {
          keep := true;
        } else {
          keep := Since(now, v.lastAttempt) < maxIdle;
        }
        if keep {
          kept := kept[ip := v];
        }
        done, left := done[ip := v], left - {ip};
      }
      assert done == old(records);
      records := kept;
    }
  }

  lemma PruneStep(m: Records, maxIdle: nat, now: nat, ip: Ip, v: FailRecord)
    requires ip !in m
    ensures Pruned(m[ip := v], maxIdle, now) ==
      if (v.lockoutUntil.Some? && now < v.lockoutUntil.value) || Since(now, v.lastAttempt) < maxIdle
      then Pruned(m, maxIdle, now)[ip := v] else Pruned(m, maxIdle, now)
  {
    var n := m[ip := v];
    assert forall x :: x in m ==> (Locked(n, x, now) <==> Locked(m, x, now)) && n[x] == m[x];
  }

  // ---- runs ----

  /** What happens to the gatekeeper, each at its own time. */
  datatype Op = CheckOp(ip: Ip) | FailOp(ip: Ip) | SuccessOp(ip: Ip) | PruneOp(maxIdle: nat)

  datatype Step = Step(at: nat, op: Op)

  function Apply(c: Config, m: Records, s: Step): Records {
    match s.op
    case CheckOp(ip) => Checked(m, ip, s.at)
    case FailOp(ip) => Failed(c, m, ip, s.at)
    case SuccessOp(ip) => m - {ip}
    case PruneOp(maxIdle) => Pruned(m, maxIdle, s.at)
  }

  function After(c: Config, run: seq<Step>): Records {
    if run == [] then map[] else Apply(c, After(c, run[..|run| - 1]), run[|run| - 1])
  }

  /** Times do not run backwards. */
  ghost predicate Timed(run: seq<Step>) { forall i, j :: 0 <= i <= j < |run| ==> run[i].at <= run[j].at }

  /**
   * Attempts from one address do not overlap: each failure is recorded only after a check of that
   * address, later than its previous failure, has passed. The address neither succeeds nor is pruned.
   */
  ghost predicate Attempts(c: Config, run: seq<Step>, ip: Ip) {
    && Timed(run)
    && (forall i :: 0 <= i < |run| ==> run[i].op != SuccessOp(ip) && !run[i].op.PruneOp?)
    && (forall i :: 0 <= i < |run| && run[i].op == FailOp(ip) ==> Preceded(c, run, ip, i))
  }

  ghost predicate Preceded(c: Config, run: seq<Step>, ip: Ip, i: nat)
    requires i < |run|
  {
    exists j :: 0 <= j < i && PassedCheck(c, run, ip, j) && forall k :: j < k < i ==> run[k].op != FailOp(ip)
  }

  ghost predicate PassedCheck(c: Config, run: seq<Step>, ip: Ip, j: nat)
    requires j < |run|
  {
    run[j].op == CheckOp(ip) && !Locked(After(c, run[..j]), ip, run[j].at)
  }

  function Failures(run: seq<Step>, ip: Ip): nat {
    if run == [] then 0
    else Failures(run[..|run| - 1], ip) + if run[|run| - 1].op == FailOp(ip) then 1 else 0
  }

  /** Sum of the lock-outs that follow failures number maxFailures .. n - 1. */
  function TotalLockout(c: Config, n: nat): nat {
    if n <= c.maxFailures then 0 else TotalLockout(c, n - 1) + Lockout(c, n - 1)
  }

  /** When the k-th failure of an address was recorded. */
  function FailTime(run: seq<Step>, ip: Ip, k: nat): nat
    requires 1 <= k <= Failures(run, ip)
  {
    var init, last := run[..|run| - 1], run[|run| - 1];
    if last.op == FailOp(ip) && Failures(run, ip) == k then last.at else FailTime(init, ip, k)
  }

  /**
   * The record counts the failures so far; from the threshold on it holds the deadline of the last
   * failure, until a check past that deadline has cleared it.
   */
  ghost predicate Tracked(c: Config, run: seq<Step>, ip: Ip) {
    var m, n := After(c, run), Failures(run, ip);
    && (ip in m <==> n > 0)
    && (n > 0 ==> m[ip].count == n)
    && (n > 0 && n >= c.maxFailures ==> Deadline(run, m[ip], FailTime(run, ip, n) + Lockout(c, n)))
  }

  predicate Deadline(run: seq<Step>, r: FailRecord, d: nat)
    requires run != []
  {
    r.lockoutUntil == Some(d) || (r.lockoutUntil == None && run[|run| - 1].at >= d)
  }

  /** No success of this address and no pruning. */
  ghost predicate Quiet(run: seq<Step>, ip: Ip) {
    Timed(run) && forall i :: 0 <= i < |run| ==> run[i].op != SuccessOp(ip) && !run[i].op.PruneOp?
  }

  lemma StepTracks(c: Config, run: seq<Step>, ip: Ip)
    requires run != [] && Quiet(run, ip) && Tracked(c, run[..|run| - 1], ip)
    ensures Tracked(c, run, ip)
  {
    var init, last := run[..|run| - 1], run[|run| - 1];
    if init != [] {
      assert init[|init| - 1].at <= last.at;
    }
  }

  lemma {:induction false} RunTracks(c: Config, run: seq<Step>, ip: Ip)
    requires Quiet(run, ip)
    ensures Tracked(c, run, ip)
  {
    if run != [] {
      RunTracks(c, run[..|run| - 1], ip);
      StepTracks(c, run, ip);
    }
  }

  lemma {:induction false} NoFailuresBetween(run: seq<Step>, ip: Ip, p: nat, q: nat)
    requires p <= q <= |run| && forall k :: p <= k < q ==> run[k].op != FailOp(ip)
    ensures Failures(run[..q], ip) == Failures(run[..p], ip)
  {
    if p < q {
      NoFailuresBetween(run, ip, p, q - 1);
      assert run[..q][..q - 1] == run[..q - 1];
    }
  }

  lemma {:induction false} FailTimeOfPrefix(run: seq<Step>, ip: Ip, p: nat, k: nat)
    requires p <= |run| && 1 <= k <= Failures(run[..p], ip)
    ensures k <= Failures(run, ip) && FailTime(run, ip, k) == FailTime(run[..p], ip, k)
    decreases |run|
  {
    if p < |run| {
      assert run[..|run| - 1][..p] == run[..p];
      FailTimeOfPrefix(run[..|run| - 1], ip, p, k);
    } else {
      assert run[..p] == run;
    }
  }

  /** A failure past the threshold is recorded only after the previous failure's lock-out is over. */
  lemma LastGap(c: Config, run: seq<Step>, ip: Ip)
    requires run != [] && Attempts(c, run, ip) && run[|run| - 1].op == FailOp(ip)
    requires Failures(run, ip) > c.maxFailures >= 1
    ensures var n := Failures(run, ip) - 1; FailTime(run, ip, n + 1) >= FailTime(run, ip, n) + Lockout(c, n)
  {
    var i := |run| - 1;
    var n := Failures(run[..i], ip);
    assert Preceded(c, run, ip, i);
    var j :| 0 <= j < i && PassedCheck(c, run, ip, j) && forall k :: j < k < i ==> run[k].op != FailOp(ip);
    NoFailuresBetween(run, ip, j, i);
    FailTimeOfPrefix(run, ip, j, n);
    PassedAfterDeadline(c, run, ip, j);
    assert run[j].at <= run[i].at;
  }

  /** A check that passes comes no earlier than the deadline of the last failure before it. */
  lemma PassedAfterDeadline(c: Config, run: seq<Step>, ip: Ip, j: nat)
    requires Quiet(run, ip) && j < |run| && PassedCheck(c, run, ip, j)
    requires Failures(run[..j], ip) >= c.maxFailures >= 1
    ensures var n := Failures(run[..j], ip); run[j].at >= FailTime(run[..j], ip, n) + Lockout(c, n)
  {
    RunTracks(c, run[..j], ip);
    assert j > 0 ==> run[j - 1].at <= run[j].at;
  }

  lemma AttemptsPrefix(c: Config, run: seq<Step>, ip: Ip)
    requires run != [] && Attempts(c, run, ip)
    ensures Attempts(c, run[..|run| - 1], ip)
  {
    var init := run[..|run| - 1];
    forall i | 0 <= i < |init| && init[i].op == FailOp(ip)
      ensures Preceded(c, init, ip, i)
    {
      assert Preceded(c, run, ip, i);
      var j :| 0 <= j < i && PassedCheck(c, run, ip, j) && forall k :: j < k < i ==> run[k].op != FailOp(ip);
      assert init[..j] == run[..j];
      assert PassedCheck(c, init, ip, j);
    }
  }

  /**
   * The n-th recorded failure comes at least the sum of the lock-outs after failure number maxFailures:
   * base * 2^min(j, shift) for j = 0 .. n - 1 - maxFailures.
   */
  lemma {:induction false} BackoffLowerBound(c: Config, run: seq<Step>, ip: Ip, n: nat)
    requires Attempts(c, run, ip)
    requires 1 <= c.maxFailures <= n <= Failures(run, ip)
    ensures FailTime(run, ip, n) >= FailTime(run, ip, c.maxFailures) + TotalLockout(c, n)
    decreases |run|
  {
    var init, last := run[..|run| - 1], run[|run| - 1];
    AttemptsPrefix(c, run, ip);
    if last.op == FailOp(ip) && Failures(run, ip) == n {
      if n > c.maxFailures {
        LastGap(c, run, ip);
        BackoffLowerBound(c, init, ip, n - 1);
      }
    } else {
      BackoffLowerBound(c, init, ip, n);
    }
  }

  // ---- in numbers ----

  /** The lock-out of the failure numbered max + k is the base lock-out times 2^min(k, shift). */
  lemma LockoutInNumbers(c: Config, k: nat)
    ensures k <= c.maxBackoffShift ==> Lockout(c, c.maxFailures + k) == c.baseLockout * Pow2(k)
    ensures k > c.maxBackoffShift ==> Lockout(c, c.maxFailures + k) == c.baseLockout * Pow2(c.maxBackoffShift)
  {
  }

  /**
   * After any run without success or prune that ends in a failure of the address, its n-th, the record
   * counts n and, from the threshold on, the deadline is now + base * 2^min(n - max, shift).
   */
  lemma FailureDeadline(c: Config, run: seq<Step>, ip: Ip)
    requires run != [] && Quiet(run, ip) && run[|run| - 1].op == FailOp(ip)
    ensures var n, now, m := Failures(run, ip), run[|run| - 1].at, After(c, run);
      && ip in m && m[ip].count == n && m[ip].lastAttempt == now
      && (n >= c.maxFailures && n - c.maxFailures <= c.maxBackoffShift ==>
            m[ip].lockoutUntil == Some(now + c.baseLockout * Pow2(n - c.maxFailures)))
      && (n >= c.maxFailures && n - c.maxFailures > c.maxBackoffShift ==>
            m[ip].lockoutUntil == Some(now + c.baseLockout * Pow2(c.maxBackoffShift)))
  {
    var n := Failures(run, ip);
    RunTracks(c, run[..|run| - 1], ip);
    if n >= c.maxFailures {
      LockoutInNumbers(c, n - c.maxFailures);
    }
  }

  lemma Factored(base: nat, a: nat)
    requires a >= 1
    ensures base * (a - 1) + base * a == base * (2 * a - 1)
  {
  }

  /** The lock-outs of k failures in a row, while they double. */
  lemma {:induction false} TotalWhileDoubling(c: Config, k: nat)
    requires k <= c.maxBackoffShift + 1
    ensures Pow2(k) >= 1 && TotalLockout(c, c.maxFailures + k) == c.baseLockout * (Pow2(k) - 1)
  {
    Pow2Grows(0, k);
    if k > 0 {
      TotalWhileDoubling(c, k - 1);
      LockoutInNumbers(c, k - 1);
      Pow2Grows(0, k - 1);
      Factored(c.baseLockout, Pow2(k - 1));
    }
  }

  /** Beyond that each failure adds the longest lock-out. */
  lemma {:induction false} TotalBeyond(c: Config, j: nat)
    ensures TotalLockout(c, c.maxFailures + c.maxBackoffShift + 1 + j)
      == TotalLockout(c, c.maxFailures + c.maxBackoffShift + 1) + j * (c.baseLockout * Pow2(c.maxBackoffShift))
  {
    if j > 0 {
      TotalBeyond(c, j - 1);
      LockoutInNumbers(c, c.maxBackoffShift + j);
      var x := c.baseLockout * Pow2(c.maxBackoffShift);
      assert j * x == (j - 1) * x + x;
    }
  }

  /**
   * The bound in numbers: k failures after failure number max take at least base * (2^k - 1) while the
   * lock-outs double, and base * 2^shift more for each failure beyond that.
   */
  lemma BackoffInNumbers(c: Config, run: seq<Step>, ip: Ip, k: nat)
    requires Attempts(c, run, ip) && c.maxFailures >= 1 && c.maxFailures + k <= Failures(run, ip)
    ensures k <= c.maxBackoffShift + 1 ==>
      FailTime(run, ip, c.maxFailures + k) >= FailTime(run, ip, c.maxFailures) + c.baseLockout * (Pow2(k) - 1)
    ensures k > c.maxBackoffShift + 1 ==>
      FailTime(run, ip, c.maxFailures + k) >= FailTime(run, ip, c.maxFailures)
        + c.baseLockout * (Pow2(c.maxBackoffShift + 1) - 1)
        + (k - c.maxBackoffShift - 1) * (c.baseLockout * Pow2(c.maxBackoffShift))
  {
    Pow2Grows(0, k);
    Pow2Grows(0, c.maxBackoffShift + 1);
    BackoffLowerBound(c, run, ip, c.maxFailures + k);
    if k <= c.maxBackoffShift + 1 {
      TotalWhileDoubling(c, k);
    } else {
      TotalWhileDoubling(c, c.maxBackoffShift + 1);
      TotalBeyond(c, k - c.maxBackoffShift - 1);
    }
  }

  // ---- pruning ----

  /** Exactly the records that are still locked, or whose last attempt is less than the idle limit ago, stay as they are. */
  lemma PruneKeepsExactly(m: Records, maxIdle: nat, now: nat, ip: Ip)
    requires ip in m
    ensures ip in Pruned(m, maxIdle, now) <==>
      (m[ip].lockoutUntil.Some? && now < m[ip].lockoutUntil.value) || (maxIdle > 0 && now < m[ip].lastAttempt + maxIdle)
    ensures ip in Pruned(m, maxIdle, now) ==> Pruned(m, maxIdle, now)[ip] == m[ip]
  {
  }

  /** What a check at any later time would say, up to the next record of the address. */
  ghost predicate SameVerdicts(a: Records, b: Records, from: nat) {
    forall ip, t :: t >= from ==> (Locked(a, ip, t) <==> Locked(b, ip, t))
  }

  /** Pruning changes no verdict, present or later. */
  lemma PruneKeepsVerdicts(m: Records, maxIdle: nat, now: nat)
    ensures SameVerdicts(m, Pruned(m, maxIdle, now), now)
  {
  }

  lemma CheckKeepsVerdict(m: Records, checked: Ip, now: nat, ip: Ip, t: nat)
    requires t >= now
    ensures Locked(Checked(m, checked, now), ip, t) <==> Locked(m, ip, t)
  {
  }

  /** Nor does it after any further checks of any addresses. */
  lemma {:induction false} PruneKeepsLaterVerdicts(c: Config, a: Records, b: Records, from: nat, checks: seq<Step>, ip: Ip, t: nat)
    requires SameVerdicts(a, b, from)
    requires forall i :: 0 <= i < |checks| ==> checks[i].op.CheckOp? && from <= checks[i].at <= t
    requires Timed(checks) && from <= t
    ensures Locked(Steps(c, a, checks), ip, t) <==> Locked(Steps(c, b, checks), ip, t)
    decreases |checks|
  {
    if checks != [] {
      var s := checks[0];
      var a', b' := Apply(c, a, s), Apply(c, b, s);
      forall x, u | u >= s.at
        ensures Locked(a', x, u) <==> Locked(b', x, u)
      {
        CheckKeepsVerdict(a, s.op.ip, s.at, x, u);
        CheckKeepsVerdict(b, s.op.ip, s.at, x, u);
      }
      PruneKeepsLaterVerdicts(c, a', b', s.at, checks[1..], ip, t);
    }
  }

  function Steps(c: Config, m: Records, run: seq<Step>): Records
    decreases |run|
  {
    if run == [] then m else Steps(c, Apply(c, m, run[0]), run[1..])
  }

  /** The lock-out that the n-th failure in a row brings: none below the threshold. */
  function Penalty(c: Config, n: nat): nat { if n >= c.maxFailures then Lockout(c, n) else 0 }

  /** How many failures are on record. */
  function Count(m: Records, ip: Ip): nat { if ip in m then m[ip].count else 0 }

  /** The prune drops the address's record. */
  predicate Forgets(m: Records, maxIdle: nat, now: nat, ip: Ip) { ip in m && ip !in Pruned(m, maxIdle, now) }

  /**
   * After a failure of an address that is not locked, its n-th on record, it is locked exactly for
   * base * 2^min(n - max, shift) from the threshold on, and not at all before.
   */
  lemma FailureLocksFor(c: Config, m: Records, ip: Ip, at: nat, t: nat)
    requires !Locked(m, ip, at) && at <= t
    ensures var n := (if ip in m then m[ip].count else 0) + 1;
      Locked(Failed(c, m, ip, at), ip, t) <==>
      n >= c.maxFailures &&
      t < at + c.baseLockout * Pow2(if n - c.maxFailures <= c.maxBackoffShift then n - c.maxFailures else c.maxBackoffShift)
    ensures Locked(Failed(c, m, ip, at), ip, t) <==> t < at + Penalty(c, Count(m, ip) + 1)
  {
  }

  /**
   * A failure at `at`, passed by a check at `checked`, after a prune at `now` that forgot the address:
   * with the prune its lock lasts the first failure's penalty, without it that of the next one on record.
   */
  lemma LockAfterPrune(c: Config, m: Records, maxIdle: nat, now: nat, ip: Ip, checked: nat, at: nat, t: nat)
    requires Forgets(m, maxIdle, now, ip) && now <= checked <= at <= t
    ensures Locked(Failed(c, Checked(Pruned(m, maxIdle, now), ip, checked), ip, at), ip, t) <==> t < at + Penalty(c, 1)
    ensures Locked(Failed(c, Checked(m, ip, checked), ip, at), ip, t) <==> t < at + Penalty(c, m[ip].count + 1)
  {
    FailureLocksFor(c, Checked(Pruned(m, maxIdle, now), ip, checked), ip, at, t);
    FailureLocksFor(c, Checked(m, ip, checked), ip, at, t);
  }

  /**
   * Forgetting a record of so many failures shortens the lock-out of the next one: the next failure
   * reaches a threshold of two or more; or, with a threshold below two, the doubling has room to differ.
   */
  predicate Shortens(c: Config, count: nat) {
    c.baseLockout > 0 &&
    if c.maxFailures >= 2 then count + 1 >= c.maxFailures
    else count >= 1 && c.maxBackoffShift > 1 - c.maxFailures
  }

  lemma ShorterIff(c: Config, count: nat)
    ensures Penalty(c, 1) <= Penalty(c, count + 1)
    ensures Penalty(c, 1) < Penalty(c, count + 1) <==> Shortens(c, count)
  {
    if count + 1 >= c.maxFailures {
      var high := Min(count + 1 - c.maxFailures, c.maxBackoffShift);
      Pow2Grows(0, high);
      if c.maxFailures <= 1 {
        var low := Min(1 - c.maxFailures, c.maxBackoffShift);
        if low < high {
          Pow2Strict(low, high);
          Scaled(c.baseLockout, Pow2(low), Pow2(high));
        }
      } else {
        Scaled(c.baseLockout, 0, Pow2(high));
      }
    }
  }

  lemma Scaled(base: nat, a: nat, b: nat)
    requires a < b
    ensures base * a <= base * b && (base > 0 ==> base * a < base * b)
  {
    assert base * b == base * a + base * (b - a);
  }

  /**
   * For every configuration, table, idle limit and time: after the next failure of a forgotten address
   * every verdict is the one it would have had without the prune, if and only if the forgotten count
   * does not shorten the lock-out. Where it does, the prune lets the address in at the moments between
   * the two deadlines, and changes no other verdict.
   */
  lemma PruneRestartsCountIff(c: Config, m: Records, maxIdle: nat, now: nat, ip: Ip, checked: nat, at: nat)
    requires Forgets(m, maxIdle, now, ip) && now <= checked <= at
    ensures var kept, lost := Checked(m, ip, checked), Checked(Pruned(m, maxIdle, now), ip, checked);
      (forall t :: t >= at ==> (Locked(Failed(c, lost, ip, at), ip, t) <==> Locked(Failed(c, kept, ip, at), ip, t)))
      <==> !Shortens(c, m[ip].count)
    ensures var kept, lost := Checked(m, ip, checked), Checked(Pruned(m, maxIdle, now), ip, checked);
      forall t :: t >= at ==>
        ((Locked(Failed(c, kept, ip, at), ip, t) && !Locked(Failed(c, lost, ip, at), ip, t))
         <==> at + Penalty(c, 1) <= t < at + Penalty(c, m[ip].count + 1))
  {
    var kept, lost := Checked(m, ip, checked), Checked(Pruned(m, maxIdle, now), ip, checked);
    forall t | t >= at
      ensures Locked(Failed(c, lost, ip, at), ip, t) <==> t < at + Penalty(c, 1)
      ensures Locked(Failed(c, kept, ip, at), ip, t) <==> t < at + Penalty(c, m[ip].count + 1)
    {
      LockAfterPrune(c, m, maxIdle, now, ip, checked, at, t);
    }
    ShorterIff(c, m[ip].count);
    var t := at + Penalty(c, 1);
    assert t >= at && !Locked(Failed(c, lost, ip, at), ip, t);
    assert Locked(Failed(c, kept, ip, at), ip, t) <==> Shortens(c, m[ip].count);
  }

  /**
   * With the default configuration and an hour's idle limit: four failures, an hour of silence and a
   * prune, and the fifth failure brings no lock-out where it would have brought five minutes.
   */
  lemma PruneRestartsCount(ip: Ip, last: nat)
    ensures var c, m, now := Config(5, 300, 4), map[ip := FailRecord(4, None, last)], last + 3600;
      Forgets(m, 3600, now, ip)
      && (forall t :: now <= t < now + 300 ==> Locked(Failed(c, m, ip, now), ip, t))
      && (forall t :: now <= t ==> !Locked(Failed(c, Pruned(m, 3600, now), ip, now), ip, t))
  {
    assert Pow2(0) == 1;
  }
}
