// Retrying one edge, and failing over from the primary edge to a backup
// (crates/core/src/edge.rs, crates/server/src/gateway.rs).

module Edge {
  import opened Common

  /**
   * What one send meets. Only a connection error is known to happen before the request is out; a late
   * error or a timeout may leave the request delivered.
   */
  datatype Sent = Response(status: nat) | ConnectError | LateError | Timeout

  datatype Result = Answer(status: nat) | Failed

  datatype Request = Request(verb: string, headers: set<string>)

  predicate IsIdempotent(r: Request) { r.verb == "GET" || r.verb == "HEAD" || r.verb == "OPTIONS" }

  predicate HasIdempotencyKey(r: Request) {
    "idempotency-key" in r.headers || "x-idempotency-key" in r.headers
    || "idempotency_key" in r.headers || "x-idempotency_key" in r.headers
  }

  predicate Retryable(r: Request) { IsIdempotent(r) || HasIdempotencyKey(r) }

  /** One edge as one call meets it: whether its address parses, what each send meets, and the jitter. */
  datatype Script = Script(parses: bool, meets: nat -> Sent, jitter: nat -> nat)

  predicate Transient(status: nat) { status == 502 || status == 503 || status == 504 }

  /** The outcome is one that may be tried again. */
  predicate RetriedOutcome(s: Sent, retryable: bool) {
    match s
    case Response(status) => retryable && Transient(status)
    case ConnectError => true
    case LateError => retryable
    case Timeout => false
  }

  function ResultOf(s: Sent): Result { if s.Response? then Answer(s.status) else Failed }

  predicate PastConnect(s: Sent) { !s.ConnectError? }

  function CountPast(sends: seq<Sent>): nat {
    if sends == [] then 0
    else CountPast(sends[..|sends| - 1]) + if PastConnect(sends[|sends| - 1]) then 1 else 0
  }

  function Total(waits: seq<nat>): nat {
    if waits == [] then 0 else Total(waits[..|waits| - 1]) + waits[|waits| - 1]
  }

  function Max(a: nat, b: nat): nat { if a < b then b else a }

  /** The sends of one call and the pauses between them. */
  datatype Trace = Trace(sends: seq<Sent>, waits: seq<nat>)

  /**
   * The whole behaviour of one call: the sends are the script's, up to the first that is not tried again
   * or to the limit; the result is the last one's; the pauses double.
   */
  ghost predicate Executed(sc: Script, retryable: bool, maxAttempts: nat, t: Trace, r: Result) {
    var k := |t.sends|;
    if !sc.parses then k == 0 && |t.waits| == 0 && r == Failed
    else
      1 <= k <= Max(1, maxAttempts)
      && Scripted(sc, retryable, t.sends)
      && (!RetriedOutcome(t.sends[k - 1], retryable) || k >= maxAttempts)
      && r == ResultOf(t.sends[k - 1])
      && |t.waits| == k - 1 && PausesOf(sc, t.waits)
  }

  ghost predicate Scripted(sc: Script, retryable: bool, sends: seq<Sent>) {
    forall i :: 0 <= i < |sends| ==>
      sends[i] == sc.meets(i + 1) && (i < |sends| - 1 ==> RetriedOutcome(sends[i], retryable))
  }

  ghost predicate PausesOf(sc: Script, waits: seq<nat>) {
    forall i :: 0 <= i < |waits| ==> waits[i] == Backoff(i + 1, sc.jitter(i + 1))
  }

  function Backoff(attempt: nat, random: nat): nat { 50 * Pow2(attempt) + random % 50 }

  method ExecuteWithAttempts(sc: Script, req: Request, maxAttempts: nat) returns (t: Trace, r: Result)
    ensures Executed(sc, Retryable(req), maxAttempts, t, r)
  {
    var retryable := IsIdempotent(req) || HasIdempotencyKey(req);
    var attempt: nat := 0;
    var sends: seq<Sent>, waits: seq<nat> := [], [];
    while true
      invariant |sends| == |waits| == attempt && (attempt > 0 ==> attempt < maxAttempts && sc.parses)
      invariant forall i :: 0 <= i < attempt ==> sends[i] == sc.meets(i + 1) && RetriedOutcome(sends[i], retryable)
      invariant PausesOf(sc, waits)
      decreases Max(1, maxAttempts) - attempt
    {
      attempt := attempt + 1;
      if !sc.parses {
        return Trace(sends, waits), Failed;
      }
      var met := sc.meets(attempt);
      sends := sends + [met];
      match met {
        case Response(status) =>
          if !(retryable && (status == 502 || status == 503 || status == 504) && attempt < maxAttempts) {
            return Trace(sends, waits), Answer(status);
          }
        case ConnectError =>
          if !(attempt < maxAttempts) {
            return Trace(sends, waits), Failed;
          }
        case LateError =>
          if !(retryable && attempt < maxAttempts) {
            return Trace(sends, waits), Failed;
          }
        case Timeout =>
          return Trace(sends, waits), Failed;
      }
      waits := waits + [50 * Pow2(attempt) + sc.jitter(attempt) % 50];
    }
  }

  /** The behaviour is determined: two descriptions of one call agree. */
  lemma ExecutedUnique(sc: Script, retryable: bool, maxAttempts: nat, t: Trace, r: Result, u: Trace, q: Result)
    requires Executed(sc, retryable, maxAttempts, t, r) && Executed(sc, retryable, maxAttempts, u, q)
    ensures t == u && r == q
  {
    if sc.parses {
      NotLonger(sc, retryable, maxAttempts, t, r, u, q);
      NotLonger(sc, retryable, maxAttempts, u, q, t, r);
      assert t.sends == u.sends && t.waits == u.waits;
    }
  }

  predicate Again(sc: Script, retryable: bool, j: nat) { RetriedOutcome(sc.meets(j), retryable) }

  lemma NotLonger(sc: Script, retryable: bool, maxAttempts: nat, t: Trace, r: Result, u: Trace, q: Result)
    requires Executed(sc, retryable, maxAttempts, t, r) && Executed(sc, retryable, maxAttempts, u, q) && sc.parses
    ensures |t.sends| <= |u.sends|
  {
    var k := |u.sends|;
    forall j: nat | 1 <= j < |t.sends|
      ensures Again(sc, retryable, j)
    {
      assert t.sends[j - 1] == sc.meets(j);
    }
    assert u.sends[k - 1] == sc.meets(k);
    assert !Again(sc, retryable, k) || k >= maxAttempts;
  }

  /** Connection errors only: a non-idempotent request without a key gets past connecting at most once. */
  lemma {:induction false} OnlyConnectErrors(sends: seq<Sent>)
    requires forall i :: 0 <= i < |sends| ==> sends[i].ConnectError?
    ensures CountPast(sends) == 0
  {
    if sends != [] {
      OnlyConnectErrors(sends[..|sends| - 1]);
    }
  }

  /**
   * Without permission to retry, the call passes connection setup at most once, and exactly once unless
   * every send failed to connect.
   */
  lemma PastConnectOnce(sc: Script, maxAttempts: nat, t: Trace, r: Result)
    requires Executed(sc, false, maxAttempts, t, r)
    ensures CountPast(t.sends) == if t.sends != [] && PastConnect(t.sends[|t.sends| - 1]) then 1 else 0
    ensures CountPast(t.sends) == 0 ==> r == Failed
  {
    if t.sends != [] {
      OnlyConnectErrors(t.sends[..|t.sends| - 1]);
    }
  }

  /** The total pause is at most the sum of 50 * 2^a + 49 over the retries a, in closed form. */
  lemma {:induction false} TotalBackoff(sc: Script, waits: seq<nat>)
    requires PausesOf(sc, waits)
    ensures Total(waits) <= 100 * (Pow2(|waits|) - 1) + 49 * |waits|
    ensures Total(waits) >= 100 * (Pow2(|waits|) - 1)
  {
    if waits != [] {
      TotalBackoff(sc, waits[..|waits| - 1]);
      assert waits[|waits| - 1] == Backoff(|waits|, sc.jitter(|waits|));
    }
  }

  // ---- by request ----

  /** GET, HEAD and OPTIONS requests and those with an idempotency key may be sent again. */
  ghost predicate SafeToRepeat(req: Request) {
    req.verb in {"GET", "HEAD", "OPTIONS"}
    || "idempotency-key" in req.headers || "x-idempotency-key" in req.headers
    || "idempotency_key" in req.headers || "x-idempotency_key" in req.headers
  }

  /**
   * For every request and script, the i-th send is followed by another exactly if the limit allows and
   * it met a connection error, or the request is safe to repeat and it met a late error, 502, 503 or 504.
   */
  lemma SentAgainIff(sc: Script, req: Request, maxAttempts: nat, t: Trace, r: Result, i: nat)
    requires Executed(sc, Retryable(req), maxAttempts, t, r) && i < |t.sends|
    ensures i + 1 < |t.sends| <==>
      && i + 1 < maxAttempts
      && (t.sends[i] == ConnectError
          || (SafeToRepeat(req) && t.sends[i] in {LateError, Response(502), Response(503), Response(504)}))
    ensures t.sends[i] == sc.meets(i + 1)
  {
    assert Retryable(req) <==> SafeToRepeat(req);
  }

  /** A request that is not safe to repeat passes connection setup, if at all, with the last send only. */
  lemma UnsafeSentOnce(sc: Script, req: Request, maxAttempts: nat, t: Trace, r: Result)
    requires Executed(sc, Retryable(req), maxAttempts, t, r)
    requires req.verb !in {"GET", "HEAD", "OPTIONS"}
    requires req.headers !! {"idempotency-key", "x-idempotency-key", "idempotency_key", "x-idempotency_key"}
    ensures forall i :: 0 <= i < |t.sends| - 1 ==> t.sends[i] == ConnectError
    ensures CountPast(t.sends) <= 1
  {
    assert !SafeToRepeat(req);
    forall i | 0 <= i < |t.sends| - 1
      ensures t.sends[i] == ConnectError
    {
      SentAgainIff(sc, req, maxAttempts, t, r, i);
    }
    assert !Retryable(req);
    PastConnectOnce(sc, maxAttempts, t, r);
  }

  // ---- failover ----

  const PRIMARY_ATTEMPTS: nat := 3
  const BACKUP_ATTEMPTS: nat := 5

  predicate FailsOver(r: Result) { r.Failed? || 500 <= r.status < 600 }

  /** The traces of both edges; the backup's is empty if it was not contacted. */
  datatype Forwarded = Forwarded(primary: Trace, backup: Trace, failedOver: bool, result: Result)

  ghost predicate ForwardedAs(p: Script, b: Option<Script>, retryable: bool, f: Forwarded) {
    exists first: Result ::
      Executed(p, retryable, PRIMARY_ATTEMPTS, f.primary, first)
      && (f.failedOver <==> FailsOver(first) && b.Some?)
      && (if f.failedOver then Executed(b.value, retryable, BACKUP_ATTEMPTS, f.backup, f.result)
          else f.backup == Trace([], []) && f.result == first)
  }

  method Forward(p: Script, b: Option<Script>, req: Request) returns (f: Forwarded)
    ensures ForwardedAs(p, b, Retryable(req), f)
  {
    var first, resp := ExecuteWithAttempts(p, req, PRIMARY_ATTEMPTS);
    var second, failedOver := Trace([], []), false;
    ghost var primaryResult := resp;
    if FailsOver(resp) {
      if b.Some? {
        second, resp := ExecuteWithAttempts(b.value, req, BACKUP_ATTEMPTS);
        failedOver := true;
      }
    }
    f := Forwarded(first, second, failedOver, resp);
    assert Executed(p, Retryable(req), PRIMARY_ATTEMPTS, f.primary, primaryResult);
  }

  /** At most eight sends, and a bounded total pause; the backup is contacted only after a failed primary. */
  lemma ForwardBounds(p: Script, b: Option<Script>, retryable: bool, f: Forwarded)
    requires ForwardedAs(p, b, retryable, f)
    ensures |f.primary.sends| <= 3 && |f.backup.sends| <= 5
    ensures Total(f.primary.waits) <= 398 && Total(f.backup.waits) <= 1696
    ensures f.backup.sends != [] ==> f.failedOver && b.Some?
    ensures f.failedOver && p.parses ==> FailsOver(ResultOf(f.primary.sends[|f.primary.sends| - 1]))
    ensures !f.failedOver && p.parses ==> f.result == ResultOf(f.primary.sends[|f.primary.sends| - 1])
    ensures !f.failedOver && b.Some? ==> f.result.Answer? && !(500 <= f.result.status < 600)
  {
    var first: Result :| Executed(p, retryable, PRIMARY_ATTEMPTS, f.primary, first)
      && (f.failedOver <==> FailsOver(first) && b.Some?)
      && (if f.failedOver then Executed(b.value, retryable, BACKUP_ATTEMPTS, f.backup, f.result)
          else f.backup == Trace([], []) && f.result == first);
    PauseBound(p, retryable, PRIMARY_ATTEMPTS, f.primary, first);
    if f.failedOver {
      PauseBound(b.value, retryable, BACKUP_ATTEMPTS, f.backup, f.result);
    }
    assert Pow2(2) == 4 && Pow2(4) == 16;
  }

  /** One call pauses no longer than with all its attempts used. */
  lemma PauseBound(sc: Script, retryable: bool, maxAttempts: nat, t: Trace, r: Result)
    requires Executed(sc, retryable, maxAttempts, t, r) && maxAttempts >= 1
    ensures |t.sends| <= maxAttempts
    ensures Total(t.waits) <= 100 * (Pow2(maxAttempts - 1) - 1) + 49 * (maxAttempts - 1)
  {
    TotalBackoff(sc, t.waits);
    Pow2Grows(|t.waits|, maxAttempts - 1);
  }

  /** The last send met an error or a status from 500 to 599. */
  ghost predicate FailedLast(s: Sent) { s.Response? ==> 500 <= s.status < 600 }

  /**
   * For every request: the primary is tried up to 3 times and the backup, after a final error or a status
   * from 500 to 599, up to 5 times, each send being followed by another exactly as within one call.
   */
  lemma ForwardTries(p: Script, b: Option<Script>, req: Request, f: Forwarded, i: nat)
    requires ForwardedAs(p, b, Retryable(req), f)
    ensures i < |f.primary.sends| ==> (
      i + 1 < |f.primary.sends| <==>
      i + 1 < 3 && (f.primary.sends[i] == ConnectError
                    || (SafeToRepeat(req) && f.primary.sends[i] in {LateError, Response(502), Response(503), Response(504)})))
    ensures i < |f.backup.sends| ==> (
      i + 1 < |f.backup.sends| <==>
      i + 1 < 5 && (f.backup.sends[i] == ConnectError
                    || (SafeToRepeat(req) && f.backup.sends[i] in {LateError, Response(502), Response(503), Response(504)})))
    ensures p.parses ==> f.primary.sends != []
    ensures p.parses ==> (f.failedOver <==> b.Some? && FailedLast(f.primary.sends[|f.primary.sends| - 1]))
    ensures !p.parses ==> f.primary.sends == [] && (f.failedOver <==> b.Some?)
    ensures f.failedOver && b.value.parses ==> f.backup.sends != []
  {
    var first: Result :| Executed(p, Retryable(req), PRIMARY_ATTEMPTS, f.primary, first)
      && (f.failedOver <==> FailsOver(first) && b.Some?)
      && (if f.failedOver then Executed(b.value, Retryable(req), BACKUP_ATTEMPTS, f.backup, f.result)
          else f.backup == Trace([], []) && f.result == first);
    if i < |f.primary.sends| {
      SentAgainIff(p, req, PRIMARY_ATTEMPTS, f.primary, first, i);
    }
    if i < |f.backup.sends| {
      SentAgainIff(b.value, req, BACKUP_ATTEMPTS, f.backup, f.result, i);
    }
  }

  /** A request that is not safe to repeat passes connection setup at most once at each edge, so at most twice. */
  lemma UnsafeForwardedTwice(p: Script, b: Option<Script>, req: Request, f: Forwarded)
    requires ForwardedAs(p, b, Retryable(req), f)
    requires req.verb !in {"GET", "HEAD", "OPTIONS"}
    requires req.headers !! {"idempotency-key", "x-idempotency-key", "idempotency_key", "x-idempotency_key"}
    ensures forall i :: 0 <= i < |f.primary.sends| - 1 ==> f.primary.sends[i] == ConnectError
    ensures forall i :: 0 <= i < |f.backup.sends| - 1 ==> f.backup.sends[i] == ConnectError
    ensures CountPast(f.primary.sends) + CountPast(f.backup.sends) <= 2
    ensures CountPast(f.primary.sends) + CountPast(f.backup.sends) == 2 <==>
      TakesAndFails(p, 3) && b.Some? && Takes(b.value, 5)
  {
    var first: Result :| Executed(p, Retryable(req), PRIMARY_ATTEMPTS, f.primary, first)
      && (f.failedOver <==> FailsOver(first) && b.Some?)
      && (if f.failedOver then Executed(b.value, Retryable(req), BACKUP_ATTEMPTS, f.backup, f.result)
          else f.backup == Trace([], []) && f.result == first);
    UnsafeSentOnce(p, req, PRIMARY_ATTEMPTS, f.primary, first);
    if f.failedOver {
      UnsafeSentOnce(b.value, req, BACKUP_ATTEMPTS, f.backup, f.result);
    }
    assert !Retryable(req);
    DeliveredAtMostTwice(p, b, f);
  }

  /** What the first send that gets past connecting meets, among attempts i to n. */
  function FirstPast(sc: Script, i: nat, n: nat): Option<Sent>
    decreases n - i
  {
    if i > n then None else if PastConnect(sc.meets(i)) then Some(sc.meets(i)) else FirstPast(sc, i + 1, n)
  }

  lemma {:induction false} FirstPastAfter(sc: Script, i: nat, m: nat, n: nat)
    requires i <= m <= n + 1 && forall j :: i <= j < m ==> sc.meets(j).ConnectError?
    ensures FirstPast(sc, i, n) == FirstPast(sc, m, n)
    decreases m - i
  {
    if i < m {
      FirstPastAfter(sc, i + 1, m, n);
    }
  }

  /** Without permission to retry, the first send past connecting decides; without one, the call fails. */
  lemma FirstPastDecides(sc: Script, maxAttempts: nat, t: Trace, r: Result)
    requires Executed(sc, false, maxAttempts, t, r) && sc.parses && maxAttempts >= 1
    ensures var o := FirstPast(sc, 1, maxAttempts);
      if o.Some? then CountPast(t.sends) == 1 && r == ResultOf(o.value) else CountPast(t.sends) == 0 && r == Failed
  {
    var k := |t.sends|;
    PastConnectOnce(sc, maxAttempts, t, r);
    forall j | 1 <= j < k
      ensures sc.meets(j).ConnectError?
    {
      assert t.sends[j - 1] == sc.meets(j);
    }
    assert t.sends[k - 1] == sc.meets(k);
    FirstPastAfter(sc, 1, k, maxAttempts);
    assert FirstPast(sc, maxAttempts + 1, maxAttempts) == None;
  }

  /** The edge, within so many attempts, takes the request and still fails it. */
  predicate TakesAndFails(sc: Script, n: nat) {
    sc.parses && FirstPast(sc, 1, n).Some? && FailsOver(ResultOf(FirstPast(sc, 1, n).value))
  }

  predicate Takes(sc: Script, n: nat) { sc.parses && FirstPast(sc, 1, n).Some? }

  /**
   * A non-idempotent request without a key passes connection setup at most twice, once per edge: twice
   * if and only if the primary takes it and fails and there is a backup that takes it. So the failover
   * does resend a request that may have been delivered.
   */
  lemma DeliveredAtMostTwice(p: Script, b: Option<Script>, f: Forwarded)
    requires ForwardedAs(p, b, false, f)
    ensures CountPast(f.primary.sends) <= 1 && CountPast(f.backup.sends) <= 1
    ensures CountPast(f.primary.sends) + CountPast(f.backup.sends) == 2 <==>
      TakesAndFails(p, PRIMARY_ATTEMPTS) && b.Some? && Takes(b.value, BACKUP_ATTEMPTS)
  {
    var first: Result :| Executed(p, false, PRIMARY_ATTEMPTS, f.primary, first)
      && (f.failedOver <==> FailsOver(first) && b.Some?)
      && (if f.failedOver then Executed(b.value, false, BACKUP_ATTEMPTS, f.backup, f.result)
          else f.backup == Trace([], []) && f.result == first);
    Once(p, PRIMARY_ATTEMPTS, f.primary, first);
    if f.failedOver {
      Once(b.value, BACKUP_ATTEMPTS, f.backup, f.result);
    }
  }

  lemma Once(sc: Script, maxAttempts: nat, t: Trace, r: Result)
    requires Executed(sc, false, maxAttempts, t, r) && maxAttempts >= 1
    ensures CountPast(t.sends) == if Takes(sc, maxAttempts) then 1 else 0
    ensures Takes(sc, maxAttempts) ==> (FailsOver(r) <==> TakesAndFails(sc, maxAttempts))
  {
    PastConnectOnce(sc, maxAttempts, t, r);
    if sc.parses {
      FirstPastDecides(sc, maxAttempts, t, r);
    }
  }
}
