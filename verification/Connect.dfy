// One CONNECT from admission to its response (crates/server/src/connect.rs). The network is a script
// of outcomes; what the run did is a trace of events.

module Connect {
  import opened Common
  import opened Ordering
  import opened Route
  import opened Pool

  const MAX_ATTEMPTS: nat := 5

  datatype BindOutcome = Accepted | Denied | Network

  /** Outcomes of the n-th dial, the n-th bind and the n-th random jitter (below 50) of a run. */
  datatype Script = Script(dialUp: nat -> bool, bind: nat -> BindOutcome, jitter: nat -> nat)

  datatype YoutubeProxy = NoProxy | ProxyUp | ProxyDown

  datatype Event =
    | AuthFailed
    | AuthOk
    | YoutubeDial
    | TryPool(urls: seq<string>)
    | PooledBind(endpoint: string, outcome: BindOutcome)
    | Dial(endpoint: string, up: bool)
    | Bind(endpoint: string, outcome: BindOutcome)
    | Backoff(ms: nat)
    | Respond(status: nat)

  type Trace = seq<Event>

  /** How far a run has read its script. */
  datatype Cursor = Cursor(dials: nat, binds: nat, jitters: nat)

  datatype EstablishError = DeniedError | NetworkError

  // ---- reading a trace ----

  /** The endpoints dialed, in order. */
  function DialTargets(t: Trace): seq<string> {
    if t == [] then []
    else DialTargets(t[..|t| - 1]) + (match t[|t| - 1] case Dial(e, _) => [e] case _ => [])
  }

  function Backoffs(t: Trace): nat {
    if t == [] then 0 else Backoffs(t[..|t| - 1]) + if t[|t| - 1].Backoff? then 1 else 0
  }

  /** What the events of a trace say, one after the other. */
  function Picked<T>(t: Trace, f: Event -> seq<T>): seq<T> {
    if t == [] then [] else Picked(t[..|t| - 1], f) + f(t[|t| - 1])
  }

  lemma {:induction false} PickedConcat<T>(a: Trace, b: Trace, f: Event -> seq<T>)
    ensures Picked(a + b, f) == Picked(a, f) + Picked(b, f)
  {
    if b == [] {
      assert a + b == a;
    } else {
      PickedConcat(a, b[..|b| - 1], f);
      assert (a + b)[..|a + b| - 1] == a + b[..|b| - 1];
    }
  }

  /** What the dials met, in order. */
  function Ups(t: Trace): seq<bool> { Picked(t, UpOf) }

  function UpOf(e: Event): seq<bool> { if e.Dial? then [e.up] else [] }

  /** What the binds, pooled or cold, met, in order. */
  function Outcomes(t: Trace): seq<BindOutcome> { Picked(t, OutcomeOf) }

  function OutcomeOf(e: Event): seq<BindOutcome> { if e.Bind? || e.PooledBind? then [e.outcome] else [] }

  /** The lengths of the back-offs, in order. */
  function Waits(t: Trace): seq<nat> { Picked(t, WaitOf) }

  function WaitOf(e: Event): seq<nat> { if e.Backoff? then [e.ms] else [] }

  /** The k-th dial, the k-th bind and the k-th back-off of the trace are the script's k-th. */
  ghost predicate Follows(t: Trace, script: Script) {
    && (forall k :: 0 <= k < |Ups(t)| ==> Ups(t)[k] == script.dialUp(k))
    && (forall k :: 0 <= k < |Outcomes(t)| ==> Outcomes(t)[k] == script.bind(k))
    && (forall k :: 0 <= k < |Waits(t)| ==> Waits(t)[k] == 50 * Pow2(k) + script.jitter(k) % 50)
  }

  lemma ReadingsConcat(a: Trace, b: Trace)
    ensures Ups(a + b) == Ups(a) + Ups(b) && Outcomes(a + b) == Outcomes(a) + Outcomes(b) && Waits(a + b) == Waits(a) + Waits(b)
  {
    PickedConcat(a, b, UpOf);
    PickedConcat(a, b, OutcomeOf);
    PickedConcat(a, b, WaitOf);
  }

  predicate Answers(e: Event) { e.Respond? }

  /** An event that talks to a gate endpoint talks to one of these. */
  predicate Within(e: Event, eps: seq<string>) {
    match e
    case TryPool(urls) => urls == eps
    case PooledBind(x, _) => x in eps
    case Dial(x, _) => x in eps
    case Bind(x, _) => x in eps
    case _ => true
  }

  predicate Binds(e: Event, outcome: BindOutcome) {
    (e.PooledBind? || e.Bind?) && e.outcome == outcome
  }

  predicate BoundDenied(e: Event) { e.Bind? && e.outcome == Denied }

  predicate NetworkFailure(e: Event) {
    (e.Dial? && !e.up) || (e.Bind? && e.outcome == Network)
  }

  lemma {:induction false} TargetsConcat(a: Trace, b: Trace)
    ensures DialTargets(a + b) == DialTargets(a) + DialTargets(b)
    ensures Backoffs(a + b) == Backoffs(a) + Backoffs(b)
  {
    if b == [] {
      assert a + b == a;
    } else {
      TargetsConcat(a, b[..|b| - 1]);
      assert (a + b)[..|a + b| - 1] == a + b[..|b| - 1];
    }
  }

  // ---- one pass over the endpoints ----

  /** Only dials and cold binds of the given endpoints. */
  ghost predicate ColdOnly(t: Trace, eps: seq<string>) {
    forall i :: 0 <= i < |t| ==> (t[i].Dial? || t[i].Bind?) && Within(t[i], eps)
  }

  ghost predicate NoneAccepted(t: Trace) { forall i :: 0 <= i < |t| ==> !Binds(t[i], Accepted) }

  /** A failed pass has dialed every endpoint in order, and its error is that of the last one. */
  ghost predicate FailedPass(t: Trace, eps: seq<string>, err: EstablishError) {
    && ColdOnly(t, eps) && NoneAccepted(t) && DialTargets(t) == eps
    && (err == DeniedError ==> t != [] && BoundDenied(t[|t| - 1]))
    && (err == NetworkError ==> (t == [] && eps == []) || (t != [] && NetworkFailure(t[|t| - 1])))
  }

  /** A successful pass ends with its only accepted bind, at the last endpoint it dialed. */
  ghost predicate GoodPass(t: Trace, eps: seq<string>) {
    && ColdOnly(t, eps)
    && DialTargets(t) <= eps && DialTargets(t) != []
    && t != [] && t[|t| - 1] == Bind(DialTargets(t)[|DialTargets(t)| - 1], Accepted)
    && NoneAccepted(t[..|t| - 1])
  }

  /** A pass so far: its events, the script used up, the last failure, and whether a bind was accepted. */
  datatype Progress = Progress(t: Trace, at: Cursor, last: Option<EstablishError>, won: bool)

  function ErrorOf(o: BindOutcome): EstablishError { if o == Denied then DeniedError else NetworkError }

  /** One endpoint as the script has it: dialed and, if it connects, bound. */
  function Visited(s: Progress, e: string, script: Script): Progress {
    var at := s.at.(dials := s.at.dials + 1);
    if !script.dialUp(s.at.dials) then Progress(s.t + [Dial(e, false)], at, Some(NetworkError), false)
    else
      var o := script.bind(at.binds);
      Progress(s.t + [Dial(e, true)] + [Bind(e, o)], at.(binds := at.binds + 1), Some(ErrorOf(o)), o == Accepted)
  }

  /** The first i endpoints of a pass, which ends at the first accepted bind. */
  function Pass(eps: seq<string>, i: nat, script: Script, at: Cursor): Progress
    requires i <= |eps|
  {
    if i == 0 then Progress([], at, None, false)
    else
      var s := Pass(eps, i - 1, script, at);
      if s.won then s else Visited(s, eps[i - 1], script)
  }

  function PassError(s: Progress): Option<EstablishError> {
    if s.won then None else if s.last.Some? then s.last else Some(NetworkError)
  }

  lemma {:induction false} WonStays(eps: seq<string>, i: nat, j: nat, script: Script, at: Cursor)
    requires i <= j <= |eps| && Pass(eps, i, script, at).won
    ensures Pass(eps, j, script, at) == Pass(eps, i, script, at)
  {
    if i < j {
      WonStays(eps, i, j - 1, script, at);
    }
  }

  /** The loop over the endpoints runs the script's pass. */
  method EstablishWithEndpoints(eps: seq<string>, script: Script, at: Cursor)
    returns (error: Option<EstablishError>, t: Trace, at': Cursor)
    ensures var s := Pass(eps, |eps|, script, at); t == s.t && at' == s.at && error == PassError(s)
  {
    var lastErr: Option<EstablishError> := None;
    t, at' := [], at;
    for i := 0 to |eps|
      invariant Pass(eps, i, script, at) == Progress(t, at', lastErr, false)
    {
      var up := script.dialUp(at'.dials);
      at' := at'.(dials := at'.dials + 1);
      t := t + [Dial(eps[i], up)];
      if up {
        var outcome := script.bind(at'.binds);
        at' := at'.(binds := at'.binds + 1);
        t := t + [Bind(eps[i], outcome)];
        if outcome == Accepted {
          WonStays(eps, i + 1, |eps|, script, at);
          return None, t, at';
        }
        lastErr := Some(if outcome == Denied then DeniedError else NetworkError);
      } else {
        lastErr := Some(NetworkError);
      }
    }
    error := if lastErr.Some? then lastErr else Some(NetworkError);
  }

  /** What a pass has done after i endpoints without an accepted bind. */
  ghost predicate Unlucky(s: Progress, eps: seq<string>, i: nat)
    requires i <= |eps|
  {
    && ColdOnly(s.t, eps) && NoneAccepted(s.t) && DialTargets(s.t) == eps[..i]
    && (s.last.None? <==> i == 0) && (i == 0 <==> s.t == [])
    && (s.last == Some(DeniedError) ==> s.t != [] && BoundDenied(s.t[|s.t| - 1]))
    && (s.last == Some(NetworkError) ==> s.t != [] && NetworkFailure(s.t[|s.t| - 1]))
  }

  lemma {:induction false} PassKeeps(eps: seq<string>, i: nat, script: Script, at: Cursor)
    requires i <= |eps|
    ensures var s := Pass(eps, i, script, at); if s.won then GoodPass(s.t, eps) else Unlucky(s, eps, i)
  {
    if i > 0 {
      PassKeeps(eps, i - 1, script, at);
      var s := Pass(eps, i - 1, script, at);
      if s.won {
        assert Pass(eps, i, script, at) == s;
      } else {
        VisitKeeps(s, eps, i - 1, script);
        assert Pass(eps, i, script, at) == Visited(s, eps[i - 1], script);
      }
    }
  }

  lemma VisitKeeps(s: Progress, eps: seq<string>, i: nat, script: Script)
    requires i < |eps| && !s.won && Unlucky(s, eps, i)
    ensures var v := Visited(s, eps[i], script); if v.won then GoodPass(v.t, eps) else Unlucky(v, eps, i + 1)
  {
    var up := script.dialUp(s.at.dials);
    DialStep(s.t, eps, i, up);
    if up {
      BindStep(s.t + [Dial(eps[i], true)], eps, i, script.bind(s.at.binds));
    }
  }

  /** A pass either fails at every endpoint or ends at its first accepted bind. */
  lemma PassResult(eps: seq<string>, script: Script, at: Cursor)
    ensures var s := Pass(eps, |eps|, script, at);
      if PassError(s).Some? then FailedPass(s.t, eps, PassError(s).value) else GoodPass(s.t, eps)
  {
    PassKeeps(eps, |eps|, script, at);
    assert eps[..|eps|] == eps;
  }

  /** One more endpoint is dialed. */
  lemma DialStep(t: Trace, eps: seq<string>, i: nat, up: bool)
    requires i < |eps| && ColdOnly(t, eps) && NoneAccepted(t) && DialTargets(t) == eps[..i]
    ensures var t' := t + [Dial(eps[i], up)];
      ColdOnly(t', eps) && NoneAccepted(t') && DialTargets(t') == eps[..i + 1]
  {
    TargetsConcat(t, [Dial(eps[i], up)]);
    assert DialTargets([Dial(eps[i], up)]) == [eps[i]];
  }

  /** The endpoint just dialed answers the bind. */
  lemma BindStep(t: Trace, eps: seq<string>, i: nat, outcome: BindOutcome)
    requires i < |eps| && ColdOnly(t, eps) && NoneAccepted(t)
    ensures var t' := t + [Bind(eps[i], outcome)];
      ColdOnly(t', eps) && (outcome != Accepted ==> NoneAccepted(t'))
      && DialTargets(t') == DialTargets(t) && NoneAccepted(t'[..|t'| - 1])
  {
    TargetsConcat(t, [Bind(eps[i], outcome)]);
    assert DialTargets([Bind(eps[i], outcome)]) == [];
    assert (t + [Bind(eps[i], outcome)])[..|t|] == t;
  }

  // ---- the attempts ----

  /** The pooled session, if any, is bound before the cold endpoints of the first attempt. */
  ghost predicate PoolPart(t: Trace, eps: seq<string>) {
    forall i :: 0 <= i < |t| ==> (t[i].TryPool? || t[i].PooledBind?) && Within(t[i], eps)
  }

  /** The pool is asked first, for exactly these endpoints, or not at all. */
  ghost predicate PoolUse(t: Trace, eps: seq<string>, usePool: bool) {
    if usePool then t != [] && t[0] == TryPool(eps) else NoPool(t)
  }

  ghost predicate NoPool(t: Trace) { forall i :: 0 <= i < |t| ==> !t[i].TryPool? && !t[i].PooledBind? }

  /** The endpoint of the session that the pool hands out, if any. */
  function HitEndpoint(idle: Stacks, eps: seq<string>, q: Lens): Option<string> {
    var hit := Hit(idle, eps, q);
    if hit.Some? then Some(hit.value.1) else None
  }

  function WarmTrace(eps: seq<string>, hit: Option<string>, script: Script, at: Cursor): Trace {
    if hit.None? then [TryPool(eps)] else [TryPool(eps), PooledBind(hit.value, script.bind(at.binds))]
  }

  /** A pooled session's bind uses up one outcome of the script. */
  function WarmCursor(hit: Option<string>, at: Cursor): Cursor {
    if hit.None? then at else at.(binds := at.binds + 1)
  }

  predicate WarmWins(hit: Option<string>, script: Script, at: Cursor) { hit.Some? && script.bind(at.binds) == Accepted }

  datatype Attempted = Attempted(t: Trace, at: Cursor, error: Option<EstablishError>)

  /** One attempt as the script has it; `hit` is what the pool holds. */
  function AttemptOf(eps: seq<string>, hit: Option<string>, usePool: bool, script: Script, at: Cursor): Attempted {
    if !usePool then
      var s := Pass(eps, |eps|, script, at);
      Attempted(s.t, s.at, PassError(s))
    else if WarmWins(hit, script, at) then Attempted(WarmTrace(eps, hit, script, at), WarmCursor(hit, at), None)
    else
      var s := Pass(eps, |eps|, script, WarmCursor(hit, at));
      Attempted(WarmTrace(eps, hit, script, at) + s.t, s.at, PassError(s))
  }

  /** The pooled part of an attempt asks the pool first and holds no accepted bind unless it wins with its last event. */
  lemma WarmPart(eps: seq<string>, hit: Option<string>, script: Script, at: Cursor)
    requires hit.Some? ==> hit.value in eps
    ensures var warm := WarmTrace(eps, hit, script, at);
      && PoolPart(warm, eps) && PoolUse(warm, eps, true)
      && (if WarmWins(hit, script, at) then Won(warm, [], eps) else NoneAccepted(warm))
  {
    if WarmWins(hit, script, at) {
      assert WarmTrace(eps, hit, script, at)[..1] == [TryPool(eps)];
    }
  }

  /** An attempt is a pooled part and a cold part: it fails with the cold pass, or one of the two wins. */
  lemma AttemptKeeps(eps: seq<string>, hit: Option<string>, usePool: bool, script: Script, at: Cursor)
    returns (warm: Trace, cold: Trace)
    requires hit.Some? ==> hit.value in eps
    ensures var a := AttemptOf(eps, hit, usePool, script, at);
      && a.t == warm + cold && PoolPart(warm, eps) && PoolUse(warm, eps, usePool)
      && (if a.error.Some? then NoneAccepted(warm) && FailedPass(cold, eps, a.error.value) else Won(warm, cold, eps))
  {
    if !usePool {
      warm, cold := [], Pass(eps, |eps|, script, at).t;
      PassResult(eps, script, at);
      assert warm + cold == cold;
    } else {
      warm, cold := WarmTrace(eps, hit, script, at), [];
      WarmPart(eps, hit, script, at);
      if WarmWins(hit, script, at) {
        assert warm + cold == warm;
      } else {
        cold := Pass(eps, |eps|, script, WarmCursor(hit, at)).t;
        PassResult(eps, script, WarmCursor(hit, at));
      }
    }
  }

  method CheckoutOrdered(pool: TunnelPool, eps: seq<string>, fp: string, now: nat) returns (hit: Option<string>)
    modifies pool
    ensures hit == HitEndpoint(old(pool.idle), eps, Lens(Some(fp), now, pool.ttl))
  {
    var session := pool.Checkout(eps, Some(fp), now);
    hit := if session.Some? then Some(session.value.1) else None;
  }

  /** Takes a pooled session, if there is one, and binds it; failing that, dials. */
  method Attempt(pool: TunnelPool, eps: seq<string>, fp: string, now: nat, usePool: bool, script: Script, at: Cursor)
    returns (a: Attempted)
    modifies pool
    ensures a == AttemptOf(eps, HitEndpoint(old(pool.idle), eps, Lens(Some(fp), now, pool.ttl)), usePool, script, at)
  {
    var t, at' := [], at;
    if usePool {
      t := [TryPool(eps)];
      var hit := CheckoutOrdered(pool, eps, fp, now);
      if hit.Some? {
        var outcome := script.bind(at'.binds);
        at' := at'.(binds := at'.binds + 1);
        t := [TryPool(eps), PooledBind(hit.value, outcome)];
        if outcome == Accepted {
          return Attempted(t, at', None);
        }
      }
    }
    var error, pass;
    error, pass, at' := EstablishWithEndpoints(eps, script, at');
    a := Attempted(t + pass, at', error);
  }

  /** The endpoints, n times over. */
  function Repeat(eps: seq<string>, n: nat): seq<string> { if n == 0 then [] else Repeat(eps, n - 1) + eps }

  lemma {:induction false} RepeatSize(eps: seq<string>, n: nat)
    ensures |Repeat(eps, n)| == n * |eps| && forall u :: u in Repeat(eps, n) ==> u in eps
  {
    if n > 0 {
      RepeatSize(eps, n - 1);
      assert n * |eps| == (n - 1) * |eps| + |eps|;
    }
  }

  /**
   * The tunnel part of a run over the endpoints eps: up to five attempts, then one answer. The dials go
   * through the endpoints in order, once for each attempt, the last pass perhaps cut short.
   */
  ghost predicate TunnelRun(t: Trace, eps: seq<string>) {
    && t != []
    && (forall i :: 0 <= i < |t| ==> Within(t[i], eps) && !t[i].YoutubeDial?)
    && (forall i :: 0 <= i < |t| - 1 ==> !Answers(t[i]))
    && Backoffs(t) < 5
    && Repeat(eps, Backoffs(t)) <= DialTargets(t) <= Repeat(eps, Backoffs(t) + 1)
    && RetriesOnNetwork(t, eps) && Paced(t)
    && Ending(t, eps)
  }

  /** A retry follows only a network failure (or a configuration without endpoints). */
  ghost predicate RetriesOnNetwork(t: Trace, eps: seq<string>) {
    forall i :: 0 <= i < |t| && t[i].Backoff? ==> RetryAt(t, i, eps)
  }

  predicate RetryAt(t: Trace, i: nat, eps: seq<string>)
    requires i < |t|
  {
    eps == [] || (i > 0 && ((t[i - 1].Dial? && !t[i - 1].up) || (t[i - 1].Bind? && t[i - 1].outcome == Network)))
  }

  /** The k-th back-off (from 0) lasts 50 * 2^k ms plus a jitter below 50 ms. */
  ghost predicate Paced(t: Trace) {
    forall i :: 0 <= i < |t| && t[i].Backoff? ==> PacedAt(t, i)
  }

  predicate PacedAt(t: Trace, i: nat)
    requires i < |t| && t[i].Backoff?
  {
    var base := 50 * Pow2(Backoffs(t[..i]));
    base <= t[i].ms < base + 50
  }

  lemma {:induction false} PacedStep(t: Trace, e: Event)
    requires Paced(t)
    requires e.Backoff? ==> 50 * Pow2(Backoffs(t)) <= e.ms < 50 * Pow2(Backoffs(t)) + 50
    ensures Paced(t + [e])
  {
    var all := t + [e];
    forall i | 0 <= i < |all| && all[i].Backoff?
      ensures PacedAt(all, i)
    {
      assert all[..i] == t[..i];
      if i < |t| {
        assert PacedAt(t, i);
      } else {
        assert t[..i] == t;
      }
    }
  }

  /**
   * 200 directly follows the run's only accepted bind. 502 means that no bind was accepted, and that
   * the attempts were used up or the last endpoint of an attempt denied the target.
   */
  ghost predicate Ending(t: Trace, eps: seq<string>)
    requires t != []
  {
    var last := t[|t| - 1];
    if last == Respond(200) then |t| > 1 && Binds(t[|t| - 2], Accepted) && NoneAccepted(t[..|t| - 2])
    else
      && last == Respond(502) && NoneAccepted(t) && DialTargets(t) == Repeat(eps, Backoffs(t) + 1)
      && (Backoffs(t) == 4 || (|t| > 1 && t[|t| - 2].Bind? && t[|t| - 2].outcome == Denied))
  }

  /** What holds between attempts: `waits` back-offs so far, and `passes` whole passes over the endpoints. */
  ghost predicate Retrying(t: Trace, eps: seq<string>, passes: nat, waits: nat) {
    && (forall i :: 0 <= i < |t| ==> Within(t[i], eps) && !t[i].YoutubeDial? && !Answers(t[i]))
    && DialTargets(t) == Repeat(eps, passes)
    && Backoffs(t) == waits
    && RetriesOnNetwork(t, eps) && Paced(t)
    && NoneAccepted(t)
  }

  /** The traces of a run between attempts. */
  ghost function Tries(eps: seq<string>, passes: nat, waits: nat): iset<Trace> {
    iset t: Trace | Retrying(t, eps, passes, waits)
  }

  lemma {:induction false} NoWaits(t: Trace)
    requires forall i :: 0 <= i < |t| ==> !t[i].Backoff?
    ensures Backoffs(t) == 0
  {
    if t != [] {
      NoWaits(t[..|t| - 1]);
    }
  }

  lemma {:induction false} NoDials(t: Trace)
    requires forall i :: 0 <= i < |t| ==> !t[i].Dial?
    ensures DialTargets(t) == []
  {
    if t != [] {
      NoDials(t[..|t| - 1]);
    }
  }

  /** A further attempt's events after those so far: counts, and what each event may be. */
  lemma JoinCounts(t: Trace, part: Trace, warm: Trace, cold: Trace, eps: seq<string>, attempt: nat)
    requires Backoffs(t) == attempt && part == warm + cold && PoolPart(warm, eps) && ColdOnly(cold, eps)
    ensures DialTargets(t + part) == DialTargets(t) + DialTargets(cold) && Backoffs(t + part) == attempt
  {
    NoWaits(warm);
    NoWaits(cold);
    NoDials(warm);
    TargetsConcat(warm, cold);
    TargetsConcat(t, part);
    assert [] + DialTargets(cold) == DialTargets(cold);
  }

  lemma JoinEvents(t: Trace, part: Trace, warm: Trace, cold: Trace, eps: seq<string>)
    requires forall i :: 0 <= i < |t| ==> Within(t[i], eps) && !t[i].YoutubeDial? && !Answers(t[i])
    requires RetriesOnNetwork(t, eps) && Paced(t)
    requires part == warm + cold && PoolPart(warm, eps) && ColdOnly(cold, eps)
    ensures forall i :: 0 <= i < |t + part| ==>
      Within((t + part)[i], eps) && !(t + part)[i].YoutubeDial? && !Answers((t + part)[i])
    ensures RetriesOnNetwork(t + part, eps) && Paced(t + part)
  {
    var all := t + part;
    forall i | 0 <= i < |all|
      ensures Within(all[i], eps) && !all[i].YoutubeDial? && !Answers(all[i])
      ensures all[i].Backoff? ==> i < |t|
    {
      if i >= |t| {
        NotBackoff(part, warm, cold, eps, i - |t|);
        assert all[i] == part[i - |t|];
      }
    }
    forall i | 0 <= i < |all| && all[i].Backoff?
      ensures RetryAt(all, i, eps)
    {
      assert RetryAt(t, i, eps);
    }
    assert Paced(all) by {
      forall i | 0 <= i < |all| && all[i].Backoff?
        ensures PacedAt(all, i)
      {
        assert PacedAt(t, i) && all[..i] == t[..i];
      }
    }
  }

  lemma JoinAttempt(t: Trace, part: Trace, warm: Trace, cold: Trace, eps: seq<string>, attempt: nat)
    requires t in Tries(eps, attempt, attempt)
    requires part == warm + cold && PoolPart(warm, eps) && ColdOnly(cold, eps)
    ensures DialTargets(t + part) == Repeat(eps, attempt) + DialTargets(cold) && Backoffs(t + part) == attempt
    ensures forall i :: 0 <= i < |t + part| ==>
      Within((t + part)[i], eps) && !(t + part)[i].YoutubeDial? && !Answers((t + part)[i])
    ensures RetriesOnNetwork(t + part, eps) && Paced(t + part)
  {
    JoinCounts(t, part, warm, cold, eps, attempt);
    JoinEvents(t, part, warm, cold, eps);
  }

  lemma NotBackoff(part: Trace, warm: Trace, cold: Trace, eps: seq<string>, i: nat)
    requires part == warm + cold && PoolPart(warm, eps) && ColdOnly(cold, eps) && i < |part|
    ensures !part[i].Backoff? && !part[i].YoutubeDial? && !Answers(part[i]) && Within(part[i], eps)
  {
    if i < |warm| {
      assert part[i] == warm[i];
    } else {
      assert part[i] == cold[i - |warm|];
    }
  }

  lemma FailedAttempt(t: Trace, part: Trace, warm: Trace, cold: Trace, eps: seq<string>, attempt: nat, err: EstablishError)
    requires t in Tries(eps, attempt, attempt)
    requires part == warm + cold && PoolPart(warm, eps) && NoneAccepted(warm) && FailedPass(cold, eps, err)
    ensures t + part in Tries(eps, attempt + 1, attempt)
    ensures err == DeniedError ==> t + part != [] && BoundDenied((t + part)[|t + part| - 1])
    ensures err == NetworkError ==> eps == [] || (t + part != [] && NetworkFailure((t + part)[|t + part| - 1]))
  {
    JoinAttempt(t, part, warm, cold, eps, attempt);
  }

  lemma WonAttempt(t: Trace, part: Trace, warm: Trace, cold: Trace, eps: seq<string>, attempt: nat, at: Cursor)
    requires t in Tries(eps, attempt, attempt) && attempt < MAX_ATTEMPTS
    requires part == warm + cold && PoolPart(warm, eps)
    requires Won(warm, cold, eps)
    ensures Rounded(t + part + [Respond(200)], at, true) in LeftBy(attempt + 1, eps)
  {
    JoinAttempt(t, part, warm, cold, eps, attempt);
    LastPass(Repeat(eps, attempt), DialTargets(cold), eps);
    WonOnce(t, part, warm, cold);
    Answer200(t + part, eps);
  }

  lemma Answer200(t: Trace, eps: seq<string>)
    requires forall i :: 0 <= i < |t| ==> Within(t[i], eps) && !t[i].YoutubeDial? && !Answers(t[i])
    requires RetriesOnNetwork(t, eps) && Paced(t) && Backoffs(t) < MAX_ATTEMPTS
    requires Repeat(eps, Backoffs(t)) <= DialTargets(t) <= Repeat(eps, Backoffs(t) + 1)
    requires t != [] && Binds(t[|t| - 1], Accepted) && NoneAccepted(t[..|t| - 1])
    ensures TunnelRun(t + [Respond(200)], eps)
  {
    AnswerCounts(t, 200);
    PacedStep(t, Respond(200));
  }

  lemma AnswerCounts(t: Trace, status: nat)
    ensures var run := t + [Respond(status)];
      DialTargets(run) == DialTargets(t) && Backoffs(run) == Backoffs(t) && (t != [] ==> run[..|run| - 2] == t[..|t| - 1])
  {
    TargetsConcat(t, [Respond(status)]);
    assert DialTargets([Respond(status)]) == [];
    assert DialTargets(t) + [] == DialTargets(t);
  }

  /** The accepted bind is the last event of the attempt and the only one of the run. */
  lemma WonOnce(t: Trace, part: Trace, warm: Trace, cold: Trace)
    requires NoneAccepted(t) && part == warm + cold
    requires (cold == [] && warm != [] && Binds(warm[|warm| - 1], Accepted) && NoneAccepted(warm[..|warm| - 1]))
      || (NoneAccepted(warm) && cold != [] && Binds(cold[|cold| - 1], Accepted) && NoneAccepted(cold[..|cold| - 1]))
    ensures part != [] && Binds((t + part)[|t + part| - 1], Accepted) && NoneAccepted((t + part)[..|t + part| - 1])
  {
    var all := t + part;
    var front := all[..|all| - 1];
    forall i | 0 <= i < |front|
      ensures !Binds(front[i], Accepted)
    {
      assert front[i] == all[i];
      if i >= |t| {
        var j := i - |t|;
        assert all[i] == part[j];
        if j < |warm| && cold == [] {
          assert warm[..|warm| - 1][j] == all[i];
        } else if j >= |warm| {
          assert cold[..|cold| - 1][j - |warm|] == all[i];
        }
      }
    }
  }

  lemma LastPass(before: seq<string>, dialed: seq<string>, eps: seq<string>)
    requires dialed <= eps
    ensures before <= before + dialed <= before + eps
  {
  }

  lemma Waited(t: Trace, eps: seq<string>, attempt: nat, ms: nat, at: Cursor)
    requires t in Tries(eps, attempt + 1, attempt) && attempt + 1 < MAX_ATTEMPTS
    requires eps == [] || (t != [] && NetworkFailure(t[|t| - 1]))
    requires 50 * Pow2(attempt) <= ms < 50 * Pow2(attempt) + 50
    ensures Rounded(t + [Backoff(ms)], at, false) in LeftBy(attempt + 1, eps)
  {
    TargetsConcat(t, [Backoff(ms)]);
    PacedStep(t, Backoff(ms));
  }

  lemma GaveUp(t: Trace, eps: seq<string>, attempt: nat, at: Cursor)
    requires t in Tries(eps, attempt + 1, attempt) && attempt < MAX_ATTEMPTS
    requires attempt + 1 == MAX_ATTEMPTS || (t != [] && BoundDenied(t[|t| - 1]))
    ensures Rounded(t + [Respond(502)], at, true) in LeftBy(attempt + 1, eps)
  {
    AnswerCounts(t, 502);
    PacedStep(t, Respond(502));
  }

  /** A run so far: its events, the script used up, and whether it has answered. */
  datatype Rounded = Rounded(t: Trace, at: Cursor, answered: bool)

  /** What follows an attempt: an answer, or a back-off. */
  function Concluded(a: Attempted, script: Script, t: Trace, attempt: nat): Rounded {
    if a.error.None? then Rounded(t + [Respond(200)], a.at, true)
    else if a.error.value != NetworkError || attempt + 1 >= MAX_ATTEMPTS then Rounded(t + [Respond(502)], a.at, true)
    else
      Rounded(t + [Backoff(Pause(attempt, script.jitter(a.at.jitters)))], a.at.(jitters := a.at.jitters + 1), false)
  }

  function Pause(attempt: nat, random: nat): (ms: nat)
    ensures attempt <= 6 ==> 50 * Pow2(attempt) <= ms < 50 * Pow2(attempt) + 50
  {
    50 * Pow2(Min(attempt, 6)) + random % 50
  }

  /** One round as the script has it. */
  function RoundOf(eps: seq<string>, hit: Option<string>, usePool: bool, script: Script, s: Rounded, attempt: nat): Rounded {
    var a := AttemptOf(eps, hit, usePool, script, s.at);
    Concluded(a, script, s.t + a.t, attempt)
  }

  /** The first n rounds of a tunnel run; only the first may use the pool. */
  function Rounds(n: nat, eps: seq<string>, hit: Option<string>, poolAllowed: bool, script: Script): Rounded {
    if n == 0 then Rounded([], Cursor(0, 0, 0), false)
    else
      var s := Rounds(n - 1, eps, hit, poolAllowed, script);
      if s.answered then s else RoundOf(eps, hit, n == 1 && poolAllowed, script, s, n - 1)
  }

  /** The events of a tunnel run, as a function of the script and of what the pool holds. */
  function TunnelTrace(eps: seq<string>, hit: Option<string>, poolAllowed: bool, script: Script): Trace {
    Rounds(MAX_ATTEMPTS, eps, hit, poolAllowed, script).t
  }

  /** The next round; after the first, what the pool holds is of no account. */
  lemma NextRound(n: nat, eps: seq<string>, hit: Option<string>, now: Option<string>, poolAllowed: bool, script: Script, s: Rounded)
    requires Rounds(n, eps, hit, poolAllowed, script) == s && !s.answered && (n == 0 ==> now == hit)
    ensures Rounds(n + 1, eps, hit, poolAllowed, script) == RoundOf(eps, now, n == 0 && poolAllowed, script, s, n)
  {
    assert AttemptOf(eps, now, n == 0 && poolAllowed, script, s.at) == AttemptOf(eps, hit, n == 0 && poolAllowed, script, s.at);
  }

  lemma {:induction false} AnsweredStays(m: nat, n: nat, eps: seq<string>, hit: Option<string>, poolAllowed: bool, script: Script)
    requires m <= n && Rounds(m, eps, hit, poolAllowed, script).answered
    ensures Rounds(n, eps, hit, poolAllowed, script) == Rounds(m, eps, hit, poolAllowed, script)
  {
    if m < n {
      AnsweredStays(m, n - 1, eps, hit, poolAllowed, script);
    }
  }

  /** One round of the retry loop: an answer, or a back-off before the next round. */
  method Round(pool: TunnelPool, eps: seq<string>, fp: string, now: nat, usePool: bool, script: Script, s: Rounded, attempt: nat)
    returns (s': Rounded)
    modifies pool
    ensures s' == RoundOf(eps, HitEndpoint(old(pool.idle), eps, Lens(Some(fp), now, pool.ttl)), usePool, script, s, attempt)
  {
    var a := Attempt(pool, eps, fp, now, usePool, script, s.at);
    var t := s.t + a.t;
    if a.error.None? {
      return Rounded(t + [Respond(200)], a.at, true);
    }
    if a.error.value != NetworkError || attempt + 1 >= MAX_ATTEMPTS {
      return Rounded(t + [Respond(502)], a.at, true);
    }
    var ms := 50 * Pow2(Min(attempt, 6)) + script.jitter(a.at.jitters) % 50;
    s' := Rounded(t + [Backoff(ms)], a.at.(jitters := a.at.jitters + 1), false);
  }

  /** What n rounds leave: a whole run, or one that may go on; the pool was asked first or not at all. */
  ghost predicate GoingOn(s: Rounded, n: nat, eps: seq<string>, poolAllowed: bool) {
    && Leaves(s, eps, n)
    && (if s.t == [] then n == 0 && !s.answered else PoolUse(s.t, eps, poolAllowed))
    && (n == 0 ==> s.t == [])
  }

  /** The states that n rounds may leave. */
  ghost function AfterRounds(n: nat, eps: seq<string>, poolAllowed: bool): iset<Rounded> {
    iset s: Rounded | GoingOn(s, n, eps, poolAllowed)
  }

  lemma RoundKeeps(eps: seq<string>, hit: Option<string>, poolAllowed: bool, usePool: bool, script: Script, s: Rounded, attempt: nat)
    requires (hit.Some? ==> hit.value in eps) && s in AfterRounds(attempt, eps, poolAllowed) && !s.answered
    requires usePool == (attempt == 0 && poolAllowed)
    ensures RoundOf(eps, hit, usePool, script, s, attempt) in AfterRounds(attempt + 1, eps, poolAllowed)
  {
    BeforeRound(s, attempt, eps, poolAllowed);
    RoundLeaves(eps, hit, usePool, script, s, attempt);
    RoundUses(eps, hit, poolAllowed, usePool, script, s, attempt);
    RoundDone(RoundOf(eps, hit, usePool, script, s, attempt), attempt + 1, eps, poolAllowed);
  }

  lemma BeforeRound(s: Rounded, attempt: nat, eps: seq<string>, poolAllowed: bool)
    requires s in AfterRounds(attempt, eps, poolAllowed) && !s.answered
    ensures attempt < MAX_ATTEMPTS && s.t in Tries(eps, attempt, attempt)
    ensures if attempt == 0 then s.t == [] else s.t != [] && PoolUse(s.t, eps, poolAllowed)
  {
  }

  lemma RoundLeaves(eps: seq<string>, hit: Option<string>, usePool: bool, script: Script, s: Rounded, attempt: nat)
    requires (hit.Some? ==> hit.value in eps) && attempt < MAX_ATTEMPTS && s.t in Tries(eps, attempt, attempt)
    ensures RoundOf(eps, hit, usePool, script, s, attempt) in LeftBy(attempt + 1, eps)
  {
    var warm, cold := AttemptKeeps(eps, hit, usePool, script, s.at);
    ConclusionKeeps(eps, script, s.t, attempt, AttemptOf(eps, hit, usePool, script, s.at), warm, cold);
  }

  lemma RoundUses(eps: seq<string>, hit: Option<string>, poolAllowed: bool, usePool: bool, script: Script, s: Rounded, attempt: nat)
    requires (hit.Some? ==> hit.value in eps) && usePool == (attempt == 0 && poolAllowed)
    requires if attempt == 0 then s.t == [] else s.t != [] && PoolUse(s.t, eps, poolAllowed)
    ensures var t := RoundOf(eps, hit, usePool, script, s, attempt).t; t != [] && PoolUse(t, eps, poolAllowed)
  {
    var a := AttemptOf(eps, hit, usePool, script, s.at);
    var warm, cold := AttemptKeeps(eps, hit, usePool, script, s.at);
    RoundPool(s.t, a.t, warm, cold, eps, attempt, poolAllowed, Concluded(a, script, s.t + a.t, attempt).t);
  }

  lemma RoundDone(s: Rounded, n: nat, eps: seq<string>, poolAllowed: bool)
    requires n > 0 && s in LeftBy(n, eps) && s.t != [] && PoolUse(s.t, eps, poolAllowed)
    ensures s in AfterRounds(n, eps, poolAllowed)
  {
  }

  ghost function LeftBy(n: nat, eps: seq<string>): iset<Rounded> { iset s: Rounded | Leaves(s, eps, n) }

  /** What a round may leave: a whole run, or one that may go on. */
  ghost predicate Leaves(s: Rounded, eps: seq<string>, n: nat) {
    if s.answered then TunnelRun(s.t, eps) else n < MAX_ATTEMPTS && s.t in Tries(eps, n, n)
  }

  lemma ConclusionKeeps(eps: seq<string>, script: Script, t: Trace, attempt: nat, a: Attempted, warm: Trace, cold: Trace)
    requires attempt < MAX_ATTEMPTS && t in Tries(eps, attempt, attempt)
    requires a.t == warm + cold && PoolPart(warm, eps)
    requires if a.error.Some? then NoneAccepted(warm) && FailedPass(cold, eps, a.error.value) else Won(warm, cold, eps)
    ensures Concluded(a, script, t + a.t, attempt) in LeftBy(attempt + 1, eps)
  {
    if a.error.None? {
      WonAttempt(t, a.t, warm, cold, eps, attempt, a.at);
    } else {
      FailedConclusion(eps, script, t, attempt, a, warm, cold);
    }
  }

  lemma FailedConclusion(eps: seq<string>, script: Script, t: Trace, attempt: nat, a: Attempted, warm: Trace, cold: Trace)
    requires attempt < MAX_ATTEMPTS && t in Tries(eps, attempt, attempt)
    requires a.t == warm + cold && PoolPart(warm, eps)
    requires a.error.Some? && NoneAccepted(warm) && FailedPass(cold, eps, a.error.value)
    ensures Concluded(a, script, t + a.t, attempt) in LeftBy(attempt + 1, eps)
  {
    FailedAttempt(t, a.t, warm, cold, eps, attempt, a.error.value);
    FailedRound(eps, script, t + a.t, attempt, a);
  }

  lemma FailedRound(eps: seq<string>, script: Script, t: Trace, attempt: nat, a: Attempted)
    requires attempt < MAX_ATTEMPTS && a.error.Some? && t in Tries(eps, attempt + 1, attempt)
    requires a.error.value == DeniedError ==> t != [] && BoundDenied(t[|t| - 1])
    requires a.error.value == NetworkError ==> eps == [] || (t != [] && NetworkFailure(t[|t| - 1]))
    ensures Concluded(a, script, t, attempt) in LeftBy(attempt + 1, eps)
  {
    if a.error.value != NetworkError || attempt + 1 >= MAX_ATTEMPTS {
      GaveUp(t, eps, attempt, a.at);
    } else {
      Waited(t, eps, attempt, Pause(attempt, script.jitter(a.at.jitters)), a.at.(jitters := a.at.jitters + 1));
    }
  }

  lemma RoundPool(t: Trace, part: Trace, warm: Trace, cold: Trace, eps: seq<string>, attempt: nat, poolAllowed: bool, t': Trace)
    requires if attempt == 0 then t == [] else t != [] && PoolUse(t, eps, poolAllowed)
    requires part == warm + cold && PoolUse(warm, eps, attempt == 0 && poolAllowed) && ColdOnly(cold, eps)
    requires |t'| == |t + part| + 1 && t + part <= t' && !t'[|t'| - 1].TryPool? && !t'[|t'| - 1].PooledBind?
    ensures t' != [] && PoolUse(t', eps, poolAllowed)
  {
    var e := t'[|t'| - 1];
    assert t' == t + part + [e];
    PoolUseJoin(t, part, warm, cold, eps, attempt == 0 && poolAllowed);
    Answering(t, t + part, e, eps, attempt == 0 && poolAllowed);
  }

  lemma {:induction false} RoundsKeep(n: nat, eps: seq<string>, hit: Option<string>, poolAllowed: bool, script: Script)
    requires hit.Some? ==> hit.value in eps
    ensures Rounds(n, eps, hit, poolAllowed, script) in AfterRounds(n, eps, poolAllowed)
  {
    if n == 0 {
      NothingYet(eps, poolAllowed);
    } else {
      RoundsKeep(n - 1, eps, hit, poolAllowed, script);
      OneMoreRound(n, eps, hit, poolAllowed, script, Rounds(n - 1, eps, hit, poolAllowed, script));
    }
  }

  lemma OneMoreRound(n: nat, eps: seq<string>, hit: Option<string>, poolAllowed: bool, script: Script, s: Rounded)
    requires (hit.Some? ==> hit.value in eps) && n > 0 && s in AfterRounds(n - 1, eps, poolAllowed)
    ensures (if s.answered then s else RoundOf(eps, hit, n == 1 && poolAllowed, script, s, n - 1)) in AfterRounds(n, eps, poolAllowed)
  {
    if s.answered {
      AnsweredIsAfter(s, n, eps, poolAllowed);
    } else {
      RoundKeeps(eps, hit, poolAllowed, n == 1 && poolAllowed, script, s, n - 1);
    }
  }

  lemma NothingYet(eps: seq<string>, poolAllowed: bool)
    ensures Rounded([], Cursor(0, 0, 0), false) in AfterRounds(0, eps, poolAllowed)
  {
  }

  lemma AnsweredIsAfter(s: Rounded, n: nat, eps: seq<string>, poolAllowed: bool)
    requires n > 0 && s in AfterRounds(n - 1, eps, poolAllowed) && s.answered
    ensures s in AfterRounds(n, eps, poolAllowed)
  {
  }

  /** Every tunnel run keeps its promises: whatever the script, and whatever the pool holds for the endpoints. */
  lemma TunnelKeeps(eps: seq<string>, hit: Option<string>, poolAllowed: bool, script: Script)
    requires hit.Some? ==> hit.value in eps
    ensures var t := TunnelTrace(eps, hit, poolAllowed, script); TunnelRun(t, eps) && PoolUse(t, eps, poolAllowed)
  {
    RoundsKeep(MAX_ATTEMPTS, eps, hit, poolAllowed, script);
  }

  /** A run has answered after five rounds at the latest. */
  lemma AllAnswered(eps: seq<string>, hit: Option<string>, poolAllowed: bool, script: Script)
    ensures Rounds(MAX_ATTEMPTS, eps, hit, poolAllowed, script).answered
  {
  }

  /** The event that ends a round does not touch the pool. */
  lemma Answering(t: Trace, t': Trace, e: Event, eps: seq<string>, usePool: bool)
    requires !e.TryPool? && !e.PooledBind? && t <= t'
    requires t == [] ==> PoolUse(t', eps, usePool)
    requires NoPool(t) && !usePool ==> NoPool(t')
    ensures t == [] ==> PoolUse(t' + [e], eps, usePool)
    ensures t <= t' + [e] && (NoPool(t) && !usePool ==> NoPool(t' + [e]))
  {
  }

  /** The attempt's last bind, pooled or cold, is its only accepted one. */
  ghost predicate Won(warm: Trace, cold: Trace, eps: seq<string>) {
    (cold == [] && warm != [] && Binds(warm[|warm| - 1], Accepted) && NoneAccepted(warm[..|warm| - 1]))
    || (NoneAccepted(warm) && GoodPass(cold, eps))
  }

  lemma PoolUseJoin(t: Trace, part: Trace, warm: Trace, cold: Trace, eps: seq<string>, usePool: bool)
    requires part == warm + cold && PoolUse(warm, eps, usePool) && ColdOnly(cold, eps)
    ensures t == [] ==> PoolUse(t + part, eps, usePool)
    ensures NoPool(t) && !usePool ==> NoPool(t + part)
  {
  }

  method Tunnel(pool: TunnelPool, eps: seq<string>, fp: string, now: nat, poolAllowed: bool, script: Script)
    returns (t: Trace)
    modifies pool
    ensures t == TunnelTrace(eps, HitEndpoint(old(pool.idle), eps, Lens(Some(fp), now, pool.ttl)), poolAllowed, script)
  {
    ghost var hit := HitEndpoint(pool.idle, eps, Lens(Some(fp), now, pool.ttl));
    AllAnswered(eps, hit, poolAllowed, script);
    var s, attempt := Rounded([], Cursor(0, 0, 0), false), 0;
    while !s.answered
      invariant s == Rounds(attempt, eps, hit, poolAllowed, script) && attempt <= MAX_ATTEMPTS
      invariant attempt == 0 ==> pool.idle == old(pool.idle)
      decreases !s.answered, MAX_ATTEMPTS - attempt
    {
      NextRound(attempt, eps, hit, HitEndpoint(pool.idle, eps, Lens(Some(fp), now, pool.ttl)), poolAllowed, script, s);
      s := Round(pool, eps, fp, now, attempt == 0 && poolAllowed, script, s, attempt);
      attempt := attempt + 1;
    }
    AnsweredStays(attempt, MAX_ATTEMPTS, eps, hit, poolAllowed, script);
    t := s.t;
  }

  // ---- the script ----

  /** The trace reads the script from one position to another, outcome by outcome. */
  ghost predicate Reads(t: Trace, script: Script, from: Cursor, to: Cursor) {
    && to.dials == from.dials + |Ups(t)| && to.binds == from.binds + |Outcomes(t)| && to.jitters == from.jitters + |Waits(t)|
    && (forall k :: 0 <= k < |Ups(t)| ==> Ups(t)[k] == script.dialUp(from.dials + k))
    && (forall k :: 0 <= k < |Outcomes(t)| ==> Outcomes(t)[k] == script.bind(from.binds + k))
    && (forall k :: 0 <= k < |Waits(t)| ==> Waits(t)[k] == PauseAt(script, from.jitters + k))
  }

  function PauseAt(script: Script, k: nat): nat { 50 * Pow2(k) + script.jitter(k) % 50 }

  lemma ReadsConcat(a: Trace, b: Trace, script: Script, from: Cursor, mid: Cursor, to: Cursor)
    requires Reads(a, script, from, mid) && Reads(b, script, mid, to)
    ensures Reads(a + b, script, from, to)
  {
    ReadingsConcat(a, b);
  }

  lemma ReadsNothing(t: Trace, script: Script, at: Cursor)
    requires forall i :: 0 <= i < |t| ==> t[i].TryPool? || t[i].Respond?
    ensures Reads(t, script, at, at)
  {
    NothingRead(t);
  }

  lemma {:induction false} NothingRead(t: Trace)
    requires forall i :: 0 <= i < |t| ==> t[i].TryPool? || t[i].Respond?
    ensures Ups(t) == [] && Outcomes(t) == [] && Waits(t) == []
  {
    if t != [] {
      NothingRead(t[..|t| - 1]);
    }
  }

  lemma DialReads(e: Event, script: Script, at: Cursor)
    requires e.Dial? && e.up == script.dialUp(at.dials)
    ensures Reads([e], script, at, at.(dials := at.dials + 1))
  {
    OneReading(e);
  }

  lemma BindReads(e: Event, script: Script, at: Cursor)
    requires (e.Bind? || e.PooledBind?) && e.outcome == script.bind(at.binds)
    ensures Reads([e], script, at, at.(binds := at.binds + 1))
  {
    OneReading(e);
  }

  lemma WaitReads(e: Event, script: Script, at: Cursor)
    requires e.Backoff? && e.ms == PauseAt(script, at.jitters)
    ensures Reads([e], script, at, at.(jitters := at.jitters + 1))
  {
    OneReading(e);
  }

  lemma OneReading(e: Event)
    ensures Ups([e]) == UpOf(e) && Outcomes([e]) == OutcomeOf(e) && Waits([e]) == WaitOf(e)
  {
    PickedOne(e, UpOf);
    PickedOne(e, OutcomeOf);
    PickedOne(e, WaitOf);
  }

  lemma PickedOne<T>(e: Event, f: Event -> seq<T>)
    ensures Picked([e], f) == f(e)
  {
    assert [e][..0] == [];
    assert Picked([], f) == [];
  }

  lemma VisitReads(s: Progress, e: string, script: Script, from: Cursor)
    requires Reads(s.t, script, from, s.at)
    ensures var v := Visited(s, e, script); Reads(v.t, script, from, v.at)
  {
    var up, at := script.dialUp(s.at.dials), s.at.(dials := s.at.dials + 1);
    DialReads(Dial(e, up), script, s.at);
    ReadsConcat(s.t, [Dial(e, up)], script, from, s.at, at);
    if up {
      var o := script.bind(at.binds);
      BindReads(Bind(e, o), script, at);
      ReadsConcat(s.t + [Dial(e, up)], [Bind(e, o)], script, from, at, at.(binds := at.binds + 1));
    }
  }

  lemma {:induction false} PassReads(eps: seq<string>, i: nat, script: Script, at: Cursor)
    requires i <= |eps|
    ensures var s := Pass(eps, i, script, at); Reads(s.t, script, at, s.at)
  {
    if i == 0 {
      ReadsNothing([], script, at);
    } else {
      PassReads(eps, i - 1, script, at);
      var s := Pass(eps, i - 1, script, at);
      if !s.won {
        VisitReads(s, eps[i - 1], script, at);
      }
    }
  }

  lemma WarmReads(eps: seq<string>, hit: Option<string>, script: Script, at: Cursor)
    ensures Reads(WarmTrace(eps, hit, script, at), script, at, WarmCursor(hit, at))
  {
    ReadsNothing([TryPool(eps)], script, at);
    if hit.Some? {
      var e := PooledBind(hit.value, script.bind(at.binds));
      BindReads(e, script, at);
      ReadsConcat([TryPool(eps)], [e], script, at, at, WarmCursor(hit, at));
      assert [TryPool(eps), e] == [TryPool(eps)] + [e];
    }
  }

  lemma AttemptReads(eps: seq<string>, hit: Option<string>, usePool: bool, script: Script, at: Cursor)
    ensures var a := AttemptOf(eps, hit, usePool, script, at); Reads(a.t, script, at, a.at)
  {
    var at1 := if usePool then WarmCursor(hit, at) else at;
    PassReads(eps, |eps|, script, at1);
    if usePool {
      WarmReads(eps, hit, script, at);
      if !WarmWins(hit, script, at) {
        var s := Pass(eps, |eps|, script, at1);
        ReadsConcat(WarmTrace(eps, hit, script, at), s.t, script, at, at1, s.at);
      }
    }
  }

  /** An attempt draws no jitter; a round that goes on draws one. */
  lemma RoundReads(eps: seq<string>, hit: Option<string>, usePool: bool, script: Script, s: Rounded, attempt: nat)
    requires Reads(s.t, script, Cursor(0, 0, 0), s.at) && s.at.jitters == attempt && attempt < MAX_ATTEMPTS
    ensures var s' := RoundOf(eps, hit, usePool, script, s, attempt);
      Reads(s'.t, script, Cursor(0, 0, 0), s'.at) && (!s'.answered ==> s'.at.jitters == attempt + 1)
  {
    var a := AttemptOf(eps, hit, usePool, script, s.at);
    AttemptReads(eps, hit, usePool, script, s.at);
    AttemptDrawsNone(eps, hit, usePool, script, s.at);
    ReadsConcat(s.t, a.t, script, Cursor(0, 0, 0), s.at, a.at);
    var s' := RoundOf(eps, hit, usePool, script, s, attempt);
    if s'.answered {
      var e := s'.t[|s'.t| - 1];
      ReadsNothing([e], script, a.at);
      ReadsConcat(s.t + a.t, [e], script, Cursor(0, 0, 0), a.at, a.at);
    } else {
      var e := Backoff(Pause(attempt, script.jitter(attempt)));
      PauseIs(attempt, script);
      WaitReads(e, script, a.at);
      ReadsConcat(s.t + a.t, [e], script, Cursor(0, 0, 0), a.at, a.at.(jitters := a.at.jitters + 1));
    }
  }

  lemma PauseIs(attempt: nat, script: Script)
    requires attempt < MAX_ATTEMPTS
    ensures Pause(attempt, script.jitter(attempt)) == PauseAt(script, attempt)
  {
  }

  lemma {:induction false} PassDrawsNone(eps: seq<string>, i: nat, script: Script, at: Cursor)
    requires i <= |eps|
    ensures Pass(eps, i, script, at).at.jitters == at.jitters
  {
    if i > 0 {
      PassDrawsNone(eps, i - 1, script, at);
    }
  }

  lemma AttemptDrawsNone(eps: seq<string>, hit: Option<string>, usePool: bool, script: Script, at: Cursor)
    ensures AttemptOf(eps, hit, usePool, script, at).at.jitters == at.jitters
  {
    PassDrawsNone(eps, |eps|, script, if usePool then WarmCursor(hit, at) else at);
  }

  lemma {:induction false} RoundsRead(n: nat, eps: seq<string>, hit: Option<string>, poolAllowed: bool, script: Script)
    requires n <= MAX_ATTEMPTS
    ensures var s := Rounds(n, eps, hit, poolAllowed, script);
      Reads(s.t, script, Cursor(0, 0, 0), s.at) && (!s.answered ==> s.at.jitters == n)
  {
    if n == 0 {
      ReadsNothing([], script, Cursor(0, 0, 0));
    } else {
      RoundsRead(n - 1, eps, hit, poolAllowed, script);
      var s := Rounds(n - 1, eps, hit, poolAllowed, script);
      if !s.answered {
        RoundReads(eps, hit, n == 1 && poolAllowed, script, s, n - 1);
      }
    }
  }

  /**
   * In every tunnel run the k-th dial meets the script's k-th dial outcome, the k-th bind, pooled or
   * cold, its k-th bind outcome, and the k-th back-off lasts 50 * 2^k ms plus the k-th jitter.
   */
  lemma ScriptFollowed(eps: seq<string>, hit: Option<string>, poolAllowed: bool, script: Script)
    ensures Follows(TunnelTrace(eps, hit, poolAllowed, script), script)
  {
    RoundsRead(MAX_ATTEMPTS, eps, hit, poolAllowed, script);
  }

  // ---- the pool and the binds of a run ----

  /** The events that talk to the pool, in order. */
  function Asked(t: Trace): seq<Event> { Picked(t, AskOf) }

  function AskOf(e: Event): seq<Event> { if e.TryPool? || e.PooledBind? then [e] else [] }

  /** What the pool is asked, and what comes of it: nothing, a miss, or a hit that is bound at once. */
  function PoolEvents(eps: seq<string>, hit: Option<string>, asked: bool, script: Script): seq<Event> {
    if !asked then []
    else [TryPool(eps)] + if hit.Some? then [PooledBind(hit.value, script.bind(0))] else []
  }

  lemma {:induction false} AsksNothing(t: Trace)
    requires NoPool(t)
    ensures Asked(t) == []
  {
    if t != [] {
      AsksNothing(t[..|t| - 1]);
    }
  }

  lemma {:induction false} PassAsksNothing(eps: seq<string>, i: nat, script: Script, at: Cursor)
    requires i <= |eps|
    ensures NoPool(Pass(eps, i, script, at).t)
  {
    if i > 0 {
      PassAsksNothing(eps, i - 1, script, at);
    }
  }

  lemma AttemptAsks(eps: seq<string>, hit: Option<string>, usePool: bool, script: Script, at: Cursor)
    requires usePool ==> at == Cursor(0, 0, 0)
    ensures var t := AttemptOf(eps, hit, usePool, script, at).t;
      Asked(t) == PoolEvents(eps, hit, usePool, script) <= t
  {
    var at1 := if usePool then WarmCursor(hit, at) else at;
    var cold := Pass(eps, |eps|, script, at1).t;
    PassAsksNothing(eps, |eps|, script, at1);
    AsksNothing(cold);
    if usePool {
      var warm := WarmTrace(eps, hit, script, at);
      PickedOne(TryPool(eps), AskOf);
      if hit.Some? {
        PickedOne(PooledBind(hit.value, script.bind(0)), AskOf);
        PickedConcat([TryPool(eps)], [PooledBind(hit.value, script.bind(0))], AskOf);
        assert warm == [TryPool(eps)] + [PooledBind(hit.value, script.bind(0))];
      }
      assert Asked(warm) == PoolEvents(eps, hit, usePool, script) == warm;
      PickedConcat(warm, cold, AskOf);
    }
  }

  /** In every tunnel run the pool is asked in the first attempt only, first of all, and its session is bound at once. */
  lemma {:induction false} RoundsAsk(n: nat, eps: seq<string>, hit: Option<string>, poolAllowed: bool, script: Script)
    requires n > 0
    ensures var t := Rounds(n, eps, hit, poolAllowed, script).t;
      Asked(t) == PoolEvents(eps, hit, poolAllowed, script) <= t
  {
    var s := Rounds(n - 1, eps, hit, poolAllowed, script);
    if n > 1 {
      RoundsAsk(n - 1, eps, hit, poolAllowed, script);
    }
    if s.answered {
      assert Rounds(n, eps, hit, poolAllowed, script) == s;
    } else {
      RoundAsks(eps, hit, poolAllowed, n == 1 && poolAllowed, script, s, n - 1);
      assert Rounds(n, eps, hit, poolAllowed, script) == RoundOf(eps, hit, n == 1 && poolAllowed, script, s, n - 1);
    }
  }

  lemma RoundAsks(eps: seq<string>, hit: Option<string>, poolAllowed: bool, usePool: bool, script: Script, s: Rounded, attempt: nat)
    requires usePool == (attempt == 0 && poolAllowed)
    requires if attempt == 0 then s.t == [] && s.at == Cursor(0, 0, 0)
             else Asked(s.t) == PoolEvents(eps, hit, poolAllowed, script) <= s.t
    ensures var t := RoundOf(eps, hit, usePool, script, s, attempt).t;
      Asked(t) == PoolEvents(eps, hit, poolAllowed, script) <= t
  {
    AttemptAsks(eps, hit, usePool, script, s.at);
    var e := RoundEnds(eps, hit, usePool, script, s, attempt);
    AskStep(s.t, AttemptOf(eps, hit, usePool, script, s.at).t, e, PoolEvents(eps, hit, poolAllowed, script), attempt == 0);
  }

  /** A round adds the attempt's events and one more, an answer or a back-off. */
  lemma RoundEnds(eps: seq<string>, hit: Option<string>, usePool: bool, script: Script, s: Rounded, attempt: nat) returns (e: Event)
    ensures RoundOf(eps, hit, usePool, script, s, attempt).t == s.t + AttemptOf(eps, hit, usePool, script, s.at).t + [e]
    ensures e.Respond? || e.Backoff?
  {
    var t := RoundOf(eps, hit, usePool, script, s, attempt).t;
    e := t[|t| - 1];
  }

  lemma AskStep(t: Trace, part: Trace, e: Event, want: seq<Event>, first: bool)
    requires if first then t == [] && Asked(part) == want <= part else Asked(t) == want <= t && Asked(part) == []
    requires e.Respond? || e.Backoff?
    ensures Asked(t + part + [e]) == want <= t + part + [e]
  {
    JoinAsks(t, part, e);
    if first {
      assert Asked(t) == [] && [] + Asked(part) == Asked(part);
      assert t + part == part;
    }
  }

  lemma JoinAsks(t: Trace, part: Trace, e: Event)
    requires AskOf(e) == []
    ensures Asked(t + part + [e]) == Asked(t) + Asked(part)
  {
    PickedConcat(t, part, AskOf);
    PickedOne(e, AskOf);
    PickedConcat(t + part, [e], AskOf);
  }

  /** A dial that connects is followed by the bind of that endpoint, and nothing else is bound cold. */
  ghost predicate Bound(t: Trace) {
    && (forall i :: 0 <= i < |t| && t[i].Dial? ==>
          (t[i].up <==> i + 1 < |t| && t[i + 1].Bind? && t[i + 1].endpoint == t[i].endpoint))
    && (forall i :: 0 <= i < |t| && t[i].Bind? ==> i > 0 && t[i - 1].Dial? && t[i - 1].endpoint == t[i].endpoint)
  }

  lemma BoundConcat(a: Trace, b: Trace)
    requires Bound(a) && Bound(b)
    ensures Bound(a + b)
  {
    var t := a + b;
    forall i | 0 <= i < |t| && t[i].Bind?
      ensures i > 0 && t[i - 1].Dial? && t[i - 1].endpoint == t[i].endpoint
    {
      assert i >= |a| ==> b[i - |a|] == t[i];
    }
    forall i | 0 <= i < |t| && t[i].Dial?
      ensures t[i].up <==> i + 1 < |t| && t[i + 1].Bind? && t[i + 1].endpoint == t[i].endpoint
    {
      assert b != [] ==> !b[0].Bind?;
      assert i >= |a| ==> b[i - |a|] == t[i];
    }
  }

  lemma {:induction false} PassBound(eps: seq<string>, i: nat, script: Script, at: Cursor)
    requires i <= |eps|
    ensures Bound(Pass(eps, i, script, at).t)
  {
    if i > 0 {
      PassBound(eps, i - 1, script, at);
      var s := Pass(eps, i - 1, script, at);
      if !s.won {
        var e := eps[i - 1];
        var visit := if script.dialUp(s.at.dials) then [Dial(e, true), Bind(e, script.bind(s.at.binds))] else [Dial(e, false)];
        BoundConcat(s.t, visit);
        assert Visited(s, e, script).t == s.t + visit;
      }
    }
  }

  /** In every tunnel run exactly the endpoints that connect are bound, each at once. */
  lemma {:induction false} RoundsBound(n: nat, eps: seq<string>, hit: Option<string>, poolAllowed: bool, script: Script)
    ensures Bound(Rounds(n, eps, hit, poolAllowed, script).t)
  {
    if n > 0 {
      RoundsBound(n - 1, eps, hit, poolAllowed, script);
      var s := Rounds(n - 1, eps, hit, poolAllowed, script);
      if !s.answered {
        var usePool := n == 1 && poolAllowed;
        var a := AttemptOf(eps, hit, usePool, script, s.at);
        AttemptBound(eps, hit, usePool, script, s.at);
        var e := RoundEnds(eps, hit, usePool, script, s, n - 1);
        BoundConcat(s.t, a.t);
        BoundConcat(s.t + a.t, [e]);
      }
    }
  }

  lemma AttemptBound(eps: seq<string>, hit: Option<string>, usePool: bool, script: Script, at: Cursor)
    ensures Bound(AttemptOf(eps, hit, usePool, script, at).t)
  {
    var at1 := if usePool then WarmCursor(hit, at) else at;
    PassBound(eps, |eps|, script, at1);
    if usePool {
      BoundConcat(WarmTrace(eps, hit, script, at), Pass(eps, |eps|, script, at1).t);
    }
  }

  /**
   * The events of every tunnel run, told from the trace alone: each reads the script's next outcome, the
   * pool is asked first or not at all, and exactly the endpoints that connect are bound.
   */
  lemma TunnelEvents(eps: seq<string>, hit: Option<string>, poolAllowed: bool, script: Script)
    ensures var t := TunnelTrace(eps, hit, poolAllowed, script);
      && Follows(t, script) && Bound(t)
      && Asked(t) <= t
      && Asked(t) == if !poolAllowed then [] else if hit.None? then [TryPool(eps)]
                     else [TryPool(eps), PooledBind(hit.value, script.bind(0))]
  {
    ScriptFollowed(eps, hit, poolAllowed, script);
    RoundsBound(MAX_ATTEMPTS, eps, hit, poolAllowed, script);
    RoundsAsk(MAX_ATTEMPTS, eps, hit, poolAllowed, script);
  }

  // ---- the whole request ----

  /** What a request carries and meets before the tunnel: parsed target, lock and credentials, environment. */
  datatype Request = Request(
    locked: bool, authorized: bool, target: Option<(string, nat)>,
    youtube: YoutubeProxy, conserveVercel: bool, gateUrl: string, fp: string, now: nat)

  /** The endpoints a request may use: the ordered ones, without CF for a compliant-egress host. */
  function Chosen(req: Request, host: string, offset: nat): seq<string> {
    var ordered := Ordered(GateUrls(req.gateUrl), Classify, VercelPreferred(host, req.conserveVercel), offset);
    if RequiresCompliantEgress(host) then CompliantEndpoints(ordered) else ordered
  }

  /**
   * The course of an admitted request: the dedicated proxy's success, a refusal for want of a compliant
   * endpoint, or the script's tunnel run over the chosen endpoints.
   */
  ghost predicate Course(compliant: bool, youtube: bool, proxy: YoutubeProxy, eps: seq<string>, run: Trace, script: Script, t: Trace) {
    if youtube && proxy == ProxyUp then t == [AuthOk, YoutubeDial, Respond(200)]
    else if compliant && eps == [] then t == [AuthOk, Respond(502)]
    else
      var lead := if youtube && proxy == ProxyDown then 2 else 1;
      && |t| > lead && t[0] == AuthOk && (lead == 2 ==> t[1] == YoutubeDial)
      && t[lead..] == run && TunnelRun(run, eps) && Follows(run, script)
      && PoolUse(run, eps, !compliant || exists i :: 0 <= i < |eps| && !IsVercel(eps[i]))
  }

  /** The pool is asked unless a compliant host has Vercel endpoints only. */
  predicate PoolAllowed(compliant: bool, eps: seq<string>) {
    !compliant || exists i :: 0 <= i < |eps| && !IsVercel(eps[i])
  }

  /** The tunnel run of a request, from the script and what the pool holds for the chosen endpoints. */
  function RunOver(req: Request, compliant: bool, eps: seq<string>, idle: Stacks, ttl: nat, script: Script): Trace {
    TunnelTrace(eps, HitEndpoint(idle, eps, Lens(Some(req.fp), req.now, ttl)), PoolAllowed(compliant, eps), script)
  }

  method HandleConnect(req: Request, pool: TunnelPool?, counter: GateUrlCounter, script: Script) returns (t: Trace)
    modifies pool, counter
    ensures OneAnswer(t)
    ensures req.locked ==> t == [Respond(429)]
    ensures !req.locked && !req.authorized ==> t == [AuthFailed, Respond(407)]
    ensures !req.locked && req.authorized && req.target.None? ==> t == [AuthOk, Respond(400)]
    ensures !req.locked && req.authorized && req.target.Some? && (pool == null || req.target.value.1 != 443) ==>
      t == [AuthOk, Respond(403)]
    ensures !req.locked && req.authorized && req.target.Some? && pool != null && req.target.value.1 == 443 ==>
      Answered(req, req.target.value.0, old(counter.next), old(pool.idle), pool.ttl, script, t)
  {
    if req.locked {
      return [Respond(429)];
    }
    if !req.authorized {
      return [AuthFailed, Respond(407)];
    }
    if req.target.None? {
      return [AuthOk, Respond(400)];
    }
    if pool == null || req.target.value.1 != 443 {
      return [AuthOk, Respond(403)];
    }
    t := ServeTarget(req.target.value.0, req, pool, counter, script);
  }

  /** The exact course of an admitted request, and what it promises. */
  ghost predicate Answered(req: Request, host: string, offset: nat, idle: Stacks, ttl: nat, script: Script, t: Trace) {
    var compliant, youtube, eps := RequiresCompliantEgress(host), IsYoutube(host), Chosen(req, host, offset);
    && Course(compliant, youtube, req.youtube, eps, RunOver(req, compliant, eps, idle, ttl, script), script, t)
    && Served(compliant, youtube, GateUrls(req.gateUrl), t)
  }

  method ServeTarget(host: string, req: Request, pool: TunnelPool, counter: GateUrlCounter, script: Script)
    returns (t: Trace)
    modifies pool, counter
    ensures OneAnswer(t) && Answered(req, host, old(counter.next), old(pool.idle), pool.ttl, script, t)
  {
    var compliant, youtube := RequiresCompliantEgress(host), IsYoutube(host);
    assert !(compliant && youtube) by {
      CompliantIsNotYoutube(host);
    }
    t := [AuthOk];
    if youtube && req.youtube != NoProxy {
      t := t + [YoutubeDial];
      if req.youtube == ProxyUp {
        var eps := Chosen(req, host, counter.next);
        ServedByYoutube(GateUrls(req.gateUrl), eps, RunOver(req, compliant, eps, pool.idle, pool.ttl, script), script);
        return t + [Respond(200)];
      }
    }
    var ordered := counter.OrderedGateUrls(req.gateUrl, host, req.conserveVercel);
    var eps := if compliant then CompliantEndpoints(ordered) else ordered;
    ChosenEndpoints(req, host, old(counter.next));
    t := ServeOver(eps, compliant, youtube, req, pool, script, t, GateUrls(req.gateUrl));
  }

  /** The rest of the course once the endpoints are chosen. */
  method ServeOver(eps: seq<string>, compliant: bool, youtube: bool, req: Request, pool: TunnelPool, script: Script,
                   before: Trace, ghost urls: seq<string>)
    returns (t: Trace)
    requires !(youtube && (compliant || req.youtube == ProxyUp))
    requires before == if youtube && req.youtube == ProxyDown then [AuthOk] + [YoutubeDial] else [AuthOk]
    requires |eps| <= |urls| && forall u :: u in eps ==> u in urls
    requires compliant ==> forall i :: 0 <= i < |eps| ==> Classify(eps[i]) != Cf
    modifies pool
    ensures Course(compliant, youtube, req.youtube, eps, RunOver(req, compliant, eps, old(pool.idle), pool.ttl, script), script, t)
    ensures OneAnswer(t) && Served(compliant, youtube, urls, t)
  {
    t := before;
    if compliant && eps == [] {
      ServedNowhere(compliant, youtube, urls);
      return t + [Respond(502)];
    }
    ghost var hit := HitEndpoint(pool.idle, eps, Lens(Some(req.fp), req.now, pool.ttl));
    TunnelKeeps(eps, hit, PoolAllowed(compliant, eps), script);
    ScriptFollowed(eps, hit, PoolAllowed(compliant, eps), script);
    var run := Tunnel(pool, eps, req.fp, req.now, PoolAllowed(compliant, eps), script);
    ServedByTunnel(compliant, youtube, urls, t, run, eps);
    assert (t + run)[|t|..] == run;
    t := t + run;
  }

  /** The chosen endpoints are configured ones, none of them CF for a compliant host. */
  lemma ChosenEndpoints(req: Request, host: string, offset: nat)
    ensures var eps := Chosen(req, host, offset);
      |eps| <= |GateUrls(req.gateUrl)| && (forall u :: u in eps ==> u in GateUrls(req.gateUrl))
      && (RequiresCompliantEgress(host) ==> forall i :: 0 <= i < |eps| ==> Classify(eps[i]) != Cf)
  {
    var urls, preferred := GateUrls(req.gateUrl), VercelPreferred(host, req.conserveVercel);
    OrderedIsPermutation(urls, Classify, preferred, offset);
    SameBag(Ordered(urls, Classify, preferred, offset), urls);
  }

  /** Exactly one response head, and it ends the exchange. */
  ghost predicate OneAnswer(t: Trace) {
    t != [] && Answers(t[|t| - 1]) && forall i :: 0 <= i < |t| - 1 ==> !Answers(t[i])
  }

  ghost predicate NoCf(t: Trace) {
    forall i :: 0 <= i < |t| ==>
      match t[i]
      case TryPool(urls) => forall u :: u in urls ==> Classify(u) != Cf
      case PooledBind(u, _) => Classify(u) != Cf
      case Dial(u, _) => Classify(u) != Cf
      case Bind(u, _) => Classify(u) != Cf
      case _ => true
  }

  ghost predicate AllCf(urls: seq<string>) { forall u :: u in urls ==> Classify(u) == Cf }

  /** The promises for an admitted CONNECT to port 443 with these configured endpoints. */
  ghost predicate Served(compliant: bool, youtube: bool, urls: seq<string>, t: Trace) {
    && |DialTargets(t)| <= 5 * |urls|
    && (forall u :: u in DialTargets(t) ==> u in urls)
    && t != []
    && (t[|t| - 1] == Respond(200) ==> Earned200(youtube, t))
    && (compliant ==> Compliant(urls, t))
  }

  /** 200 directly follows an accepted bind, or the dedicated proxy's success for a YouTube host. */
  ghost predicate Earned200(youtube: bool, t: Trace) {
    |t| > 1 && (Binds(t[|t| - 2], Accepted) || (t[|t| - 2] == YoutubeDial && youtube))
  }

  ghost predicate Compliant(urls: seq<string>, t: Trace) {
    && NoCf(t)
    && (forall i :: 0 <= i < |t| ==> !t[i].YoutubeDial?)
    && (AllCf(urls) ==> t == [AuthOk, Respond(502)])
  }

  lemma ServedByYoutube(urls: seq<string>, eps: seq<string>, run: Trace, script: Script)
    ensures var t := [AuthOk] + [YoutubeDial] + [Respond(200)];
      OneAnswer(t) && Served(false, true, urls, t) && Course(false, true, ProxyUp, eps, run, script, t)
  {
    var t := [AuthOk] + [YoutubeDial] + [Respond(200)];
    NoDials(t);
  }

  lemma ServedNowhere(compliant: bool, youtube: bool, urls: seq<string>)
    ensures var t := [AuthOk] + [Respond(502)]; OneAnswer(t) && Served(compliant, youtube, urls, t)
  {
    NoDials([AuthOk] + [Respond(502)]);
  }

  lemma ServedByTunnel(compliant: bool, youtube: bool, urls: seq<string>, t: Trace, run: Trace, eps: seq<string>)
    requires t == [AuthOk] || (t == [AuthOk] + [YoutubeDial] && youtube)
    requires TunnelRun(run, eps) && |eps| <= |urls| && forall u :: u in eps ==> u in urls
    requires compliant ==> eps != [] && t == [AuthOk] && forall i :: 0 <= i < |eps| ==> Classify(eps[i]) != Cf
    ensures OneAnswer(t + run) && Served(compliant, youtube, urls, t + run)
  {
    Prefixed(t, run, eps, urls);
    if compliant {
      assert eps[0] in urls && Classify(eps[0]) != Cf;
      WithinIsNoCf(t + run, eps);
      forall i | 0 <= i < |t + run|
        ensures !(t + run)[i].YoutubeDial?
      {
        if i >= |t| {
          assert (t + run)[i] == run[i - |t|];
        }
      }
    }
  }

  lemma WithinIsNoCf(t: Trace, eps: seq<string>)
    requires forall i :: 0 <= i < |t| ==> Within(t[i], eps)
    requires forall i :: 0 <= i < |eps| ==> Classify(eps[i]) != Cf
    ensures NoCf(t)
  {
  }

  lemma SameBag(a: seq<string>, b: seq<string>)
    requires multiset(a) == multiset(b)
    ensures |a| == |b| && forall u :: u in a <==> u in b
  {
    assert |multiset(a)| == |a| && |multiset(b)| == |b|;
    assert forall u :: u in a <==> u in multiset(a);
    assert forall u :: u in b <==> u in multiset(b);
  }

  /** What a tunnel run keeps when it follows the steps before the tunnel. */
  lemma Prefixed(t: Trace, run: Trace, eps: seq<string>, urls: seq<string>)
    requires t == [AuthOk] || t == [AuthOk] + [YoutubeDial]
    requires TunnelRun(run, eps) && |eps| <= |urls| && forall u :: u in eps ==> u in urls
    ensures OneAnswer(t + run)
    ensures |DialTargets(t + run)| <= MAX_ATTEMPTS * |urls| && forall u :: u in DialTargets(t + run) ==> u in urls
    ensures (t + run)[|t + run| - 1] == Respond(200) ==> |t + run| > 1 && Binds((t + run)[|t + run| - 2], Accepted)
    ensures forall i :: 0 <= i < |t + run| ==> Within((t + run)[i], eps)
  {
    PrefixedDials(t, run, eps, urls, Backoffs(run) + 1);
    PrefixedEvents(t, run, eps);
    PrefixedEnd(t, run);
  }

  lemma PrefixedEnd(t: Trace, run: Trace)
    requires run != []
    ensures (t + run)[|t + run| - 1] == run[|run| - 1] && (|run| > 1 ==> (t + run)[|t + run| - 2] == run[|run| - 2])
  {
  }

  lemma PrefixedEvents(t: Trace, run: Trace, eps: seq<string>)
    requires forall i :: 0 <= i < |t| ==> Within(t[i], eps) && !Answers(t[i])
    requires forall i :: 0 <= i < |run| ==> Within(run[i], eps)
    requires forall i :: 0 <= i < |run| - 1 ==> !Answers(run[i])
    ensures forall i :: 0 <= i < |t + run| ==> Within((t + run)[i], eps)
    ensures forall i :: 0 <= i < |t + run| - 1 ==> !Answers((t + run)[i])
  {
  }

  lemma PrefixedDials(t: Trace, run: Trace, eps: seq<string>, urls: seq<string>, passes: nat)
    requires forall i :: 0 <= i < |t| ==> !t[i].Dial?
    requires DialTargets(run) <= Repeat(eps, passes) && passes <= MAX_ATTEMPTS
    requires |eps| <= |urls| && forall u :: u in eps ==> u in urls
    ensures |DialTargets(t + run)| <= MAX_ATTEMPTS * |urls| && forall u :: u in DialTargets(t + run) ==> u in urls
  {
    NoDials(t);
    TargetsConcat(t, run);
    RepeatSize(eps, passes);
    Products(passes, |eps|, |urls|);
  }

  lemma Products(passes: nat, m: nat, n: nat)
    requires passes <= MAX_ATTEMPTS && m <= n
    ensures passes * m <= MAX_ATTEMPTS * n
  {
    assert passes * m <= MAX_ATTEMPTS * m;
  }
}
