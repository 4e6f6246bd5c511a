// The pool as a protocol: the maintain loop interleaved with checkouts, invalidations and
// configuration changes (crates/transport/src/pool.rs). Each action is one critical section.

module PoolMaintain {
  import opened Common
  import opened Pool
  import opened Ordering
  import Route

  const FUSE_LIMIT: nat := 5
  const FUSE_PAUSE: nat := 60

  datatype Config = Config(endpoints: seq<string>, token: string)

  /** The fixed settings of a pool; `fp8` is the token fingerprint, an uninterpreted function. */
  datatype Params = Params(size: nat, ttl: nat, fp8: string -> string)

  /** Where the maintain loop stands. */
  datatype Pc =
    | Purge
    | ReadConfig
    | Endpoint(i: nat)
    | Refill(i: nat, need: nat)
    | Dialing(i: nat, need: nat)
    | Fused(i: nat, since: nat)
    | Resting
    | Stopped

  datatype Dialed = Connected(conn: nat) | Unauthorized | Failed

  /**
   * What happened, in order. Published and Closed are the other side's doing: a new configuration in
   * the watch, and the watch losing its sender. The loop marks a publication seen only by waiting for
   * it; reading the configuration does not.
   */
  datatype Event =
    | DialStart(at: nat)
    | DialOk
    | Dial401(at: nat)
    | DialFailed
    | Adopt
    | FuseEnd(at: nat, byChange: bool)
    | RestEnd(seen: bool)
    | Published
    | Closed

  datatype State = State(
    stacks: Stacks, watch: Option<Config>, changed: bool, closed: bool, now: nat,
    pc: Pc, key: Option<Config>, consec401: nat, fused401: nat, log: seq<Event>)

  datatype Action =
    | Tick(dt: nat)
    | Publish(config: Option<Config>)
    | Close
    | DoCheckout(urls: seq<string>, fp: Option<string>)
    | DoInvalidate
    | Step
    | DialDone(outcome: Dialed)
    | FuseWake(byChange: bool)
    | RestWake(seen: bool)
    | Drop

  /** How many standby sessions the refill aims at for one endpoint. */
  function Target(ep: string, endpoints: seq<string>, size: nat): nat {
    if Route.Classify(ep) == Vercel then 0
    else if HasVps(endpoints) && !Route.IsNativeVps(ep) then 0
    else size
  }

  predicate HasVps(endpoints: seq<string>) { exists e :: e in endpoints && Route.IsNativeVps(e) }

  function Held(m: Stacks, ep: string): nat { if ep in m then |m[ep]| else 0 }

  function Purged(m: Stacks, p: Params, now: nat): Stacks {
    map k | k in m :: Fresh(m[k], Lens(None, now, p.ttl))
  }

  function Push(m: Stacks, ep: string, s: Session): Stacks {
    m[ep := (if ep in m then m[ep] else []) + [s]]
  }

  function Init(): State { State(map[], None, false, false, 0, Purge, None, 0, 0, []) }

  predicate Enabled(s: State, a: Action) {
    match a
    case Step => s.pc.Purge? || s.pc.ReadConfig? || s.pc.Endpoint? || s.pc.Refill?
    case DialDone(_) => s.pc.Dialing?
    case Publish(_) => !s.closed
    case FuseWake(byChange) => s.pc.Fused? && if byChange then s.changed || s.closed else s.now >= s.pc.since + FUSE_PAUSE
    case RestWake(seen) => s.pc.Resting? && (seen ==> s.changed)
    case Drop => s.pc.Purge? || s.pc.Dialing?
    case _ => true
  }

  /** Step 2 of the loop reads the watched configuration; a changed one empties the pool. */
  function Adopted(s: State): State {
    match s.watch
    case None => s.(stacks := map[], key := None, pc := Resting)
    case Some(c) =>
      if s.key == Some(c) then s.(pc := Endpoint(0))
      else s.(stacks := map[], key := Some(c), consec401 := 0, pc := Endpoint(0), log := s.log + [Adopt])
  }

  function Stepped(p: Params, s: State): State
    requires Enabled(s, Step)
    requires !s.pc.Purge? && !s.pc.ReadConfig? ==> s.key.Some?
    requires s.pc.Refill? ==> s.pc.i < |s.key.value.endpoints|
  {
    match s.pc
    case Purge => s.(stacks := Purged(s.stacks, p, s.now), pc := ReadConfig)
    case ReadConfig => Adopted(s)
    case Endpoint(i) =>
      var eps := s.key.value.endpoints;
      if i >= |eps| then s.(pc := Resting)
      else
        var target, held := Target(eps[i], eps, p.size), Held(s.stacks, eps[i]);
        s.(pc := Refill(i, if target >= held then target - held else 0))
    case Refill(i, need) =>
      if need == 0 then s.(pc := Endpoint(i + 1))
      else s.(pc := Dialing(i, need), log := s.log + [DialStart(s.now)])
  }

  function DialFinished(p: Params, s: State, outcome: Dialed): State
    requires s.pc.Dialing? && s.key.Some? && s.pc.i < |s.key.value.endpoints| && s.pc.need > 0
  {
    var ep := s.key.value.endpoints[s.pc.i];
    match outcome
    case Connected(conn) =>
      s.(stacks := Push(s.stacks, ep, Session(conn, s.now, p.fp8(s.key.value.token))),
         consec401 := 0, pc := Refill(s.pc.i, s.pc.need - 1), log := s.log + [DialOk])
    case Unauthorized =>
      var s1 := s.(consec401 := s.consec401 + 1, log := s.log + [Dial401(s.now)]);
      if s1.consec401 >= FUSE_LIMIT then
        s1.(fused401 := s.fused401 + 1, stacks := Purged(s.stacks, p, s.now), pc := Fused(s.pc.i, s.now))
      else s1.(pc := Endpoint(s.pc.i + 1))
    case Failed => s.(consec401 := 0, pc := Endpoint(s.pc.i + 1), log := s.log + [DialFailed])
  }

  /** The loop's own bookkeeping: the indices it uses are in range. */
  predicate InRange(s: State) {
    && (s.pc.Endpoint? || s.pc.Refill? || s.pc.Dialing? || s.pc.Fused? ==> s.key.Some?)
    && (s.pc.Refill? || s.pc.Dialing? || s.pc.Fused? ==> s.pc.i < |s.key.value.endpoints|)
    && (s.pc.Dialing? ==> s.pc.need > 0)
  }

  function Apply(p: Params, s: State, a: Action): State
    requires InRange(s) && Enabled(s, a)
  {
    match a
    case Tick(dt) => s.(now := s.now + dt)
    case Publish(config) => s.(watch := config, changed := true, log := s.log + [Published])
    case Close => s.(closed := true, log := s.log + [Closed])
    case DoCheckout(urls, fp) => s.(stacks := After(s.stacks, urls, Lens(fp, s.now, p.ttl)))
    case DoInvalidate => s.(stacks := map[])
    case Step => Stepped(p, s)
    case DialDone(outcome) => DialFinished(p, s, outcome)
    case FuseWake(byChange) =>
      s.(consec401 := 0, changed := s.changed && !byChange, pc := Endpoint(s.pc.i + 1),
         log := s.log + [FuseEnd(s.now, byChange)])
    case RestWake(seen) => s.(changed := s.changed && !seen, pc := Purge, log := s.log + [RestEnd(seen)])
    case Drop => s.(pc := Stopped)
  }

  // ---- what every run keeps ----

  /** Every session sits under an adopted endpoint, within its target, with the adopted token's fingerprint. */
  ghost predicate Placed(p: Params, s: State) {
    match s.key
    case None => s.stacks == map[]
    case Some(c) =>
      forall k :: k in s.stacks ==> Good(p, c, k, s.stacks[k])
  }

  ghost predicate Good(p: Params, c: Config, k: string, v: seq<Session>) {
    && k in c.endpoints
    && |v| <= Target(k, c.endpoints, p.size)
    && forall x :: x in v ==> x.fp == p.fp8(c.token)
  }

  /** What is still to be dialed fits under the target. */
  ghost predicate NeedFits(p: Params, s: State) {
    s.pc.Refill? || s.pc.Dialing? ==>
      s.key.Some? && s.pc.i < |s.key.value.endpoints| &&
      var eps := s.key.value.endpoints;
      Held(s.stacks, eps[s.pc.i]) + s.pc.need <= Target(eps[s.pc.i], eps, p.size)
  }

  /** Length of the run of 401 answers that ends the log, judged from the log alone. */
  function Streak(log: seq<Event>): nat {
    if log == [] then 0
    else
      var init := log[..|log| - 1];
      match log[|log| - 1]
      case Dial401(_) => Streak(init) + 1
      case DialOk => 0
      case DialFailed => 0
      case Adopt => 0
      case FuseEnd(_, _) => 0
      case _ => Streak(init)
  }

  /** How often five 401 answers in a row were reached. */
  function Blown(log: seq<Event>): nat {
    if log == [] then 0
    else Blown(log[..|log| - 1]) + if log[|log| - 1].Dial401? && Streak(log) >= FUSE_LIMIT then 1 else 0
  }

  predicate FromOutside(e: Event) { e.Published? || e.Closed? }

  /** A publication that no wait of the loop has marked seen, judged from the log alone. */
  function Unseen(log: seq<Event>): bool {
    if log == [] then false
    else
      var init := log[..|log| - 1];
      match log[|log| - 1]
      case Published => true
      case FuseEnd(_, byChange) => Unseen(init) && !byChange
      case RestEnd(seen) => Unseen(init) && !seen
      case _ => Unseen(init)
  }

  function SenderGone(log: seq<Event>): bool {
    if log == [] then false else log[|log| - 1].Closed? || SenderGone(log[..|log| - 1])
  }

  /** A wait for a change would end at once. */
  predicate Pending(log: seq<Event>) { Unseen(log) || SenderGone(log) }

  /** The loop's own last event. */
  function Latest(log: seq<Event>): Option<Event> {
    if log == [] then None
    else if FromOutside(log[|log| - 1]) then Latest(log[..|log| - 1])
    else Some(log[|log| - 1])
  }

  /** After a fifth 401 in a row the loop's next event is the end of a wait: a minute has passed, or a change is pending. */
  ghost predicate Fuses(log: seq<Event>) {
    forall j :: 0 <= j < |log| && Streak(log[..j]) >= FUSE_LIMIT ==> FromOutside(log[j]) || EndsWait(log, j)
  }

  predicate EndsWait(log: seq<Event>, j: nat)
    requires j < |log|
  {
    var blown := Latest(log[..j]);
    && log[j].FuseEnd?
    && blown.Some? && blown.value.Dial401?
    && if log[j].byChange then Pending(log[..j]) else log[j].at >= blown.value.at + FUSE_PAUSE
  }

  /** The loop's counters, judged from the log. */
  ghost predicate Counted(s: State) {
    && s.consec401 == Streak(s.log)
    && (s.pc.Fused? <==> s.consec401 >= FUSE_LIMIT)
    && s.consec401 <= FUSE_LIMIT
    && s.fused401 == Blown(s.log)
    && (s.pc.Fused? ==> Latest(s.log) == Some(Dial401(s.pc.since)))
  }

  predicate Stamped(e: Event) { e.DialStart? || e.Dial401? || e.FuseEnd? }

  function Moment(e: Event): nat
    requires Stamped(e)
  {
    match e case DialStart(at) => at case Dial401(at) => at case FuseEnd(at, _) => at
  }

  /** Logged moments never go back, and the clock is past them all. */
  ghost predicate Timed(log: seq<Event>, now: nat) {
    && (forall i :: 0 <= i < |log| && Stamped(log[i]) ==> Moment(log[i]) <= now)
    && (forall i, j :: 0 <= i < j < |log| && Stamped(log[i]) && Stamped(log[j]) ==> Moment(log[i]) <= Moment(log[j]))
  }

  /** What the log says of the fuse, the watch, the counters and the clock. */
  ghost predicate Logged(s: State) {
    && Fuses(s.log) && Counted(s) && Timed(s.log, s.now)
    && s.changed == Unseen(s.log) && s.closed == SenderGone(s.log)
  }

  ghost predicate Pooled(p: Params, s: State) { InRange(s) && Placed(p, s) && NeedFits(p, s) }

  ghost predicate Safe(p: Params, s: State) { Pooled(p, s) && Logged(s) }

  lemma StreakStep(log: seq<Event>, e: Event)
    ensures Streak(log + [e]) ==
      if e.Dial401? then Streak(log) + 1
      else if e.DialOk? || e.DialFailed? || e.Adopt? || e.FuseEnd? then 0
      else Streak(log)
    ensures Blown(log + [e]) == Blown(log) + if e.Dial401? && Streak(log) + 1 >= FUSE_LIMIT then 1 else 0
  {
    assert (log + [e])[..|log|] == log;
  }

  lemma FusesStep(log: seq<Event>, e: Event)
    requires Fuses(log)
    requires Streak(log) >= FUSE_LIMIT ==> FromOutside(e) || EndsWait(log + [e], |log|)
    ensures Fuses(log + [e])
  {
    var more := log + [e];
    forall j | 0 <= j < |more| && Streak(more[..j]) >= FUSE_LIMIT
      ensures FromOutside(more[j]) || EndsWait(more, j)
    {
      assert more[..j] == log[..j];
      if j == |log| {
        assert log[..j] == log;
      }
    }
  }

  /** One more event, as the watch and the loop's latest event see it. */
  lemma WatchStep(log: seq<Event>, e: Event)
    ensures Unseen(log + [e]) == (e.Published? || (Unseen(log) && !(e.FuseEnd? && e.byChange) && !(e.RestEnd? && e.seen)))
    ensures SenderGone(log + [e]) == (e.Closed? || SenderGone(log))
    ensures Latest(log + [e]) == if FromOutside(e) then Latest(log) else Some(e)
    ensures (log + [e])[..|log|] == log
  {
    assert (log + [e])[..|log|] == log;
  }

  /** Shrinking stacks without inventing sessions keeps placement and room. */
  lemma ShrinkKeeps(p: Params, s: State, stacks: Stacks)
    requires Placed(p, s) && NeedFits(p, s)
    requires stacks.Keys <= s.stacks.Keys
    requires forall k :: k in stacks ==> |stacks[k]| <= |s.stacks[k]| && forall x :: x in stacks[k] ==> x in s.stacks[k]
    ensures Placed(p, s.(stacks := stacks)) && NeedFits(p, s.(stacks := stacks))
  {
    if s.key.Some? {
      forall k | k in stacks
        ensures Good(p, s.key.value, k, stacks[k])
      {
        assert Good(p, s.key.value, k, s.stacks[k]);
      }
    } else {
      assert stacks == map[];
    }
  }

  lemma PurgeShrinks(p: Params, s: State)
    ensures var m := Purged(s.stacks, p, s.now);
      m.Keys == s.stacks.Keys && forall k :: k in m ==> |m[k]| <= |s.stacks[k]| && forall x :: x in m[k] ==> x in s.stacks[k]
  {
    forall k | k in s.stacks
      ensures forall x :: x in Fresh(s.stacks[k], Lens(None, s.now, p.ttl)) ==> x in s.stacks[k]
    {
      FreshMembers(s.stacks[k], Lens(None, s.now, p.ttl));
    }
  }

  lemma CheckoutShrinks(s: State, urls: seq<string>, q: Lens)
    ensures var m := After(s.stacks, urls, q);
      m.Keys <= s.stacks.Keys && forall k :: k in m ==> |m[k]| <= |s.stacks[k]| && forall x :: x in m[k] ==> x in s.stacks[k]
  {
    var m := After(s.stacks, urls, q);
    assert m.Keys <= s.stacks.Keys;
    forall k | k in m
      ensures |m[k]| <= |s.stacks[k]| && forall x :: x in m[k] ==> x in s.stacks[k]
    {
      AfterShrinks(s.stacks, urls, q, k);
    }
  }

  lemma StepKeepsPooled(p: Params, s: State)
    requires Pooled(p, s) && Enabled(s, Step)
    ensures Pooled(p, Stepped(p, s))
  {
    match s.pc
    case Purge =>
      PurgeShrinks(p, s);
      ShrinkKeeps(p, s, Purged(s.stacks, p, s.now));
    case ReadConfig =>
    case Endpoint(i) => NeedKeepsPooled(p, s);
    case Refill(i, need) => StartKeepsPooled(p, s);
  }

  lemma NeedKeepsPooled(p: Params, s: State)
    requires Pooled(p, s) && s.pc.Endpoint?
    ensures Pooled(p, Stepped(p, s))
  {
    var eps := s.key.value.endpoints;
    if s.pc.i < |eps| && eps[s.pc.i] in s.stacks {
      assert Good(p, s.key.value, eps[s.pc.i], s.stacks[eps[s.pc.i]]);
    }
  }

  lemma StartKeepsPooled(p: Params, s: State)
    requires Pooled(p, s) && s.pc.Refill?
    ensures Pooled(p, Stepped(p, s))
  {
  }

  lemma PushKeeps(p: Params, s: State, conn: nat)
    requires Pooled(p, s) && s.pc.Dialing?
    ensures Pooled(p, DialFinished(p, s, Connected(conn)))
  {
    var c := s.key.value;
    var ep := c.endpoints[s.pc.i];
    var s' := DialFinished(p, s, Connected(conn));
    forall k | k in s'.stacks
      ensures Good(p, c, k, s'.stacks[k])
    {
      if k in s.stacks {
        assert Good(p, c, k, s.stacks[k]);
      }
    }
  }

  lemma RefusedKeeps(p: Params, s: State, outcome: Dialed)
    requires Pooled(p, s) && s.pc.Dialing? && !outcome.Connected?
    ensures Pooled(p, DialFinished(p, s, outcome))
  {
    PurgeShrinks(p, s);
    ShrinkKeeps(p, s, Purged(s.stacks, p, s.now));
  }

  lemma ActionKeepsPooled(p: Params, s: State, a: Action)
    requires Pooled(p, s) && Enabled(s, a)
    ensures Pooled(p, Apply(p, s, a))
  {
    match a
    case DoCheckout(urls, fp) =>
      var q := Lens(fp, s.now, p.ttl);
      CheckoutShrinks(s, urls, q);
      ShrinkKeeps(p, s, After(s.stacks, urls, q));
    case DoInvalidate =>
      ShrinkKeeps(p, s, map[]);
    case Step => StepKeepsPooled(p, s);
    case DialDone(outcome) =>
      if outcome.Connected? {
        PushKeeps(p, s, outcome.conn);
      } else {
        RefusedKeeps(p, s, outcome);
      }
    case _ =>
  }

  /** A step that logs nothing and leaves counters, watch and fuse alone. */
  lemma SilentStep(s: State, t: State)
    requires Logged(s) && t.log == s.log && t.consec401 == s.consec401 && t.fused401 == s.fused401
    requires t.changed == s.changed && t.closed == s.closed && t.now >= s.now
    requires t.pc == s.pc || (!s.pc.Fused? && !t.pc.Fused?)
    ensures Logged(t)
  {
  }

  lemma TimedStep(log: seq<Event>, e: Event, now: nat)
    requires Timed(log, now) && (Stamped(e) ==> Moment(e) == now)
    ensures Timed(log + [e], now)
  {
  }

  /** A step that logs one event. */
  lemma LoggedStep(s: State, t: State, e: Event)
    requires Logged(s) && t.log == s.log + [e] && t.now == s.now && (Stamped(e) ==> Moment(e) == s.now)
    requires s.pc.Fused? ==> FromOutside(e) || EndsWait(t.log, |s.log|)
    requires t.changed == (e.Published? || (s.changed && !(e.FuseEnd? && e.byChange) && !(e.RestEnd? && e.seen)))
    requires t.closed == (e.Closed? || s.closed)
    requires t.consec401 ==
      if e.Dial401? then s.consec401 + 1
      else if e.DialOk? || e.DialFailed? || e.Adopt? || e.FuseEnd? then 0
      else s.consec401
    requires t.fused401 == s.fused401 + if e.Dial401? && t.consec401 >= FUSE_LIMIT then 1 else 0
    requires t.pc.Fused? <==> t.consec401 >= FUSE_LIMIT
    requires t.pc.Fused? ==> if FromOutside(e) then t.pc == s.pc else e == Dial401(t.pc.since)
    ensures Logged(t)
  {
    StreakStep(s.log, e);
    WatchStep(s.log, e);
    FusesStep(s.log, e);
    TimedStep(s.log, e, s.now);
  }

  lemma StepKeepsLogged(p: Params, s: State)
    requires InRange(s) && Logged(s) && Enabled(s, Step)
    ensures Logged(Stepped(p, s))
  {
    match s.pc
    case Purge => SilentStep(s, Stepped(p, s));
    case ReadConfig => AdoptKeepsLogged(s);
    case Endpoint(_) => SilentStep(s, Stepped(p, s));
    case Refill(i, need) =>
      if need == 0 {
        SilentStep(s, Stepped(p, s));
      } else {
        LoggedStep(s, Stepped(p, s), DialStart(s.now));
      }
  }

  lemma AdoptKeepsLogged(s: State)
    requires Logged(s) && s.pc.ReadConfig?
    ensures Logged(Adopted(s))
  {
    if s.watch.None? || s.key == s.watch {
      SilentStep(s, Adopted(s));
    } else {
      LoggedStep(s, Adopted(s), Adopt);
    }
  }

  lemma DialKeepsLogged(p: Params, s: State, outcome: Dialed)
    requires InRange(s) && Logged(s) && s.pc.Dialing?
    ensures Logged(DialFinished(p, s, outcome))
  {
    var e := match outcome { case Connected(_) => DialOk case Unauthorized => Dial401(s.now) case Failed => DialFailed };
    LoggedStep(s, DialFinished(p, s, outcome), e);
  }

  lemma FuseKeepsLogged(p: Params, s: State, byChange: bool)
    requires InRange(s) && Logged(s) && Enabled(s, FuseWake(byChange))
    ensures Logged(Apply(p, s, FuseWake(byChange)))
  {
    var e := FuseEnd(s.now, byChange);
    WatchStep(s.log, e);
    LoggedStep(s, Apply(p, s, FuseWake(byChange)), e);
  }

  lemma ActionKeepsLogged(p: Params, s: State, a: Action)
    requires InRange(s) && Logged(s) && Enabled(s, a)
    ensures Logged(Apply(p, s, a))
  {
    match a
    case Publish(_) => LoggedStep(s, Apply(p, s, a), Published);
    case Close => LoggedStep(s, Apply(p, s, a), Closed);
    case RestWake(seen) => LoggedStep(s, Apply(p, s, a), RestEnd(seen));
    case Step => StepKeepsLogged(p, s);
    case DialDone(outcome) => DialKeepsLogged(p, s, outcome);
    case FuseWake(byChange) => FuseKeepsLogged(p, s, byChange);
    case _ => SilentStep(s, Apply(p, s, a));
  }

  /** The states along a run; the run is valid if each action is enabled where it happens. */
  ghost predicate Run(p: Params, states: seq<State>, actions: seq<Action>) {
    && |states| == |actions| + 1
    && states[0] == Init()
    && forall i :: 0 <= i < |actions| ==>
      InRange(states[i]) && Enabled(states[i], actions[i]) && states[i + 1] == Apply(p, states[i], actions[i])
  }

  /** Safety of every state of every interleaving. */
  lemma {:induction false} RunIsSafe(p: Params, states: seq<State>, actions: seq<Action>, n: nat)
    requires Run(p, states, actions) && n < |states|
    ensures Safe(p, states[n])
  {
    if n > 0 {
      RunIsSafe(p, states, actions, n - 1);
      ActionKeepsPooled(p, states[n - 1], actions[n - 1]);
      ActionKeepsLogged(p, states[n - 1], actions[n - 1]);
    }
  }

  /** A dial's outcome or an adoption that ends a row of 401 answers, and the end of a wait. */
  predicate EndsRow(e: Event) { e == DialOk || e == DialFailed || e == Adopt || e.FuseEnd? }

  function Count401(log: seq<Event>): nat {
    if log == [] then 0 else Count401(log[..|log| - 1]) + if log[|log| - 1].Dial401? then 1 else 0
  }

  /** The streak is the number of 401 answers since the last success, other failure, adoption or end of a wait. */
  lemma {:induction false} StreakMeaning(log: seq<Event>) returns (start: nat)
    ensures start <= |log| && (start == 0 || EndsRow(log[start - 1])) && (forall k :: start <= k < |log| ==> !EndsRow(log[k]))
    ensures Streak(log) == Count401(log[start..])
  {
    if log == [] {
      start := 0;
    } else {
      var n := |log| - 1;
      if EndsRow(log[n]) {
        start := n + 1;
        assert log[start..] == [];
      } else {
        start := StreakMeaning(log[..n]);
        assert log[start..][..n - start] == log[..n][start..];
      }
    }
  }

  // ---- the fuse ----

  /** While only the other side acts, the streak and the latest event stay; anything it does is pending. */
  lemma {:induction false} OutsideOnly(log: seq<Event>, m: nat, e: nat)
    requires m <= e <= |log| && forall k :: m <= k < e ==> FromOutside(log[k])
    ensures Streak(log[..e]) == Streak(log[..m]) && Latest(log[..e]) == Latest(log[..m])
    ensures Pending(log[..e]) <==> Pending(log[..m]) || m < e
  {
    if m < e {
      OutsideOnly(log, m, e - 1);
      assert log[..e] == log[..e - 1] + [log[e - 1]];
      StreakStep(log[..e - 1], log[e - 1]);
      WatchStep(log[..e - 1], log[e - 1]);
    }
  }

  /** The loop's first own event after position i. */
  lemma NextOwn(log: seq<Event>, i: nat, j: nat) returns (e: nat)
    requires i < j < |log| && !FromOutside(log[j])
    ensures i < e <= j && !FromOutside(log[e]) && forall k :: i < k < e ==> FromOutside(log[k])
  {
    e := i + 1;
    while FromOutside(log[e])
      invariant i < e <= j && forall k :: i < k < e ==> FromOutside(log[k])
      decreases j - e
    {
      e := e + 1;
    }
  }

  /**
   * In every run, between a fifth 401 in a row at position i and any later dial at position j lies the
   * end e of a wait, with nothing but the other side's doing before it. The dial comes at least a minute
   * after the 401, unless a change was pending when the fuse blew or came during the wait.
   */
  lemma DialAfterFuse(p: Params, states: seq<State>, actions: seq<Action>, n: nat, i: nat, j: nat) returns (e: nat)
    requires Run(p, states, actions) && n < |states| && i < j < |states[n].log|
    requires states[n].log[i].Dial401? && Streak(states[n].log[..i + 1]) >= 5 && states[n].log[j].DialStart?
    ensures var log := states[n].log;
      && i < e < j && log[e].FuseEnd? && (forall k :: i < k < e ==> FromOutside(log[k]))
      && log[i].at <= log[e].at <= log[j].at
      && (if log[e].byChange then Pending(log[..i + 1]) || exists k :: i < k < e && FromOutside(log[k])
          else log[e].at >= log[i].at + 60)
    ensures var log := states[n].log;
      log[j].at >= log[i].at + 60 || Pending(log[..i + 1]) || exists k :: i < k < e && FromOutside(log[k])
  {
    var log := states[n].log;
    RunIsSafe(p, states, actions, n);
    e := NextOwn(log, i, j);
    OutsideOnly(log, i + 1, e);
    assert log[..i + 1][..i] == log[..i];
    assert Latest(log[..i + 1]) == Some(log[i]);
    assert EndsWait(log, e);
    assert i + 1 < e ==> FromOutside(log[i + 1]);
  }

  /**
   * The exact condition, at every reachable moment of a wait: it can end now if and only if its minute
   * is over, a change was pending when the fuse blew, at position i, or one has come since.
   */
  lemma WaitCutShortIff(p: Params, states: seq<State>, actions: seq<Action>, n: nat, i: nat)
    requires Run(p, states, actions) && n < |states| && states[n].pc.Fused?
    requires i < |states[n].log| && states[n].log[i].Dial401?
    requires forall k :: i < k < |states[n].log| ==> FromOutside(states[n].log[k])
    ensures Enabled(states[n], FuseWake(true)) || Enabled(states[n], FuseWake(false)) <==>
      states[n].now >= states[n].log[i].at + 60 || Pending(states[n].log[..i + 1]) || exists k :: i < k < |states[n].log| && FromOutside(states[n].log[k])
  {
    var log := states[n].log;
    RunIsSafe(p, states, actions, n);
    OutsideOnly(log, i + 1, |log|);
    assert log[..|log|] == log;
    assert i + 1 < |log| ==> FromOutside(log[i + 1]);
  }

  ghost predicate Reachable(p: Params, s: State) {
    exists states, actions :: Run(p, states, actions) && states[|states| - 1] == s
  }

  lemma ReachNext(p: Params, s: State, a: Action)
    requires Reachable(p, s) && Enabled(s, a)
    ensures InRange(s) && Reachable(p, Apply(p, s, a))
  {
    var states, actions :| Run(p, states, actions) && states[|states| - 1] == s;
    RunIsSafe(p, states, actions, |states| - 1);
    var t := Apply(p, s, a);
    assert Run(p, states + [t], actions + [a]);
    assert (states + [t])[|states + [t]| - 1] == t;
  }

  /** The state of a pass in which every dial so far answered 401 at time 0. */
  ghost predicate Refusing(s: State, c: Config, i: nat) {
    s.pc == Endpoint(i) && s.key == Some(c) && s.watch == Some(c) && s.stacks == map[] && s.now == 0
    && s.changed && s.consec401 == i % 5 && i < |c.endpoints|
  }

  lemma RefusedOnce(p: Params, s: State, c: Config, i: nat) returns (t: State)
    requires Reachable(p, s) && Refusing(s, c, i) && i < 5 && Target(c.endpoints[i], c.endpoints, p.size) >= 1
    ensures Reachable(p, t) && t.log == s.log + [DialStart(0), Dial401(0)]
    ensures t.key == Some(c) && t.watch == Some(c) && t.stacks == map[] && t.now == 0 && t.changed
    ensures t.consec401 == i + 1 && t.pc == if i == 4 then Fused(i, 0) else Endpoint(i + 1)
  {
    ReachNext(p, s, Step);
    var s1 := Apply(p, s, Step);
    ReachNext(p, s1, Step);
    var s2 := Apply(p, s1, Step);
    ReachNext(p, s2, DialDone(Unauthorized));
    t := Apply(p, s2, DialDone(Unauthorized));
    assert Purged(map[], p, 0) == map[];
  }

  /** Only the first event is the other side's: one publication. */
  ghost predicate PublishedOnce(log: seq<Event>) {
    log != [] && log[0] == Published && forall k :: 0 < k < |log| ==> !FromOutside(log[k])
  }

  /** Five refusals in a row blow the fuse. */
  lemma {:induction false} RefusedUntilFused(p: Params, s: State, c: Config, i: nat) returns (t: State)
    requires Reachable(p, s) && Refusing(s, c, i) && i < 5 && |c.endpoints| >= 6 && PublishedOnce(s.log)
    requires forall k :: 0 <= k < 6 ==> Target(c.endpoints[k], c.endpoints, p.size) >= 1
    ensures Reachable(p, t) && t.pc == Fused(4, 0) && t.key == Some(c) && t.watch == Some(c) && t.stacks == map[]
    ensures t.now == 0 && t.changed && t.consec401 == 5 && PublishedOnce(t.log) && t.log[|t.log| - 1] == Dial401(0)
    decreases 5 - i
  {
    t := RefusedOnce(p, s, c, i);
    if i < 4 {
      t := RefusedUntilFused(p, t, c, i + 1);
    }
  }

  /**
   * A configuration published once, adopted at once and never changed again still counts as pending.
   * So with six endpoints that answer 401, the sixth dial follows the fifth 401 without any wait.
   */
  lemma AdoptedChangeCutsWait(p: Params, c: Config) returns (s: State)
    requires |c.endpoints| >= 6 && forall k :: 0 <= k < 6 ==> Target(c.endpoints[k], c.endpoints, p.size) >= 1
    ensures Reachable(p, s) && s.now == 0 && s.watch == s.key == Some(c) && PublishedOnce(s.log)
    ensures |s.log| > 4 && Streak(s.log[..|s.log| - 2]) == 5
    ensures s.log[|s.log| - 3..] == [Dial401(0), FuseEnd(0, true), DialStart(0)]
  {
    s := Adopting(p, c);
    var blown := RefusedUntilFused(p, s, c, 0);
    StreakIsCounted(p, blown);
    s := DialAtOnce(p, blown, c);
    assert s.log[..|s.log| - 2] == blown.log;
  }

  lemma StreakIsCounted(p: Params, s: State)
    requires Reachable(p, s)
    ensures Streak(s.log) == s.consec401
    ensures s.consec401 == 5 ==> |s.log| > 2
  {
    var states, actions :| Run(p, states, actions) && states[|states| - 1] == s;
    RunIsSafe(p, states, actions, |states| - 1);
    StreakBound(s.log);
  }

  lemma {:induction false} StreakBound(log: seq<Event>)
    ensures Streak(log) <= |log|
  {
    if log != [] {
      StreakBound(log[..|log| - 1]);
    }
  }

  /** Such a configuration: six times an endpoint that is neither a VPS nor Vercel. */
  lemma SixPlainEndpoints(p: Params, token: string) returns (c: Config)
    requires p.size >= 1
    ensures |c.endpoints| == 6 && forall k :: 0 <= k < 6 ==> Target(c.endpoints[k], c.endpoints, p.size) == p.size
  {
    c := Config(["a", "a", "a", "a", "a", "a"], token);
    assert !Route.IsNativeVps("a") && Route.Classify("a") == Cf;
    assert forall e :: e in c.endpoints ==> e == "a";
  }

  lemma Adopting(p: Params, c: Config) returns (s: State)
    requires c.endpoints != []
    ensures Reachable(p, s) && Refusing(s, c, 0) && s.log == [Published, Adopt]
  {
    assert Run(p, [Init()], []);
    assert Reachable(p, Init()) by {
      assert [Init()][|[Init()]| - 1] == Init();
    }
    ReachNext(p, Init(), Publish(Some(c)));
    s := Apply(p, Init(), Publish(Some(c)));
    ReachNext(p, s, Step);
    s := Apply(p, s, Step);
    ReachNext(p, s, Step);
    s := Apply(p, s, Step);
  }

  lemma DialAtOnce(p: Params, s: State, c: Config) returns (t: State)
    requires Reachable(p, s) && s.pc == Fused(4, 0) && s.now == 0 && s.changed && s.key == Some(c) && s.watch == Some(c)
    requires s.stacks == map[] && |c.endpoints| >= 6 && Target(c.endpoints[5], c.endpoints, p.size) >= 1
    ensures Reachable(p, t) && t.now == 0 && t.key == Some(c) && t.watch == Some(c)
    ensures t.log == s.log + [FuseEnd(0, true), DialStart(0)]
  {
    ReachNext(p, s, FuseWake(true));
    var s1 := Apply(p, s, FuseWake(true));
    ReachNext(p, s1, Step);
    var s2 := Apply(p, s1, Step);
    ReachNext(p, s2, Step);
    t := Apply(p, s2, Step);
  }

  /** With a VPS configured no run ever holds a standby session at a CF endpoint, and never one at Vercel. */
  lemma PooledEgress(p: Params, states: seq<State>, actions: seq<Action>, n: nat, k: string)
    requires Run(p, states, actions) && n < |states|
    requires k in states[n].stacks && states[n].stacks[k] != []
    ensures states[n].key.Some? && k in states[n].key.value.endpoints && |states[n].stacks[k]| <= p.size
    ensures Route.Classify(k) != Vercel
    ensures (exists e :: e in states[n].key.value.endpoints && Route.Classify(e) == NativeVps) ==> Route.Classify(k) == NativeVps
    ensures forall x :: x in states[n].stacks[k] ==> x.fp == p.fp8(states[n].key.value.token)
  {
    RunIsSafe(p, states, actions, n);
    assert Good(p, states[n].key.value, k, states[n].stacks[k]);
  }

  /** A dial that connects puts its session, born now and marked with the adopted token, on top of its endpoint's stack. */
  lemma ConnectedIsPushed(p: Params, s: State, conn: nat)
    requires InRange(s) && s.pc.Dialing?
    ensures var t, ep := Apply(p, s, DialDone(Connected(conn))), s.key.value.endpoints[s.pc.i];
      && ep in t.stacks && t.stacks[ep] == (if ep in s.stacks then s.stacks[ep] else []) + [Session(conn, s.now, p.fp8(s.key.value.token))]
      && (forall k :: k != ep ==> (k in t.stacks <==> k in s.stacks) && (k in t.stacks ==> t.stacks[k] == s.stacks[k]))
  {
  }

  /** The purge drops exactly the sessions whose age has reached the time to live. */
  lemma PurgedExactly(p: Params, s: State, k: string)
    requires s.pc.Purge? && k in s.stacks
    ensures k in Stepped(p, s).stacks
    ensures forall x :: x in Stepped(p, s).stacks[k] <==> x in s.stacks[k] && p.ttl > 0 && s.now < x.born + p.ttl
  {
    FreshExactly(s.stacks[k], Lens(None, s.now, p.ttl));
  }

  // ---- an undisturbed refill ----

  /** How much of a pass is left to do, for the recursion below. */
  function Remaining(s: State): (nat, nat, nat)
    requires InRange(s)
  {
    match s.pc
    case Endpoint(i) => (if i < |s.key.value.endpoints| then |s.key.value.endpoints| - i else 0, 2, 0)
    case Refill(i, need) => (|s.key.value.endpoints| - i, 1, 2 * need + 1)
    case Dialing(i, need) => (|s.key.value.endpoints| - i, 1, 2 * need)
    case _ => (0, 0, 0)
  }

  /** How a dial at the endpoint with a given index ends: with a connection, or not. */
  type Dials = nat -> Option<nat>

  function OutcomeAt(dials: Dials, i: nat): Dialed { if dials(i).Some? then Connected(dials(i).value) else Failed }

  predicate InPass(s: State) { InRange(s) && (s.pc.Endpoint? || s.pc.Refill? || s.pc.Dialing?) }

  /** What a pass does next when nobody else touches the pool. */
  function Next(s: State, dials: Dials): Action
    requires InPass(s)
  {
    if s.pc.Dialing? then DialDone(OutcomeAt(dials, s.pc.i)) else Step
  }

  /** The rest of a pass in which nobody else touches the pool. */
  function Refilled(p: Params, s: State, dials: Dials): State
    requires InPass(s)
    decreases Remaining(s).0, Remaining(s).1, Remaining(s).2
  {
    var t := Apply(p, s, Next(s, dials));
    if s.pc.Endpoint? && s.pc.i >= |s.key.value.endpoints| then t else Refilled(p, t, dials)
  }

  /** The endpoints passed whose dials connect are full. */
  ghost predicate FullUpTo(p: Params, s: State, n: nat, dials: Dials)
    requires s.key.Some?
  {
    forall j :: 0 <= j < n && j < |s.key.value.endpoints| && dials(j).Some? ==> FullAt(p, s, j)
  }

  ghost predicate FullAt(p: Params, s: State, j: nat)
    requires s.key.Some? && j < |s.key.value.endpoints|
  {
    var eps := s.key.value.endpoints;
    Held(s.stacks, eps[j]) == Target(eps[j], eps, p.size)
  }

  /** The endpoint at hand will be full once what is needed has been dialed. */
  ghost predicate NeedFills(p: Params, s: State) {
    s.pc.Refill? || s.pc.Dialing? ==>
      s.key.Some? && s.pc.i < |s.key.value.endpoints| &&
      var eps := s.key.value.endpoints;
      Held(s.stacks, eps[s.pc.i]) + s.pc.need == Target(eps[s.pc.i], eps, p.size)
  }

  lemma FillStep(p: Params, s: State, dials: Dials)
    requires Pooled(p, s) && InPass(s) && s.pc.i < |s.key.value.endpoints|
    requires FullUpTo(p, s, s.pc.i, dials) && NeedFills(p, s)
    ensures var t := Apply(p, s, Next(s, dials));
      InPass(t) && t.key == s.key && FullUpTo(p, t, t.pc.i, dials) && NeedFills(p, t)
  {
    var t := Apply(p, s, Next(s, dials));
    var eps := s.key.value.endpoints;
    var ep := eps[s.pc.i];
    if ep in s.stacks {
      assert Good(p, s.key.value, ep, s.stacks[ep]);
    }
    forall j | 0 <= j < t.pc.i && j < |eps| && dials(j).Some?
      ensures FullAt(p, t, j)
    {
      if j < s.pc.i {
        assert FullAt(p, s, j);
      }
    }
  }

  /** Such a pass ends with every endpoint whose dials connect filled exactly to its target. */
  lemma {:induction false} RefillFills(p: Params, s: State, dials: Dials)
    requires Pooled(p, s) && InPass(s)
    requires FullUpTo(p, s, s.pc.i, dials) && NeedFills(p, s)
    ensures var t := Refilled(p, s, dials);
      t.pc == Resting && t.key == s.key && FullUpTo(p, t, |s.key.value.endpoints|, dials)
    decreases Remaining(s).0, Remaining(s).1, Remaining(s).2
  {
    if s.pc.Endpoint? && s.pc.i >= |s.key.value.endpoints| {
      var t := Refilled(p, s, dials);
      forall j | 0 <= j < |s.key.value.endpoints| && dials(j).Some?
        ensures FullAt(p, t, j)
      {
        assert FullAt(p, s, j);
      }
    } else {
      ActionKeepsPooled(p, s, Next(s, dials));
      FillStep(p, s, dials);
      RefillFills(p, Apply(p, s, Next(s, dials)), dials);
    }
  }

  /** An endpoint whose dials all fail keeps what it holds. */
  lemma {:induction false} FailingKeeps(p: Params, s: State, dials: Dials, ep: string)
    requires InPass(s)
    requires forall j :: 0 <= j < |s.key.value.endpoints| && s.key.value.endpoints[j] == ep ==> dials(j).None?
    ensures Held(Refilled(p, s, dials).stacks, ep) == Held(s.stacks, ep)
    decreases Remaining(s).0, Remaining(s).1, Remaining(s).2
  {
    if s.pc.Endpoint? && s.pc.i >= |s.key.value.endpoints| {
    } else {
      FailingKeeps(p, Apply(p, s, Next(s, dials)), dials, ep);
    }
  }

  /** What an endpoint should hold, by its class. */
  ghost predicate RightlyHeld(p: Params, eps: seq<string>, ep: string, held: nat) {
    && (Route.Classify(ep) == NativeVps ==> held == p.size)
    && (Route.Classify(ep) == Vercel ==> held == 0)
    && (Route.Classify(ep) == Cf && (exists e :: e in eps && Route.Classify(e) == NativeVps) ==> held == 0)
    && (Route.Classify(ep) == Cf && (forall e :: e in eps ==> Route.Classify(e) != NativeVps) ==> held == p.size)
  }

  /**
   * A pass that nobody disturbs, from its reading of configuration c on, with every dial ending as
   * `dials` says for its endpoint. An endpoint that connects ends with: nothing if it is Vercel; nothing
   * if it is CF while some VPS is configured; and otherwise the whole pool size, in particular at every
   * VPS. One that never connects keeps what it held under an unchanged configuration, and has nothing
   * under a changed one; it costs no other endpoint its sessions.
   */
  lemma PassFills(p: Params, s: State, c: Config, dials: Dials, ep: string)
    requires Pooled(p, s) && s.pc == ReadConfig && s.watch == Some(c) && ep in c.endpoints
    ensures InPass(Apply(p, s, Step))
    ensures var m := Refilled(p, Apply(p, s, Step), dials).stacks;
      var held := if ep in m then |m[ep]| else 0;
      if exists j :: 0 <= j < |c.endpoints| && c.endpoints[j] == ep && dials(j).Some? then RightlyHeld(p, c.endpoints, ep, held)
      else held == if s.key == Some(c) && ep in s.stacks then |s.stacks[ep]| else 0
  {
    var s0 := Apply(p, s, Step);
    ActionKeepsPooled(p, s, Step);
    RefillFills(p, s0, dials);
    var eps := c.endpoints;
    if j :| 0 <= j < |eps| && eps[j] == ep && dials(j).Some? {
      assert FullAt(p, Refilled(p, s0, dials), j);
      assert forall e :: Route.Classify(e) == NativeVps <==> Route.IsNativeVps(e);
    } else {
      FailingKeeps(p, s0, dials, ep);
    }
  }
}
