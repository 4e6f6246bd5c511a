// Byte quotas of the gate: one counter per user, charged by any number of concurrent pumps
// (crates/gate-server/src/connect_proxy.rs, crates/gate-server/src/lib.rs).

module Meter {
  import opened Common
  import opened Sums

  type Counters = map<string, nat>

  function Used(used: Counters, uid: string): nat { if uid in used then used[uid] else 0 }

  /** Which of the two data planes a connection uses. */
  datatype Plane = ConnectPlane | WsPlane

  /** An authenticated caller: no user in single-password mode, no quota for an administrator. */
  datatype Principal = Principal(uid: Option<string>, quota: Option<nat>)

  /** The claims of a verified user token. */
  datatype Claims = Claims(sub: string, role: string, quotaBytes: nat)

  /** The principal of a user token: the role alone makes an administrator, who has no quota. */
  function PrincipalOf(c: Claims): (p: Principal)
    ensures p.uid == Some(c.sub) && (c.role == "admin" ==> p.quota == None) && (c.role != "admin" ==> p.quota == Some(c.quotaBytes))
  {
    Principal(Some(c.sub), if c.role == "admin" then None else Some(c.quotaBytes))
  }

  predicate Metered(p: Principal) { p.uid.Some? && p.quota.Some? }

  /** The user's counter is at or over the quota. */
  predicate Exhausted(used: Counters, p: Principal) {
    Metered(p) && Used(used, p.uid.value) >= p.quota.value
  }

  /**
   * A charge reaches the counter: on the CONNECT plane for metered users, whose counter is created on
   * demand; on the WS plane for every user that has a counter.
   */
  predicate Counts(used: Counters, plane: Plane, p: Principal) {
    match plane
    case ConnectPlane => Metered(p)
    case WsPlane => p.uid.Some? && p.uid.value in used
  }

  function AfterCharge(used: Counters, plane: Plane, p: Principal, n: nat): Counters {
    if Counts(used, plane, p) then used[p.uid.value := Used(used, p.uid.value) + n] else used
  }

  /** The charge finds the quota reached, and the pump stops. */
  predicate Lands(used: Counters, plane: Plane, p: Principal, n: nat) {
    Metered(p) && (if Counts(used, plane, p) then Used(used, p.uid.value) + n else 0) >= p.quota.value
  }

  /** The counters as an admission leaves them: the WS plane creates a metered user's counter. */
  function AfterAdmission(used: Counters, plane: Plane, p: Principal): Counters {
    if plane.WsPlane? && Metered(p) then used[p.uid.value := Used(used, p.uid.value)] else used
  }

  /** The shared counters of the gate. */
  class Gate {
    var used: Counters

    constructor ()
      ensures used == map[]
    {
      used := map[];
    }

    method AdmitConnect(p: Principal) returns (ok: bool)
      ensures ok <==> !Exhausted(used, p)
      ensures !ok <==> p.uid.Some? && p.quota.Some? && (if p.uid.value in used then used[p.uid.value] else 0) >= p.quota.value
      ensures AfterAdmission(used, ConnectPlane, p) == used
    {
      ok := true;
      if p.uid.Some? && p.quota.Some? {
        var n := if p.uid.value in used then used[p.uid.value] else 0;
        if n >= p.quota.value {
          ok := false;
        }
      }
    }

    method AdmitWs(p: Principal) returns (ok: bool)
      modifies this
      ensures used == AfterAdmission(old(used), WsPlane, p)
      ensures ok <==> !Exhausted(old(used), p)
    {
      ok := true;
      if p.uid.Some? && p.quota.Some? {
        if p.uid.value !in used {
          used := used[p.uid.value := 0];
        }
        ok := used[p.uid.value] < p.quota.value;
      }
      assert forall u :: u in old(used) ==> old(used)[u := old(used)[u]] == old(used);
    }

    method ChargeConnect(p: Principal, n: nat) returns (exceeded: bool)
      modifies this
      ensures used == AfterCharge(old(used), ConnectPlane, p, n)
      ensures exceeded <==> Lands(old(used), ConnectPlane, p, n)
      ensures p.uid.Some? && p.quota.Some? ==> (
        var total := (if p.uid.value in old(used) then old(used)[p.uid.value] else 0) + n;
        used == old(used)[p.uid.value := total] && (exceeded <==> total >= p.quota.value))
      ensures p.uid.None? || p.quota.None? ==> used == old(used) && !exceeded
    {
      if p.uid.None? || p.quota.None? {
        return false;
      }
      var uid := p.uid.value;
      if uid !in used {
        used := used[uid := 0];
      }
      var total := used[uid] + n;
      used := used[uid := total];
      exceeded := total >= p.quota.value;
    }

    method ChargeWs(p: Principal, n: nat) returns (exceeded: bool)
      modifies this
      ensures used == AfterCharge(old(used), WsPlane, p, n)
      ensures exceeded <==> Lands(old(used), WsPlane, p, n)
      ensures p.uid.Some? && p.uid.value in old(used) ==> (
        var total := old(used)[p.uid.value] + n;
        used == old(used)[p.uid.value := total] && (exceeded <==> p.quota.Some? && total >= p.quota.value))
      ensures p.uid.None? || p.uid.value !in old(used) ==> used == old(used)
    {
      exceeded := false;
      if p.uid.Some? {
        var uid, total := p.uid.value, 0;
        if uid in used {
          total := used[uid] + n;
          used := used[uid := total];
        }
        if p.quota.Some? && total >= p.quota.value {
          exceeded := true;
        }
      }
    }
  }

  // ---- one pump ----

  /** What one round of a pump meets; others is what other pumps of the user charged meanwhile. */
  datatype Io = Cancelled | IdleTimeout | Eof | ReadError | Chunk(n: nat, written: bool, others: nat)

  /** The totals a pump's charges reached: each under the quota, but for a landing one, which is the last. */
  ghost predicate PumpTotals(totals: seq<nat>, quota: nat, landed: bool) {
    (landed ==> totals != [])
    && forall i :: 0 <= i < |totals| ==> (totals[i] >= quota <==> landed && i == |totals| - 1)
  }

  ghost function Delivered(rounds: seq<Io>): nat {
    if rounds == [] then 0
    else Delivered(rounds[..|rounds| - 1]) + (var io := rounds[|rounds| - 1]; if io.Chunk? && io.written then io.n else 0)
  }

  ghost function Others(rounds: seq<Io>): nat {
    if rounds == [] then 0
    else Others(rounds[..|rounds| - 1]) + (var io := rounds[|rounds| - 1]; if io.Chunk? && io.written then io.others else 0)
  }

  /** The user's counter has grown by what these rounds delivered and what others charged; no other moved. */
  ghost predicate Grown(before: Counters, after: Counters, uid: string, rounds: seq<Io>) {
    Used(after, uid) == Used(before, uid) + Delivered(rounds) + Others(rounds)
    && forall u :: u != uid ==> Used(after, u) == Used(before, u)
  }

  lemma RoundsStep(script: seq<Io>, k: nat)
    requires k < |script|
    ensures var io := script[k]; var w := io.Chunk? && io.written;
      Delivered(script[..k + 1]) == Delivered(script[..k]) + (if w then io.n else 0)
      && Others(script[..k + 1]) == Others(script[..k]) + (if w then io.others else 0)
  {
    assert script[..k + 1][..k] == script[..k];
  }

  /**
   * The CONNECT pump. For a metered user every byte delivered is charged, none before delivery; it
   * lands at most once and stops there, cancelling its partner. Otherwise nothing is charged.
   */
  method Pump(g: Gate, p: Principal, script: seq<Io>) returns (totals: seq<nat>, rounds: nat, cancel: bool, landed: bool)
    modifies g
    ensures rounds <= |script| && (landed ==> cancel)
    ensures Metered(p) ==> PumpTotals(totals, p.quota.value, landed)
    ensures Metered(p) ==> Grown(old(g.used), g.used, p.uid.value, script[..rounds])
    ensures !Metered(p) ==> !landed && g.used == old(g.used)
  {
    totals, rounds, cancel, landed := [], 0, false, false;
    while rounds < |script|
      invariant rounds <= |script| && !landed
      invariant Metered(p) ==> PumpTotals(totals, p.quota.value, false)
      invariant Metered(p) ==> Grown(old(g.used), g.used, p.uid.value, script[..rounds])
      invariant !Metered(p) ==> g.used == old(g.used)
    {
      var io := script[rounds];
      RoundsStep(script, rounds);
      rounds := rounds + 1;
      match io {
        case Cancelled => return;
        case Eof => return;
        case IdleTimeout => cancel := true; return;
        case ReadError => cancel := true; return;
        case Chunk(n, written, others) =>
          if !written {
            cancel := true;
            return;
          }
          if Metered(p) {
            g.used := g.used[p.uid.value := Used(g.used, p.uid.value) + others];
          }
          landed := g.ChargeConnect(p, n);
          if Metered(p) {
            totals := totals + [g.used[p.uid.value]];
          }
          if landed {
            cancel := true;
            return;
          }
      }
    }
  }

  // ---- all pumps ----

  /**
   * One direction of an admitted connection: its largest chunk, whether it still runs, how many of its
   * charges landed at or over the quota, and how much it charged to the counter.
   */
  datatype Relay = Relay(plane: Plane, owner: Principal, chunk: nat, live: bool, landings: nat, charged: nat)

  datatype State = State(used: Counters, relays: map<nat, Relay>)

  /** Admission of a connection with its two directions, one charge, or the end of a direction. */
  datatype Step =
    | Admit(up: nat, down: nat, plane: Plane, owner: Principal, frame: nat)
    | Charge(id: nat, n: nat)
    | Stop(id: nat)

  const BUFFER: nat := 16384

  function NewRelay(plane: Plane, owner: Principal, chunk: nat): Relay {
    Relay(plane, owner, chunk, true, 0, 0)
  }

  /**
   * One step of the gate, or nothing where the step is not possible: ids are fresh, only a live relay
   * charges, and no more than its chunk. A WS upload is bounded only by its frame.
   */
  function Next(s: State, step: Step): State {
    match step
    case Admit(up, down, plane, owner, frame) =>
      if up == down || up in s.relays || down in s.relays then s
      else if Exhausted(s.used, owner) then s.(used := AfterAdmission(s.used, plane, owner))
      else State(AfterAdmission(s.used, plane, owner),
                 s.relays[up := NewRelay(plane, owner, if plane.WsPlane? then frame else BUFFER)]
                         [down := NewRelay(plane, owner, BUFFER)])
    case Charge(id, n) =>
      if id !in s.relays || !s.relays[id].live || n > s.relays[id].chunk then s
      else
        var r := s.relays[id];
        var lands := Lands(s.used, r.plane, r.owner, n);
        var r' := r.(live := !lands,
                     landings := r.landings + (if lands then 1 else 0),
                     charged := r.charged + (if Counts(s.used, r.plane, r.owner) then n else 0));
        State(AfterCharge(s.used, r.plane, r.owner, n), s.relays[id := r'])
    case Stop(id) =>
      if id !in s.relays then s else s.(relays := s.relays[id := s.relays[id].(live := false)])
  }

  function Run(steps: seq<Step>): State {
    if steps == [] then State(map[], map[]) else Next(Run(steps[..|steps| - 1]), steps[|steps| - 1])
  }

  // ---- sums over relays ----

  ghost function Weights(relays: map<nat, Relay>, f: Relay -> nat): map<nat, nat> {
    map id | id in relays :: f(relays[id])
  }

  ghost function Total(relays: map<nat, Relay>, f: Relay -> nat): nat { Sum(Weights(relays, f)) }

  lemma TotalUpdate(relays: map<nat, Relay>, id: nat, r: Relay, f: Relay -> nat)
    ensures Total(relays[id := r], f) == Total(relays, f) - (if id in relays then f(relays[id]) else 0) + f(r)
  {
    SumUpdate(Weights(relays, f), id, f(r));
    assert Weights(relays[id := r], f) == Weights(relays, f)[id := f(r)];
  }

  lemma TotalMonotone(relays: map<nat, Relay>, f: Relay -> nat, g: Relay -> nat)
    requires forall r :: f(r) <= g(r)
    ensures Total(relays, f) <= Total(relays, g)
  {
    SumMonotone(Weights(relays, f), Weights(relays, g));
  }

  ghost predicate Of(r: Relay, uid: string) { r.owner.uid == Some(uid) }

  /** What the user's relays charged. */
  ghost function ChargedBy(uid: string): Relay -> nat { (r: Relay) => if Of(r, uid) then r.charged else 0 }

  /** What the user's relays without a quota charged. */
  ghost function FreeBy(uid: string): Relay -> nat {
    (r: Relay) => if Of(r, uid) && r.owner.quota.None? then r.charged else 0
  }

  /** The chunks of the user's relays that landed. */
  ghost function LandedBy(uid: string): Relay -> nat {
    (r: Relay) => if Of(r, uid) && r.owner.quota.Some? && r.landings > 0 then r.chunk else 0
  }

  /** The chunks of the user's admitted metered relays. */
  ghost function ChunksOf(uid: string): Relay -> nat {
    (r: Relay) => if Of(r, uid) && r.owner.quota.Some? then r.chunk else 0
  }

  // ---- every run ----

  ghost predicate QuotasWithin(s: State, uid: string, q: nat) {
    forall id :: id in s.relays && Of(s.relays[id], uid) && s.relays[id].owner.quota.Some? ==>
      s.relays[id].owner.quota.value <= q
  }

  /** A relay that lands stops, and a WS relay with a quota has a counter. */
  ghost predicate RelaysSound(s: State) {
    forall id :: id in s.relays ==> RelaySound(s, s.relays[id])
  }

  ghost predicate RelaySound(s: State, r: Relay) {
    r.landings <= (if r.live then 0 else 1)
    && (r.plane.WsPlane? && Metered(r.owner) ==> r.owner.uid.value in s.used)
    && (Metered(r.owner) ==> r.owner.quota.value > 0)
  }

  /** The counter is what the relays charged, and is bounded by the landed chunks. */
  ghost predicate Accounted(s: State, uid: string, q: nat) {
    Used(s.used, uid) == Total(s.relays, ChargedBy(uid))
    && (QuotasWithin(s, uid, q) && Used(s.used, uid) > 0 ==>
          Used(s.used, uid) < Max(q, 1) + Total(s.relays, LandedBy(uid)) + Total(s.relays, FreeBy(uid)))
  }

  function Max(a: nat, b: nat): nat { if a < b then b else a }

  lemma StepSound(s: State, step: Step)
    requires RelaysSound(s)
    ensures RelaysSound(Next(s, step))
  {
    var t := Next(s, step);
    assert forall u :: u in s.used ==> u in t.used;
    forall id | id in t.relays
      ensures RelaySound(t, t.relays[id])
    {
      if id in s.relays {
        assert RelaySound(s, s.relays[id]);
      }
    }
  }

  /** A counter never goes down. */
  lemma StepMonotone(s: State, step: Step, uid: string)
    ensures Used(Next(s, step).used, uid) >= Used(s.used, uid)
  {
  }

  lemma AdmitAccounted(s: State, step: Step, uid: string, q: nat)
    requires step.Admit? && Accounted(s, uid, q)
    ensures Accounted(Next(s, step), uid, q)
  {
    var used := AfterAdmission(s.used, step.plane, step.owner);
    AdmissionCharges(s.used, step.plane, step.owner, uid);
    SameRelays(s, used, uid, q);
    if step.up != step.down && step.up !in s.relays && step.down !in s.relays {
      var a := NewRelay(step.plane, step.owner, if step.plane.WsPlane? then step.frame else BUFFER);
      var b := NewRelay(step.plane, step.owner, BUFFER);
      OneMore(State(used, s.relays), step.up, a, uid, q);
      OneMore(State(used, s.relays[step.up := a]), step.down, b, uid, q);
    }
  }

  /** An admission charges nothing. */
  lemma AdmissionCharges(used: Counters, plane: Plane, owner: Principal, uid: string)
    ensures Used(AfterAdmission(used, plane, owner), uid) == Used(used, uid)
  {
  }

  lemma SameRelays(s: State, used: Counters, uid: string, q: nat)
    requires Accounted(s, uid, q) && Used(used, uid) == Used(s.used, uid)
    ensures Accounted(State(used, s.relays), uid, q)
  {
    assert QuotasWithin(State(used, s.relays), uid, q) <==> QuotasWithin(s, uid, q);
  }

  /** A relay that has charged nothing yet keeps the account. */
  lemma OneMore(s: State, id: nat, r: Relay, uid: string, q: nat)
    requires Accounted(s, uid, q) && id !in s.relays && r.landings == 0 && r.charged == 0
    ensures Accounted(State(s.used, s.relays[id := r]), uid, q)
  {
    var t := State(s.used, s.relays[id := r]);
    AddIdle(s.relays, id, r, uid);
    assert QuotasWithin(t, uid, q) ==> QuotasWithin(s, uid, q) by {
      assert forall i :: i in s.relays ==> i in t.relays && t.relays[i] == s.relays[i];
    }
  }

  lemma AddIdle(relays: map<nat, Relay>, id: nat, r: Relay, uid: string)
    requires id !in relays && r.landings == 0 && r.charged == 0
    ensures Total(relays[id := r], ChargedBy(uid)) == Total(relays, ChargedBy(uid))
    ensures Total(relays[id := r], LandedBy(uid)) == Total(relays, LandedBy(uid))
    ensures Total(relays[id := r], FreeBy(uid)) == Total(relays, FreeBy(uid))
  {
    TotalUpdate(relays, id, r, ChargedBy(uid));
    TotalUpdate(relays, id, r, LandedBy(uid));
    TotalUpdate(relays, id, r, FreeBy(uid));
  }

  /** A change of one relay that keeps its owner keeps the quotas. */
  lemma SameQuotas(s: State, t: State, id: nat, uid: string, q: nat)
    requires id in s.relays && id in t.relays && t.relays == s.relays[id := t.relays[id]]
    requires t.relays[id].owner == s.relays[id].owner && QuotasWithin(t, uid, q)
    ensures QuotasWithin(s, uid, q)
  {
    forall i | i in s.relays && Of(s.relays[i], uid) && s.relays[i].owner.quota.Some?
      ensures s.relays[i].owner.quota.value <= q
    {
      assert t.relays[i].owner == s.relays[i].owner;
      assert Of(t.relays[i], uid);
    }
  }

  lemma UpdateTotals(s: State, id: nat, r: Relay, uid: string)
    requires id in s.relays
    ensures var m := s.relays[id := r]; var o := s.relays[id];
      Total(m, ChargedBy(uid)) == Total(s.relays, ChargedBy(uid)) - ChargedBy(uid)(o) + ChargedBy(uid)(r)
      && Total(m, LandedBy(uid)) == Total(s.relays, LandedBy(uid)) - LandedBy(uid)(o) + LandedBy(uid)(r)
      && Total(m, FreeBy(uid)) == Total(s.relays, FreeBy(uid)) - FreeBy(uid)(o) + FreeBy(uid)(r)
  {
    TotalUpdate(s.relays, id, r, ChargedBy(uid));
    TotalUpdate(s.relays, id, r, LandedBy(uid));
    TotalUpdate(s.relays, id, r, FreeBy(uid));
  }

  lemma StopAccounted(s: State, id: nat, uid: string, q: nat)
    requires Accounted(s, uid, q)
    ensures Accounted(Next(s, Stop(id)), uid, q)
  {
    var t := Next(s, Stop(id));
    if id in s.relays {
      UpdateTotals(s, id, t.relays[id], uid);
      if QuotasWithin(t, uid, q) {
        SameQuotas(s, t, id, uid, q);
      }
    }
  }

  lemma ChargeAccounted(s: State, id: nat, n: nat, uid: string, q: nat)
    requires Accounted(s, uid, q) && RelaysSound(s)
    ensures Accounted(Next(s, Charge(id, n)), uid, q)
  {
    var t := Next(s, Charge(id, n));
    if t != s {
      var r := s.relays[id];
      assert RelaySound(s, r);
      UpdateTotals(s, id, t.relays[id], uid);
      if QuotasWithin(t, uid, q) {
        SameQuotas(s, t, id, uid, q);
        assert Of(t.relays[id], uid) ==> r.owner.quota.Some? ==> r.owner.quota.value <= q;
      }
    }
  }

  /** In every run the relays are sound and every counter is accounted for. */
  lemma {:induction false} RunAccounted(steps: seq<Step>, uid: string, q: nat)
    ensures RelaysSound(Run(steps)) && Accounted(Run(steps), uid, q)
  {
    if steps != [] {
      var s, step := Run(steps[..|steps| - 1]), steps[|steps| - 1];
      RunAccounted(steps[..|steps| - 1], uid, q);
      StepSound(s, step);
      match step {
        case Admit(_, _, _, _, _) => AdmitAccounted(s, step, uid, q);
        case Charge(id, n) => ChargeAccounted(s, id, n, uid, q);
        case Stop(id) => StopAccounted(s, id, uid, q);
      }
    }
  }

  /**
   * For any number of concurrent connections on both planes, the counter stays under the quota plus one
   * chunk for each relay that landed, hence for each one admitted; what administrator connections of
   * the same user charge comes on top.
   */
  lemma QuotaOvershoot(steps: seq<Step>, uid: string, q: nat)
    requires QuotasWithin(Run(steps), uid, q) && q >= 1
    ensures var s := Run(steps);
      Used(s.used, uid) <= q - 1 + Total(s.relays, LandedBy(uid)) + Total(s.relays, FreeBy(uid))
      && Total(s.relays, LandedBy(uid)) <= Total(s.relays, ChunksOf(uid))
  {
    RunAccounted(steps, uid, q);
    TotalMonotone(Run(steps).relays, LandedBy(uid), ChunksOf(uid));
  }

  /** Every charged byte is in the counter, once, and each relay lands at most once and then is dead. */
  lemma ChargesConserved(steps: seq<Step>, uid: string)
    ensures var s := Run(steps);
      Used(s.used, uid) == Total(s.relays, ChargedBy(uid))
      && forall id :: id in s.relays ==> s.relays[id].landings <= 1 && (s.relays[id].landings == 1 ==> !s.relays[id].live)
  {
    RunAccounted(steps, uid, 0);
    var s := Run(steps);
    assert forall id :: id in s.relays ==> RelaySound(s, s.relays[id]);
  }

  /** In every run, what a live relay of a metered user delivers is charged in full, and it stops exactly at or over the quota. */
  lemma ChargeExact(steps: seq<Step>, id: nat, n: nat, u: string, q: nat)
    requires id in Run(steps).relays && Run(steps).relays[id].live && n <= Run(steps).relays[id].chunk
    requires Run(steps).relays[id].owner == Principal(Some(u), Some(q))
    ensures var s, t := Run(steps), Run(steps + [Charge(id, n)]);
      && Used(t.used, u) == Used(s.used, u) + n && (forall v :: v != u ==> Used(t.used, v) == Used(s.used, v))
      && id in t.relays && t.relays[id].live == (Used(s.used, u) + n < q)
      && (forall i :: i != id ==> (i in t.relays <==> i in s.relays) && (i in s.relays ==> t.relays[i] == s.relays[i]))
  {
    RunAccounted(steps, u, q);
    assert RelaySound(Run(steps), Run(steps).relays[id]);
    assert (steps + [Charge(id, n)])[..|steps|] == steps;
  }

  /** A connection is admitted exactly below the quota, with chunks of 16384 bytes, or of a frame for a WS upload; no counter moves. */
  lemma AdmitExact(s: State, up: nat, down: nat, plane: Plane, owner: Principal, frame: nat)
    requires up != down && up !in s.relays && down !in s.relays
    ensures var t := Next(s, Admit(up, down, plane, owner, frame));
      && (forall v :: Used(t.used, v) == Used(s.used, v))
      && t.relays == if owner.uid.Some? && owner.quota.Some? && Used(s.used, owner.uid.value) >= owner.quota.value then s.relays
                     else s.relays[up := Relay(plane, owner, if plane == WsPlane then frame else 16384, true, 0, 0)]
                                  [down := Relay(plane, owner, 16384, true, 0, 0)]
  {
  }

  /** Once a user's counter reaches the quota it stays there, and no further connection is admitted. */
  lemma {:induction false} NoneAfterQuota(steps: seq<Step>, more: seq<Step>, step: Step)
    requires step.Admit? && Metered(step.owner)
    requires Used(Run(steps).used, step.owner.uid.value) >= step.owner.quota.value
    ensures Next(Run(steps + more), step).relays == Run(steps + more).relays
  {
    UsedGrows(steps, more, step.owner.uid.value);
  }

  lemma {:induction false} UsedGrows(steps: seq<Step>, more: seq<Step>, uid: string)
    ensures Used(Run(steps + more).used, uid) >= Used(Run(steps).used, uid)
  {
    if more == [] {
      assert steps + more == steps;
    } else {
      var front := more[..|more| - 1];
      UsedGrows(steps, front, uid);
      assert (steps + more)[..|steps + more| - 1] == steps + front;
      StepMonotone(Run(steps + front), more[|more| - 1], uid);
    }
  }

  /** The bound is reached: a quota of q can be overshot by the chunks of both directions. */
  lemma OvershootReached(uid: string, q: nat, frame: nat) returns (steps: seq<Step>)
    requires 1 <= q <= frame + 1
    ensures var s := Run(steps);
      QuotasWithin(s, uid, q) && Used(s.used, uid) == q - 1 + frame + BUFFER
      && Total(s.relays, ChunksOf(uid)) == frame + BUFFER && Total(s.relays, FreeBy(uid)) == 0
  {
    var who := Principal(Some(uid), Some(q));
    var s1, s2, s3, s4 := Admit(0, 1, WsPlane, who, frame), Charge(0, q - 1), Charge(0, frame), Charge(1, BUFFER);
    steps := [s1, s2, s3, s4];
    assert steps[..3] == [s1, s2, s3] && [s1, s2, s3][..2] == [s1, s2] && [s1, s2][..1] == [s1] && [s1][..0] == [];
    Admitted(who, uid, frame);
    assert Run([]) == State(map[], map[]) && Run([s1]) == Next(Run([]), s1);
    assert Run([s1, s2]) == Next(Run([s1]), s2) && Run([s1, s2, s3]) == Next(Run([s1, s2]), s3);
    Charged(Run([s1]), who, uid, frame, 0, 0, q - 1);
    Charged(Run([s1, s2]), who, uid, frame, q - 1, 0, frame);
    Charged(Run([s1, s2, s3]), who, uid, frame, q - 1 + frame, 1, BUFFER);
    PairTotals(Run(steps), who, uid, frame, q - 1 + frame + BUFFER);
  }

  /** One WS connection of a metered user, with the user's counter at x. */
  ghost predicate Pair(s: State, who: Principal, uid: string, frame: nat, x: nat) {
    s.used == map[uid := x] && s.relays.Keys == {0, 1}
    && s.relays[0].plane == WsPlane && s.relays[0].owner == who && s.relays[0].chunk == frame
    && s.relays[1].plane == WsPlane && s.relays[1].owner == who && s.relays[1].chunk == BUFFER
  }

  lemma Admitted(who: Principal, uid: string, frame: nat)
    requires who.uid == Some(uid) && who.quota.Some? && who.quota.value >= 1
    ensures var s := Next(State(map[], map[]), Admit(0, 1, WsPlane, who, frame));
      Pair(s, who, uid, frame, 0) && s.relays[0].live && s.relays[1].live
  {
  }

  lemma Charged(s: State, who: Principal, uid: string, frame: nat, x: nat, id: nat, n: nat)
    requires who.uid == Some(uid) && who.quota.Some? && Pair(s, who, uid, frame, x)
    requires id < 2 && s.relays[id].live && n <= s.relays[id].chunk
    ensures var t := Next(s, Charge(id, n));
      Pair(t, who, uid, frame, x + n) && t.relays[1 - id] == s.relays[1 - id]
      && t.relays[id].live == (x + n < who.quota.value)
  {
  }

  lemma PairTotals(s: State, who: Principal, uid: string, frame: nat, x: nat)
    requires who.uid == Some(uid) && who.quota.Some? && Pair(s, who, uid, frame, x)
    ensures QuotasWithin(s, uid, who.quota.value) && Used(s.used, uid) == x
    ensures Total(s.relays, ChunksOf(uid)) == frame + BUFFER && Total(s.relays, FreeBy(uid)) == 0
  {
    TwoRelays(s.relays, ChunksOf(uid));
    TwoRelays(s.relays, FreeBy(uid));
  }

  lemma TwoRelays(relays: map<nat, Relay>, f: Relay -> nat)
    requires relays.Keys == {0, 1}
    ensures Total(relays, f) == f(relays[0]) + f(relays[1])
  {
    var w := Weights(relays, f);
    SumRemove(w, 0);
    SumRemove(w - {0}, 1);
    assert w - {0} - {1} == map[];
  }
}
