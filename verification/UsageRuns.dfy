// Usage accounting under interleaving: recordings, per-key drains, upserts and merge-backs of any
// number of overlapping flushes (crates/core/src/usage.rs).

module UsageRuns {
  import opened Common
  import opened Sums
  import opened Usage

  datatype Phase = Draining | Upserting | Merging

  /** One flush between its first drained key and its end: what it has taken and not yet passed on. */
  datatype Flight = Flight(phase: Phase, amounts: Amounts)

  datatype State = State(live: Amounts, flights: map<nat, Flight>, table: Table, recorded: Amounts)

  datatype Action =
    | Request(k: Key, bytesIn: nat)
    | Chunk(k: Key, n: nat)
    | StartFlush(id: nat)
    | DrainKey(id: nat, k: Key)
    | EndDrain(id: nat)
    | UpsertOk(id: nat, hour: nat)
    | UpsertFails(id: nat)
    | MergeKey(id: nat, k: Key)
    | EndMerge(id: nat)

  function Init(): State { State(map[], map[], map[], map[]) }

  predicate In(s: State, id: nat, phase: Phase) { id in s.flights && s.flights[id].phase == phase }

  predicate Enabled(s: State, a: Action) {
    match a
    case Request(_, _) => true
    case Chunk(_, _) => true
    case StartFlush(id) => id !in s.flights
    case DrainKey(id, k) => In(s, id, Draining) && k in s.live
    case EndDrain(id) => In(s, id, Draining)
    case UpsertOk(id, _) => In(s, id, Upserting)
    case UpsertFails(id) => In(s, id, Upserting)
    case MergeKey(id, k) => In(s, id, Merging) && k in s.flights[id].amounts
    case EndMerge(id) => In(s, id, Merging) && s.flights[id].amounts == map[]
  }

  function Record(s: State, k: Key, d: Delta): State {
    s.(live := Add(s.live, k, d), recorded := Add(s.recorded, k, d))
  }

  function Carry(s: State, id: nat, f: Flight): State { s.(flights := s.flights[id := f]) }

  function Apply(s: State, a: Action): State
    requires Enabled(s, a)
  {
    match a
    case Request(k, bytesIn) => Record(s, k, Delta(1, bytesIn, 0))
    case Chunk(k, n) => Record(s, k, Delta(0, 0, n))
    case StartFlush(id) => Carry(s, id, Flight(Draining, map[]))
    case DrainKey(id, k) =>
      // The key may come back to life later in the same drain only on a shard already swept, so a
      // flush meets each key at most once; adding covers that and any other schedule.
      Carry(s.(live := s.live - {k}), id, Flight(Draining, Add(s.flights[id].amounts, k, s.live[k])))
    case EndDrain(id) =>
      if s.flights[id].amounts == map[] then s.(flights := s.flights - {id})
      else Carry(s, id, Flight(Upserting, s.flights[id].amounts))
    case UpsertOk(id, hour) =>
      s.(table := Flushed(s.table, hour, s.flights[id].amounts), flights := s.flights - {id})
    case UpsertFails(id) => Carry(s, id, Flight(Merging, s.flights[id].amounts))
    case MergeKey(id, k) =>
      Carry(s.(live := Add(s.live, k, s.flights[id].amounts[k])), id, Flight(Merging, s.flights[id].amounts - {k}))
    case EndMerge(id) => s.(flights := s.flights - {id})
  }

  // ---- totals ----

  function Held(flights: map<nat, Flight>, k: Key, c: Counter): map<nat, nat> {
    map id | id in flights :: Get(At(flights[id].amounts, k), c)
  }

  /** What all flushes in flight have taken of one key and counter. */
  ghost function InFlight(flights: map<nat, Flight>, k: Key, c: Counter): nat { Sum(Held(flights, k, c)) }

  function Hours(t: Table, since: nat, k: Key, c: Counter): map<Slot, nat> {
    map s | s in t && s.key == k && s.hour >= since :: Get(t[s], c)
  }

  /** What the table holds of one key and counter from an hour on. */
  ghost function Stored(t: Table, since: nat, k: Key, c: Counter): nat { Sum(Hours(t, since, k, c)) }

  ghost predicate Balanced(s: State, k: Key, c: Counter) {
    Get(At(s.recorded, k), c) == Get(At(s.live, k), c) + InFlight(s.flights, k, c) + Stored(s.table, 0, k, c)
  }

  lemma CarryTotal(flights: map<nat, Flight>, id: nat, f: Flight, k: Key, c: Counter)
    ensures InFlight(flights[id := f], k, c) ==
      InFlight(flights, k, c) - (if id in flights then Get(At(flights[id].amounts, k), c) else 0) + Get(At(f.amounts, k), c)
  {
    var m := Held(flights, k, c);
    SumUpdate(m, id, Get(At(f.amounts, k), c));
    assert Held(flights[id := f], k, c) == m[id := Get(At(f.amounts, k), c)];
  }

  lemma LandTotal(flights: map<nat, Flight>, id: nat, k: Key, c: Counter)
    requires id in flights
    ensures InFlight(flights - {id}, k, c) == InFlight(flights, k, c) - Get(At(flights[id].amounts, k), c)
  {
    var m := Held(flights, k, c);
    SumRemove(m, id);
    assert Held(flights - {id}, k, c) == m - {id};
  }

  lemma FlushedTotal(t: Table, hour: nat, taken: Amounts, since: nat, k: Key, c: Counter)
    ensures Stored(Flushed(t, hour, taken), since, k, c) ==
      Stored(t, since, k, c) + if hour >= since then Get(At(taken, k), c) else 0
  {
    var s, m := Slot(hour, k), Hours(t, since, k, c);
    FlushedHours(t, hour, taken, since, k, c);
    if hour >= since && (k in taken || s in t) {
      SumUpdate(m, s, (if s in m then m[s] else 0) + Get(At(taken, k), c));
    }
  }

  /** A flush changes the stored hours of a key in its own slot only. */
  lemma FlushedHours(t: Table, hour: nat, taken: Amounts, since: nat, k: Key, c: Counter)
    ensures var s, m := Slot(hour, k), Hours(t, since, k, c);
      Hours(Flushed(t, hour, taken), since, k, c) ==
      if hour >= since && (k in taken || s in t) then m[s := (if s in m then m[s] else 0) + Get(At(taken, k), c)] else m
  {
    if hour >= since && (k in taken || Slot(hour, k) in t) {
      FlushedSlot(t, hour, taken, since, k, c);
    } else {
      assert Hours(Flushed(t, hour, taken), since, k, c) == Hours(t, since, k, c);
    }
  }

  lemma FlushedSlot(t: Table, hour: nat, taken: Amounts, since: nat, k: Key, c: Counter)
    requires hour >= since && (k in taken || Slot(hour, k) in t)
    ensures var s, m := Slot(hour, k), Hours(t, since, k, c);
      Hours(Flushed(t, hour, taken), since, k, c) == m[s := (if s in m then m[s] else 0) + Get(At(taken, k), c)]
  {
  }

  lemma DrainKeepsBalance(s: State, id: nat, x: Key, k: Key, c: Counter)
    requires Enabled(s, DrainKey(id, x)) && Balanced(s, k, c)
    ensures Balanced(Apply(s, DrainKey(id, x)), k, c)
  {
    CarryTotal(s.flights, id, Flight(Draining, Add(s.flights[id].amounts, x, s.live[x])), k, c);
  }

  lemma MergeKeepsBalance(s: State, id: nat, x: Key, k: Key, c: Counter)
    requires Enabled(s, MergeKey(id, x)) && Balanced(s, k, c)
    ensures Balanced(Apply(s, MergeKey(id, x)), k, c)
  {
    CarryTotal(s.flights, id, Flight(Merging, s.flights[id].amounts - {x}), k, c);
  }

  lemma UpsertKeepsBalance(s: State, id: nat, hour: nat, k: Key, c: Counter)
    requires Enabled(s, UpsertOk(id, hour)) && Balanced(s, k, c)
    ensures Balanced(Apply(s, UpsertOk(id, hour)), k, c)
  {
    LandTotal(s.flights, id, k, c);
    FlushedTotal(s.table, hour, s.flights[id].amounts, 0, k, c);
  }

  lemma PhaseKeepsBalance(s: State, a: Action, k: Key, c: Counter)
    requires Enabled(s, a) && Balanced(s, k, c)
    requires a.StartFlush? || a.EndDrain? || a.UpsertFails? || a.EndMerge?
    ensures Balanced(Apply(s, a), k, c)
  {
    match a
    case StartFlush(id) => CarryTotal(s.flights, id, Flight(Draining, map[]), k, c);
    case EndDrain(id) =>
      LandTotal(s.flights, id, k, c);
      CarryTotal(s.flights, id, Flight(Upserting, s.flights[id].amounts), k, c);
    case UpsertFails(id) => CarryTotal(s.flights, id, Flight(Merging, s.flights[id].amounts), k, c);
    case EndMerge(id) => LandTotal(s.flights, id, k, c);
  }

  lemma ActionKeepsBalance(s: State, a: Action, k: Key, c: Counter)
    requires Enabled(s, a) && Balanced(s, k, c)
    ensures Balanced(Apply(s, a), k, c)
  {
    match a
    case Request(_, _) =>
    case Chunk(_, _) =>
    case DrainKey(id, x) => DrainKeepsBalance(s, id, x, k, c);
    case MergeKey(id, x) => MergeKeepsBalance(s, id, x, k, c);
    case UpsertOk(id, hour) => UpsertKeepsBalance(s, id, hour, k, c);
    case _ => PhaseKeepsBalance(s, a, k, c);
  }

  ghost predicate Run(states: seq<State>, actions: seq<Action>) {
    && |states| == |actions| + 1
    && states[0] == Init()
    && forall i :: 0 <= i < |actions| ==> Enabled(states[i], actions[i]) && states[i + 1] == Apply(states[i], actions[i])
  }

  /** Conservation: at every moment of every run nothing recorded is lost or counted twice. */
  lemma {:induction false} NothingLost(states: seq<State>, actions: seq<Action>, n: nat, k: Key, c: Counter)
    requires Run(states, actions) && n < |states|
    ensures Balanced(states[n], k, c)
  {
    if n == 0 {
      assert Held(map[], k, c) == map[] && Hours(map[], 0, k, c) == map[];
    } else {
      NothingLost(states, actions, n - 1, k, c);
      ActionKeepsBalance(states[n - 1], actions[n - 1], k, c);
    }
  }

  /** What `recorded` means: the amounts of the recording actions of the run so far, and nothing else. */
  function Said(actions: seq<Action>, k: Key, c: Counter): nat {
    if actions == [] then 0
    else
      Said(actions[..|actions| - 1], k, c) + SaidBy(actions[|actions| - 1], k, c)
  }

  function SaidBy(a: Action, k: Key, c: Counter): nat {
    match a
    case Request(x, n) => if x != k || c == BytesOut then 0 else if c == Requests then 1 else n
    case Chunk(x, n) => if x == k && c == BytesOut then n else 0
    case _ => 0
  }

  lemma RecordedStep(s: State, a: Action, k: Key, c: Counter)
    requires Enabled(s, a)
    ensures Get(At(Apply(s, a).recorded, k), c) == Get(At(s.recorded, k), c) + SaidBy(a, k, c)
  {
  }

  lemma {:induction false} RecordedIsSaid(states: seq<State>, actions: seq<Action>, n: nat, k: Key, c: Counter)
    requires Run(states, actions) && n < |states|
    ensures Get(At(states[n].recorded, k), c) == Said(actions[..n], k, c)
  {
    if n > 0 {
      RecordedIsSaid(states, actions, n - 1, k, c);
      assert actions[..n][..n - 1] == actions[..n - 1];
      RecordedStep(states[n - 1], actions[n - 1], k, c);
    }
  }

  // ---- queries ----

  lemma StoredRemove(t: Table, s: Slot, since: nat, k: Key, c: Counter)
    requires s in t
    ensures Stored(t, since, k, c) ==
      Stored(t - {s}, since, k, c) + if s.key == k && s.hour >= since then Get(t[s], c) else 0
  {
    var m := Hours(t, since, k, c);
    if s in m {
      SumRemove(m, s);
      assert Hours(t - {s}, since, k, c) == m - {s};
    } else {
      assert Hours(t - {s}, since, k, c) == m;
    }
  }

  /** The rows selected from a listing of the table add up to what the table stores. */
  lemma {:induction false} SelectedIsStored(rows: seq<Row>, t: Table, since: nat, route: Option<string>, token: Option<int>, k: Key, c: Counter)
    requires Lists(rows, t) && Matches(k, route, token)
    ensures Get(At(SumRows(SelectRows(rows, since, route, token)), k), c) == Stored(t, since, k, c)
  {
    if rows == [] {
      assert Hours(t, since, k, c) == map[];
    } else {
      var init, last := rows[..|rows| - 1], rows[|rows| - 1];
      assert rows == init + [last];
      SelectedIsStored(init, t - {last.slot}, since, route, token, k, c);
      SelectedLast(init, last, since, route, token);
      StoredRemove(t, last.slot, since, k, c);
    }
  }

  /** What a query answers for one key and counter, from a listing of the table and the counters it saw. */
  function Answer(rows: seq<Row>, live: Amounts, since: nat, route: Option<string>, token: Option<int>, k: Key, c: Counter): nat {
    Get(At(Report(SelectRows(rows, since, route, token), live, route, token), k), c)
  }

  /** For every key the filter keeps, the answer is what the table stores plus what is live. */
  lemma AnswerIs(rows: seq<Row>, t: Table, live: Amounts, since: nat, route: Option<string>, token: Option<int>, k: Key, c: Counter)
    requires Lists(rows, t)
    ensures (route == None || route == Some(k.route)) && (token == None || token == Some(k.token)) ==>
      Answer(rows, live, since, route, token, k, c) == Stored(t, since, k, c) + Get(At(live, k), c)
    ensures !((route == None || route == Some(k.route)) && (token == None || token == Some(k.token))) ==>
      k !in Report(SelectRows(rows, since, route, token), live, route, token)
  {
    if Matches(k, route, token) {
      SelectedIsStored(rows, t, since, route, token, k, c);
      assert At(Select(live, route, token), k) == At(live, k);
    } else {
      SumOfSelected(rows, since, route, token, k);
    }
  }

  lemma ActionGrows(s: State, a: Action, since: nat, k: Key, c: Counter)
    requires Enabled(s, a)
    ensures Stored(s.table, since, k, c) <= Stored(Apply(s, a).table, since, k, c)
  {
    if a.UpsertOk? {
      FlushedTotal(s.table, a.hour, s.flights[a.id].amounts, since, k, c);
    } else {
      assert Apply(s, a).table == s.table;
    }
  }

  lemma {:induction false} TableGrows(states: seq<State>, actions: seq<Action>, a: nat, b: nat, since: nat, k: Key, c: Counter)
    requires Run(states, actions) && a <= b < |states|
    ensures Stored(states[a].table, since, k, c) <= Stored(states[b].table, since, k, c)
  {
    if a < b {
      TableGrows(states, actions, a, b - 1, since, k, c);
      assert Enabled(states[b - 1], actions[b - 1]);
      ActionGrows(states[b - 1], actions[b - 1], since, k, c);
    }
  }

  lemma HoursSplit(t: Table, since: nat, k: Key, c: Counter)
    ensures Stored(t, since, k, c) <= Stored(t, 0, k, c)
  {
    SumMonotone(Hours(t, since, k, c), Hours(t, 0, k, c));
  }

  /**
   * A query reads the table at state a and the counter of each key k at some later state b of its own.
   * What it then reports for k falls short of what was recorded by exactly the hours before `since`,
   * what flushes landed between the two reads, and what is in flight at the second: it never over-reports.
   */
  lemma QueryShortfall(states: seq<State>, actions: seq<Action>, a: nat, b: nat, rows: seq<Row>, live: Amounts,
                       since: nat, route: Option<string>, token: Option<int>, k: Key, c: Counter)
    requires Run(states, actions) && a <= b < |states| && Matches(k, route, token)
    requires Lists(rows, states[a].table) && At(live, k) == At(states[b].live, k)
    ensures var older := Stored(states[a].table, 0, k, c) - Stored(states[a].table, since, k, c);
      var landed := Stored(states[b].table, 0, k, c) - Stored(states[a].table, 0, k, c);
      && older >= 0 && landed >= 0
      && Said(actions[..b], k, c) ==
        Answer(rows, live, since, route, token, k, c) + older + landed + InFlight(states[b].flights, k, c)
    ensures Answer(rows, live, since, route, token, k, c) <= Said(actions[..b], k, c)
  {
    AnswerIs(rows, states[a].table, live, since, route, token, k, c);
    NothingLost(states, actions, b, k, c);
    RecordedIsSaid(states, actions, b, k, c);
    TableGrows(states, actions, a, b, 0, k, c);
    HoursSplit(states[a].table, since, k, c);
  }

  lemma {:induction false} TableStable(states: seq<State>, actions: seq<Action>, a: nat, b: nat)
    requires Run(states, actions) && a <= b < |states|
    requires forall i :: a <= i <= b ==> states[i].flights == map[]
    ensures states[a].table == states[b].table
  {
    if a < b {
      TableStable(states, actions, a, b - 1);
      assert Enabled(states[b - 1], actions[b - 1]);
      assert states[b - 1].flights == map[];
    }
  }

  /** With no flush in flight from the first read to the second, a query over all hours is exact. */
  lemma QueryExact(states: seq<State>, actions: seq<Action>, a: nat, b: nat, rows: seq<Row>, live: Amounts,
                   route: Option<string>, token: Option<int>, k: Key, c: Counter)
    requires Run(states, actions) && a <= b < |states| && Matches(k, route, token)
    requires Lists(rows, states[a].table) && At(live, k) == At(states[b].live, k)
    requires forall i :: a <= i <= b ==> states[i].flights == map[]
    ensures Answer(rows, live, 0, route, token, k, c) == Said(actions[..b], k, c)
  {
    QueryShortfall(states, actions, a, b, rows, live, 0, route, token, k, c);
    TableStable(states, actions, a, b);
    assert states[b].flights == map[];
    assert Held(map[], k, c) == map[];
  }
}
