// Usage accounting: live counters, drain, all-or-nothing upsert, merge back, query
// (crates/core/src/usage.rs with crates/core/src/store/usage.rs).

module Usage {
  import opened Common
  import opened Sums

  datatype Key = Key(route: string, token: int)

  datatype Delta = Delta(requests: nat, bytesIn: nat, bytesOut: nat)

  datatype Counter = Requests | BytesIn | BytesOut

  /** One row of usage_hourly is identified by its hour and key. */
  datatype Slot = Slot(hour: nat, key: Key)

  datatype Row = Row(slot: Slot, delta: Delta)

  type Amounts = map<Key, Delta>

  type Table = map<Slot, Delta>

  const ZERO: Delta := Delta(0, 0, 0)

  function Get(d: Delta, c: Counter): nat {
    match c
    case Requests => d.requests
    case BytesIn => d.bytesIn
    case BytesOut => d.bytesOut
  }

  function Plus(a: Delta, b: Delta): Delta {
    Delta(a.requests + b.requests, a.bytesIn + b.bytesIn, a.bytesOut + b.bytesOut)
  }

  function At<K>(m: map<K, Delta>, k: K): Delta { if k in m then m[k] else ZERO }

  function Add<K>(m: map<K, Delta>, k: K, d: Delta): map<K, Delta> { m[k := Plus(At(m, k), d)] }

  // ---- the table ----

  function UpsertRow(t: Table, r: Row): Table { Add(t, r.slot, r.delta) }

  function UpsertRows(t: Table, rows: seq<Row>): Table {
    if rows == [] then t else UpsertRow(UpsertRows(t, rows[..|rows| - 1]), rows[|rows| - 1])
  }

  /** The table after one flush of `taken` at `hour`. */
  function Flushed(t: Table, hour: nat, taken: Amounts): Table {
    map s | s in t.Keys + Slots(hour, taken.Keys) ::
      if s.hour == hour then Plus(At(t, s), At(taken, s.key)) else At(t, s)
  }

  function Slots(hour: nat, keys: set<Key>): (r: set<Slot>)
    ensures forall s :: s in r <==> s.hour == hour && s.key in keys
  {
    set k | k in keys :: Slot(hour, k)
  }

  class Store {
    var usage: Table

    constructor ()
      ensures usage == map[]
    {
      usage := map[];
    }

    /** One transaction over all rows; `failsAt` says which statement fails, if any (|rows| stands for the commit). */
    method Upsert(rows: seq<Row>, failsAt: Option<nat>) returns (ok: bool)
      modifies this
      ensures ok <==> rows == [] || failsAt.None? || failsAt.value > |rows|
      ensures usage == if ok then UpsertRows(old(usage), rows) else old(usage)
    {
      if rows == [] {
        return true;
      }
      var tx := usage;
      for i := 0 to |rows|
        invariant failsAt.None? || failsAt.value >= i
        invariant tx == UpsertRows(usage, rows[..i]) && usage == old(usage)
      {
        if failsAt == Some(i) {
          return false;
        }
        assert rows[..i + 1][..i] == rows[..i];
        tx := UpsertRow(tx, rows[i]);
      }
      assert rows[..|rows|] == rows;
      if failsAt == Some(|rows|) {
        return false;
      }
      usage := tx;
      ok := true;
    }
  }

  /** The rows list the table: one row for each slot, in any order. */
  ghost predicate Lists(rows: seq<Row>, t: Table) {
    if rows == [] then t == map[]
    else
      var last := rows[|rows| - 1];
      last.slot in t && t[last.slot] == last.delta && Lists(rows[..|rows| - 1], t - {last.slot})
  }

  /** Writing these rows one by one has the effect of flushing `taken` at `hour`, on any table. */
  ghost predicate RowsOf(rows: seq<Row>, hour: nat, taken: Amounts) {
    && |rows| == |taken|
    && forall t :: UpsertRows(t, rows) == Flushed(t, hour, taken)
  }

  class UsageTracker {
    var live: Amounts
    const store: Store

    constructor (store: Store)
      ensures live == map[] && this.store == store
    {
      live := map[];
      this.store := store;
    }

    method RecordRequest(k: Key, bytesIn: nat)
      modifies this
      ensures live == Add(old(live), k, Delta(1, bytesIn, 0))
    {
      var c := At(live, k);
      c := c.(requests := c.requests + 1);
      c := c.(bytesIn := c.bytesIn + bytesIn);
      live := live[k := c];
    }

    method RecordBytesOut(k: Key, n: nat)
      modifies this
      ensures live == Add(old(live), k, Delta(0, 0, n))
    {
      var c := At(live, k);
      c := c.(bytesOut := c.bytesOut + n);
      live := live[k := c];
    }

    /** Snapshots and erases key by key until nothing is live. */
    method Drain() returns (out: Amounts)
      modifies this
      ensures out == old(live) && live == map[]
    {
      out := map[];
      while live != map[]
        invariant out.Keys !! live.Keys && out + live == old(live)
        decreases live
      {
        var k :| k in live;
        out := out[k := live[k]];
        live := live - {k};
      }
    }

    /** Adds the drained amounts back, onto whatever has been recorded since. */
    method MergeBack(drained: Amounts)
      modifies this
      ensures live == Merged(old(live), drained)
    {
      var left := drained;
      ghost var done := map[];
      MergedNothing(live);
      while left != map[]
        invariant done.Keys !! left.Keys && done + left == drained
        invariant live == Merged(old(live), done)
        decreases left
      {
        var k :| k in left;
        MergedStep(old(live), done, k, left[k]);
        live := Add(live, k, left[k]);
        MoveEntry(done, left, k);
        done, left := done[k := left[k]], left - {k};
      }
    }

    /** Drain, one transaction, and merge back if it fails; nothing else runs in between here. */
    method Flush(hour: nat, failsAt: Option<nat>) returns (rowsWritten: Option<nat>)
      modifies this, store
      ensures rowsWritten.None? <==> old(live) != map[] && failsAt.Some? && failsAt.value <= |old(live)|
      ensures rowsWritten.Some? ==> rowsWritten.value == |old(live)| && live == map[]
      ensures rowsWritten.Some? ==> store.usage == Flushed(old(store.usage), hour, old(live))
      ensures rowsWritten.None? ==> live == old(live) && store.usage == old(store.usage)
    {
      var drained := Drain();
      if drained == map[] {
        FlushedNothing(store.usage, hour);
        return Some(0);
      }
      var rows := MakeRows(drained, hour);
      var ok := store.Upsert(rows, failsAt);
      if ok {
        rowsWritten := Some(|rows|);
      } else {
        MergeBack(drained);
        MergedIntoEmpty(drained);
        rowsWritten := None;
      }
    }

    /** Adds up the selected table rows, from an hour on, and the matching live counters. */
    method Query(since: nat, route: Option<string>, token: Option<int>) returns (agg: Amounts, ghost rows: seq<Row>)
      ensures Lists(rows, store.usage)
      ensures agg == Report(SelectRows(rows, since, route, token), live, route, token)
    {
      var dbRows;
      dbRows, rows := QueryUsage(store.usage, since, route, token);
      agg := Aggregate(dbRows, live, route, token);
    }
  }

  /** The rows of the table that the filter keeps; `rows` is the listing they are taken from. */
  method QueryUsage(usage: Table, since: nat, route: Option<string>, token: Option<int>)
    returns (kept: seq<Row>, ghost rows: seq<Row>)
    ensures Lists(rows, usage) && kept == SelectRows(rows, since, route, token)
  {
    kept, rows := [], [];
    var left := usage;
    ghost var done: Table := map[];
    while left != map[]
      invariant done.Keys !! left.Keys && done + left == usage
      invariant Lists(rows, done) && kept == SelectRows(rows, since, route, token)
      decreases left
    {
      var s :| s in left;
      var row := Row(s, left[s]);
      ListOne(rows, done, row);
      SelectOne(rows, row, since, route, token);
      if s.hour >= since && Matches(s.key, route, token) {
        kept := kept + [row];
      }
      rows := rows + [row];
      MoveEntry(done, left, s);
      done, left := done[s := left[s]], left - {s};
    }
    assert done == usage;
  }

  lemma ListOne(rows: seq<Row>, t: Table, row: Row)
    requires Lists(rows, t) && row.slot !in t
    ensures Lists(rows + [row], t[row.slot := row.delta])
  {
    assert (rows + [row])[..|rows|] == rows;
    assert t[row.slot := row.delta] - {row.slot} == t;
  }

  lemma SelectOne(rows: seq<Row>, row: Row, since: nat, route: Option<string>, token: Option<int>)
    ensures SelectRows(rows + [row], since, route, token) == SelectRows(rows, since, route, token)
      + (if row.slot.hour >= since && Matches(row.slot.key, route, token) then [row] else [])
  {
    assert (rows + [row])[..|rows|] == rows;
  }

  /** Adds up the rows, and then the live counters that match. */
  method Aggregate(dbRows: seq<Row>, live: Amounts, route: Option<string>, token: Option<int>) returns (agg: Amounts)
    ensures agg == Report(dbRows, live, route, token)
  {
    agg := SumUp(dbRows);
    var left := live;
    ghost var done := map[];
    MergedNothing(agg);
    while left != map[]
      invariant done.Keys !! left.Keys && done + left == live
      invariant agg == Merged(SumRows(dbRows), Select(done, route, token))
      decreases left
    {
      var k :| k in left;
      AggregateStep(SumRows(dbRows), done, route, token, k, left[k]);
      if Matches(k, route, token) {
        agg := Add(agg, k, left[k]);
      }
      MoveEntry(done, left, k);
      done, left := done[k := left[k]], left - {k};
    }
    assert done == live;
  }

  method SumUp(dbRows: seq<Row>) returns (agg: Amounts)
    ensures agg == SumRows(dbRows)
  {
    agg := map[];
    for i := 0 to |dbRows|
      invariant agg == SumRows(dbRows[..i])
    {
      assert dbRows[..i + 1][..i] == dbRows[..i];
      agg := Add(agg, dbRows[i].slot.key, dbRows[i].delta);
    }
    assert dbRows[..|dbRows|] == dbRows;
  }

  lemma AggregateStep(base: Amounts, done: Amounts, route: Option<string>, token: Option<int>, k: Key, d: Delta)
    requires k !in done
    ensures var before := Merged(base, Select(done, route, token));
      Merged(base, Select(done[k := d], route, token)) ==
      if Matches(k, route, token) then Add(before, k, d) else before
  {
    SelectStep(done, route, token, k, d);
    MergedStep(base, Select(done, route, token), k, d);
  }

  function Merged(m: Amounts, d: Amounts): Amounts {
    map k | k in m.Keys + d.Keys :: Plus(At(m, k), At(d, k))
  }

  lemma MergedNothing(m: Amounts)
    ensures Merged(m, map[]) == m
  {
  }

  lemma MergedIntoEmpty(d: Amounts)
    ensures Merged(map[], d) == d
  {
  }

  lemma MergedStep(m: Amounts, d: Amounts, k: Key, x: Delta)
    requires k !in d
    ensures Add(Merged(m, d), k, x) == Merged(m, d[k := x])
  {
  }

  lemma FlushedNothing(t: Table, hour: nat)
    ensures Flushed(t, hour, map[]) == t
  {
  }

  lemma SelectStep(live: Amounts, route: Option<string>, token: Option<int>, k: Key, d: Delta)
    requires k !in live
    ensures Select(live[k := d], route, token) ==
      var before := Select(live, route, token); if Matches(k, route, token) then before[k := d] else before
  {
  }

  method MakeRows(drained: Amounts, hour: nat) returns (rows: seq<Row>)
    ensures RowsOf(rows, hour, drained)
  {
    rows := [];
    var left := drained;
    ghost var done := map[];
    NoRows(hour);
    while left != map[]
      invariant done.Keys !! left.Keys && done + left == drained
      invariant RowsOf(rows, hour, done)
      decreases left
    {
      var k :| k in left;
      RowsGrow(rows, hour, done, k, left[k]);
      rows := rows + [Row(Slot(hour, k), left[k])];
      MoveEntry(done, left, k);
      done, left := done[k := left[k]], left - {k};
    }
  }

  lemma NoRows(hour: nat)
    ensures RowsOf([], hour, map[])
  {
    forall t
      ensures UpsertRows(t, []) == Flushed(t, hour, map[])
    {
      FlushedNothing(t, hour);
    }
  }

  /** Adding one more drained key is one more accumulating upsert of its own slot. */
  lemma FlushedStep(t: Table, hour: nat, taken: Amounts, k: Key, d: Delta)
    requires k !in taken
    ensures Add(Flushed(t, hour, taken), Slot(hour, k), d) == Flushed(t, hour, taken[k := d])
  {
    var a, b := Add(Flushed(t, hour, taken), Slot(hour, k), d), Flushed(t, hour, taken[k := d]);
    forall s
      ensures s in a <==> s in b
    {
    }
    forall s | s in a
      ensures a[s] == b[s]
    {
    }
  }

  lemma RowsGrow(rows: seq<Row>, hour: nat, taken: Amounts, k: Key, d: Delta)
    requires RowsOf(rows, hour, taken) && k !in taken
    ensures RowsOf(rows + [Row(Slot(hour, k), d)], hour, taken[k := d])
  {
    var more := rows + [Row(Slot(hour, k), d)];
    assert more[..|rows|] == rows;
    forall t
      ensures UpsertRows(t, more) == Flushed(t, hour, taken[k := d])
    {
      FlushedStep(t, hour, taken, k, d);
    }
  }

  // ---- queries ----

  predicate Matches(k: Key, route: Option<string>, token: Option<int>) {
    (route.Some? ==> k.route == route.value) && (token.Some? ==> k.token == token.value)
  }

  /** Sum of the rows of each key. */
  function SumRows(rows: seq<Row>): Amounts {
    if rows == [] then map[]
    else Add(SumRows(rows[..|rows| - 1]), rows[|rows| - 1].slot.key, rows[|rows| - 1].delta)
  }

  /** The live counters the query's filter keeps. */
  function Select(live: Amounts, route: Option<string>, token: Option<int>): Amounts {
    map k | k in live && Matches(k, route, token) :: live[k]
  }

  function Report(rows: seq<Row>, live: Amounts, route: Option<string>, token: Option<int>): Amounts {
    Merged(SumRows(rows), Select(live, route, token))
  }

  /** The rows the SQL filter keeps. */
  function SelectRows(rows: seq<Row>, since: nat, route: Option<string>, token: Option<int>): seq<Row> {
    if rows == [] then []
    else
      var last := rows[|rows| - 1];
      SelectRows(rows[..|rows| - 1], since, route, token)
      + (if last.slot.hour >= since && Matches(last.slot.key, route, token) then [last] else [])
  }

  lemma {:induction false} SumOfSelected(rows: seq<Row>, since: nat, route: Option<string>, token: Option<int>, k: Key)
    ensures var all, some := SumRows(SelectRows(rows, since, None, None)), SumRows(SelectRows(rows, since, route, token));
      (k in some <==> k in all && Matches(k, route, token))
      && At(some, k) == if Matches(k, route, token) then At(all, k) else ZERO
  {
    if rows != [] {
      var init, last := rows[..|rows| - 1], rows[|rows| - 1];
      assert rows == init + [last];
      SumOfSelected(init, since, route, token, k);
      SelectedLast(init, last, since, None, None);
      SelectedLast(init, last, since, route, token);
    }
  }

  lemma SelectedLast(init: seq<Row>, last: Row, since: nat, route: Option<string>, token: Option<int>)
    ensures SumRows(SelectRows(init + [last], since, route, token)) ==
      (var before := SumRows(SelectRows(init, since, route, token));
       if last.slot.hour >= since && Matches(last.slot.key, route, token)
       then Add(before, last.slot.key, last.delta) else before)
  {
    assert (init + [last])[..|init|] == init;
    SumRowsLast(SelectRows(init, since, route, token), last);
  }

  lemma SumRowsLast(rows: seq<Row>, last: Row)
    ensures SumRows(rows + [last]) == Add(SumRows(rows), last.slot.key, last.delta)
    ensures rows + [] == rows
  {
    assert (rows + [last])[..|rows|] == rows;
  }

  /** Filtering by route and token commutes with reporting: the filtered report is the full report, filtered. */
  lemma FilterCommutes(table: seq<Row>, live: Amounts, since: nat, route: Option<string>, token: Option<int>)
    ensures Report(SelectRows(table, since, route, token), live, route, token) ==
      (var full := Report(SelectRows(table, since, None, None), live, None, None);
       map k | k in full && Matches(k, route, token) :: full[k])
  {
    forall k
      ensures var all, some := SumRows(SelectRows(table, since, None, None)), SumRows(SelectRows(table, since, route, token));
        (k in some <==> k in all && Matches(k, route, token))
        && At(some, k) == if Matches(k, route, token) then At(all, k) else ZERO
    {
      SumOfSelected(table, since, route, token, k);
    }
    FilterReports(SelectRows(table, since, None, None), SelectRows(table, since, route, token), live, route, token);
  }

  lemma FilterReports(all: seq<Row>, some: seq<Row>, live: Amounts, route: Option<string>, token: Option<int>)
    requires forall k :: k in SumRows(some) <==> k in SumRows(all) && Matches(k, route, token)
    requires forall k :: At(SumRows(some), k) == if Matches(k, route, token) then At(SumRows(all), k) else ZERO
    ensures Report(some, live, route, token) ==
      (var full := Report(all, live, None, None); map k | k in full && Matches(k, route, token) :: full[k])
  {
  }
}
