// Gossip membership: heartbeats, ageing, tombstones (crates/core/src/cluster.rs).

module Cluster {
  import opened Common

  datatype Health = Alive | Suspect | Dead

  datatype Meta = Meta(addr: string, version: string, conns: nat, bytesIn: nat, bytesOut: nat)

  datatype Peer = Peer(id: string, meta: Meta, state: Health, incarnation: nat, lastSeen: nat, rtt: nat)

  /** A peer and the local time, in milliseconds, at which it was entered. */
  datatype Entry = Entry(peer: Peer, arrived: nat)

  datatype Heartbeat = Heartbeat(sender: string, meta: Meta, incarnation: nat, timestamp: nat, relayed: seq<Peer>)

  datatype Tombstone = Tombstone(deadEpoch: nat, incarnation: nat)

  type Table = map<string, Entry>

  type Graves = map<string, Tombstone>

  const SUSPECT_AFTER: nat := 30_000
  const DEAD_AFTER: nat := 120_000

  function Age(e: Entry, now: nat): nat { if now >= e.arrived then now - e.arrived else 0 }

  // ---- merging ----

  predicate Accepts(local: string, peers: Table, graves: Graves, hb: Heartbeat) {
    hb.sender != local
    && (hb.sender in graves ==> hb.incarnation > graves[hb.sender].incarnation)
    && (hb.sender in peers ==>
          hb.timestamp >= peers[hb.sender].peer.lastSeen && hb.incarnation >= peers[hb.sender].peer.incarnation)
  }

  function Node(hb: Heartbeat, rtt: nat): Peer {
    Peer(hb.sender, hb.meta, Alive, hb.incarnation, hb.timestamp, rtt)
  }

  /** The table after the relayed peers, in order: each unknown one is entered as it stands. */
  function AddRelayed(peers: Table, local: string, relayed: seq<Peer>, now: nat): Table
    decreases |relayed|
  {
    if relayed == [] then peers
    else
      var p := relayed[0];
      AddRelayed(if p.id != local && p.id !in peers then peers[p.id := Entry(p, now)] else peers, local, relayed[1..], now)
  }

  function Merged(local: string, peers: Table, graves: Graves, hb: Heartbeat, rtt: nat, now: nat): Table {
    if Accepts(local, peers, graves, hb)
    then AddRelayed(peers[hb.sender := Entry(Node(hb, rtt), now)], local, hb.relayed, now)
    else peers
  }

  /** The first relayed entry for an id. */
  function FirstOf(relayed: seq<Peer>, id: string): Option<Peer> {
    if relayed == [] then None else if relayed[0].id == id then Some(relayed[0]) else FirstOf(relayed[1..], id)
  }

  /** What relaying does to one id: a known peer stays, an unknown one comes from its first entry. */
  function RelayedAt(peers: Table, local: string, relayed: seq<Peer>, now: nat, id: string): Option<Entry> {
    if id in peers then Some(peers[id])
    else if id == local || FirstOf(relayed, id).None? then None
    else Some(Entry(FirstOf(relayed, id).value, now))
  }

  function Lookup(peers: Table, id: string): Option<Entry> { if id in peers then Some(peers[id]) else None }

  lemma {:induction false} AddRelayedAt(peers: Table, local: string, relayed: seq<Peer>, now: nat, id: string)
    ensures Lookup(AddRelayed(peers, local, relayed, now), id) == RelayedAt(peers, local, relayed, now, id)
    decreases |relayed|
  {
    if relayed != [] {
      var p := relayed[0];
      var next := if p.id != local && p.id !in peers then peers[p.id := Entry(p, now)] else peers;
      AddRelayedAt(next, local, relayed[1..], now, id);
    }
  }

  // ---- ageing ----

  function Aged(e: Entry, now: nat): Entry {
    if Age(e, now) > SUSPECT_AFTER then e.(peer := e.peer.(state := Suspect)) else e
  }

  predicate Expired(e: Entry, now: nat) { Age(e, now) > DEAD_AFTER }

  function Survivors(peers: Table, now: nat): Table {
    map id | id in peers && !Expired(peers[id], now) :: Aged(peers[id], now)
  }

  function Buried(peers: Table, graves: Graves, now: nat, epoch: nat): Graves {
    graves + map id | id in peers && Expired(peers[id], now) :: Tombstone(epoch, peers[id].peer.incarnation)
  }

  class ClusterManager {
    const localId: string
    var peers: Table
    var graves: Graves

    constructor (local: string)
      ensures localId == local && peers == map[] && graves == map[]
    {
      localId, peers, graves := local, map[], map[];
    }

    method MergeHeartbeat(hb: Heartbeat, rtt: nat, now: nat)
      modifies this`peers
      ensures peers == Merged(localId, old(peers), graves, hb, rtt, now)
    {
      if hb.sender == localId {
        return;
      }
      if hb.sender in graves && hb.incarnation <= graves[hb.sender].incarnation {
        return;
      }
      if hb.sender in peers {
        var existing := peers[hb.sender].peer;
        if hb.timestamp < existing.lastSeen || hb.incarnation < existing.incarnation {
          return;
        }
      }
      peers := peers[hb.sender := Entry(Node(hb, rtt), now)];
      peers := EnterRelayed(localId, peers, hb.relayed, now);
    }

    method Snapshot(now: nat, epoch: nat) returns (report: Table)
      modifies this`peers, this`graves
      ensures peers == report == Survivors(old(peers), now)
      ensures graves == Buried(old(peers), old(graves), now, epoch)
    {
      var aged, dead := Sweep(peers, now);
      var table, tombs := Bury(aged, dead, graves, epoch);
      SweptAndBuried(peers, graves, aged, dead, now, epoch);
      peers, graves, report := table, tombs, table;
    }
  }

  lemma SweptAndBuried(peers: Table, graves: Graves, aged: Table, dead: map<string, nat>, now: nat, epoch: nat)
    requires aged.Keys == peers.Keys && forall id :: id in peers ==> aged[id] == Marked(peers[id], now)
    requires dead == map id | id in peers && Expired(peers[id], now) :: peers[id].peer.incarnation
    ensures aged - dead.Keys == Survivors(peers, now)
    ensures graves + (map id | id in dead :: Tombstone(epoch, dead[id])) == Buried(peers, graves, now, epoch)
  {
  }

  /** The second pass moves each dead peer from the table to the tombstones. */
  method Bury(aged: Table, dead: map<string, nat>, graves: Graves, epoch: nat) returns (table: Table, tombs: Graves)
    requires dead.Keys <= aged.Keys
    ensures table == aged - dead.Keys
    ensures tombs == graves + map id | id in dead :: Tombstone(epoch, dead[id])
  {
    table, tombs := aged, graves;
    var left := dead.Keys;
    while left != {}
      invariant left <= dead.Keys
      invariant table == aged - (dead.Keys - left)
      invariant tombs == graves + map id | id in dead && id !in left :: Tombstone(epoch, dead[id])
    {
      var id :| id in left;
      table, tombs := table - {id}, tombs[id := Tombstone(epoch, dead[id])];
      left := left - {id};
    }
  }

  method EnterRelayed(local: string, peers: Table, relayed: seq<Peer>, now: nat) returns (table: Table)
    ensures table == AddRelayed(peers, local, relayed, now)
  {
    table := peers;
    for i := 0 to |relayed|
      invariant AddRelayed(table, local, relayed[i..], now) == AddRelayed(peers, local, relayed, now)
    {
      var p := relayed[i];
      assert relayed[i..][1..] == relayed[i + 1..];
      if p.id != local && p.id !in table {
        table := table[p.id := Entry(p, now)];
      }
    }
  }

  /** The states as the first pass leaves them. */
  function Marked(e: Entry, now: nat): Entry {
    if Expired(e, now) then e.(peer := e.peer.(state := Dead)) else Aged(e, now)
  }

  /** The first pass marks every entry in place and lists the dead with their incarnations. */
  method Sweep(peers: Table, now: nat) returns (table: Table, dead: map<string, nat>)
    ensures table.Keys == peers.Keys && forall id :: id in peers ==> table[id] == Marked(peers[id], now)
    ensures dead == map id | id in peers && Expired(peers[id], now) :: peers[id].peer.incarnation
  {
    table, dead := peers, map[];
    var left := peers.Keys;
    while left != {}
      invariant left <= peers.Keys == table.Keys
      invariant forall id :: id in peers ==> table[id] == if id in left then peers[id] else Marked(peers[id], now)
      invariant dead == map id | id in peers && id !in left && Expired(peers[id], now) :: peers[id].peer.incarnation
      decreases |left|
    {
      var id :| id in left;
      var e := peers[id];
      var elapsed := Age(e, now);
      if elapsed > DEAD_AFTER {
        table := table[id := e.(peer := e.peer.(state := Dead))];
        dead := dead[id := e.peer.incarnation];
      } else if elapsed > SUSPECT_AFTER {
        table := table[id := e.(peer := e.peer.(state := Suspect))];
      }
      left := left - {id};
    }
  }

  // ---- runs ----

  datatype State = State(peers: Table, graves: Graves)

  datatype Op = Beat(hb: Heartbeat, rtt: nat, now: nat) | Look(now: nat, epoch: nat)

  function Next(local: string, s: State, op: Op): State {
    match op
    case Beat(hb, rtt, now) => s.(peers := Merged(local, s.peers, s.graves, hb, rtt, now))
    case Look(now, epoch) => State(Survivors(s.peers, now), Buried(s.peers, s.graves, now, epoch))
  }

  function Run(local: string, ops: seq<Op>): State {
    if ops == [] then State(map[], map[]) else Next(local, Run(local, ops[..|ops| - 1]), ops[|ops| - 1])
  }

  /** What a heartbeat makes of one id. */
  lemma MergedAt(local: string, s: State, hb: Heartbeat, rtt: nat, now: nat, id: string)
    requires Accepts(local, s.peers, s.graves, hb)
    ensures Lookup(Merged(local, s.peers, s.graves, hb, rtt, now), id) ==
      if id == hb.sender then Some(Entry(Node(hb, rtt), now))
      else RelayedAt(s.peers, local, hb.relayed, now, id)
  {
    AddRelayedAt(s.peers[hb.sender := Entry(Node(hb, rtt), now)], local, hb.relayed, now, id);
  }

  /**
   * A heartbeat counts exactly if it is not the node's own, is above its sender's tombstone and is not
   * older than what is known; then the sender is alive with its facts as of now. Otherwise nothing changes.
   */
  lemma BeatEffect(local: string, s: State, hb: Heartbeat, rtt: nat, now: nat)
    ensures var t := Next(local, s, Beat(hb, rtt, now));
      var counts := hb.sender != local
        && !(hb.sender in s.graves && hb.incarnation <= s.graves[hb.sender].incarnation)
        && !(hb.sender in s.peers && (hb.timestamp < s.peers[hb.sender].peer.lastSeen
                                      || hb.incarnation < s.peers[hb.sender].peer.incarnation));
      var entry := Entry(Peer(hb.sender, hb.meta, Alive, hb.incarnation, hb.timestamp, rtt), now);
      && t.graves == s.graves && (!counts ==> t == s)
      && (counts ==> hb.sender in t.peers && t.peers[hb.sender] == entry)
  {
    if Accepts(local, s.peers, s.graves, hb) {
      MergedAt(local, s, hb, rtt, now, hb.sender);
    }
  }

  /** In every run, with any relayed lists, the local node is neither a peer nor buried. */
  lemma {:induction false} LocalNeverPeer(local: string, ops: seq<Op>)
    ensures local !in Run(local, ops).peers && local !in Run(local, ops).graves
  {
    if ops != [] {
      var s, op := Run(local, ops[..|ops| - 1]), ops[|ops| - 1];
      LocalNeverPeer(local, ops[..|ops| - 1]);
      if op.Beat? && Accepts(local, s.peers, s.graves, op.hb) {
        MergedAt(local, s, op.hb, op.rtt, op.now, local);
      }
    }
  }

  /** A peer that stays in the table never goes back in incarnation or timestamp. */
  lemma NeverBack(local: string, s: State, op: Op, id: string)
    requires id in s.peers && id in Next(local, s, op).peers
    ensures var before, after := s.peers[id].peer, Next(local, s, op).peers[id].peer;
      after.incarnation >= before.incarnation && after.lastSeen >= before.lastSeen
  {
    if op.Beat? && Accepts(local, s.peers, s.graves, op.hb) {
      MergedAt(local, s, op.hb, op.rtt, op.now, id);
    }
  }

  /** Any id both live and buried has a strictly larger live incarnation. */
  ghost predicate Superseded(s: State) {
    forall id :: id in s.peers && id in s.graves ==> Supersedes(s, id)
  }

  ghost predicate Supersedes(s: State, id: string)
    requires id in s.peers && id in s.graves
  {
    s.peers[id].peer.incarnation > s.graves[id].incarnation
  }

  /** The heartbeat would enter a relayed peer that is buried with at least that incarnation. */
  ghost predicate Resurrects(local: string, s: State, hb: Heartbeat, id: string) {
    id !in s.peers && id != hb.sender && id != local && id in s.graves
    && FirstOf(hb.relayed, id).Some? && FirstOf(hb.relayed, id).value.incarnation <= s.graves[id].incarnation
  }

  /** A snapshot always keeps live incarnations above buried ones. */
  lemma LookSupersedes(local: string, s: State, op: Op)
    requires Superseded(s) && op.Look?
    ensures Superseded(Next(local, s, op))
  {
    var t := Next(local, s, op);
    forall id | id in t.peers && id in t.graves
      ensures Supersedes(t, id)
    {
      assert Supersedes(s, id);
    }
  }

  /** An accepted heartbeat keeps them above if and only if it relays no buried peer back. */
  lemma BeatSupersedes(local: string, s: State, op: Op)
    requires Superseded(s) && op.Beat? && Accepts(local, s.peers, s.graves, op.hb)
    ensures Superseded(Next(local, s, op)) <==> forall id :: !Resurrects(local, s, op.hb, id)
  {
    var t := Next(local, s, op);
    forall id
      ensures id in t.peers && id in t.graves ==> (Supersedes(t, id) <==> !Resurrects(local, s, op.hb, id))
      ensures Resurrects(local, s, op.hb, id) ==> id in t.peers && id in t.graves
    {
      MergedAt(local, s, op.hb, op.rtt, op.now, id);
      assert id in s.peers && id in s.graves ==> Supersedes(s, id);
    }
  }

  /** No heartbeat of the run relays a buried peer back; in particular none with an empty list does. */
  ghost predicate NoResurrection(local: string, ops: seq<Op>) {
    ops != [] ==>
      var front, op := ops[..|ops| - 1], ops[|ops| - 1];
      NoResurrection(local, front)
      && (op.Beat? ==> forall id :: !Resurrects(local, Run(local, front), op.hb, id))
  }

  lemma {:induction false} EmptyListsResurrectNone(local: string, ops: seq<Op>)
    requires forall i :: 0 <= i < |ops| && ops[i].Beat? ==> ops[i].hb.relayed == []
    ensures NoResurrection(local, ops)
  {
    if ops != [] {
      EmptyListsResurrectNone(local, ops[..|ops| - 1]);
    }
  }

  lemma {:induction false} RunSuperseded(local: string, ops: seq<Op>)
    requires NoResurrection(local, ops)
    ensures Superseded(Run(local, ops))
  {
    if ops != [] {
      var s, op := Run(local, ops[..|ops| - 1]), ops[|ops| - 1];
      RunSuperseded(local, ops[..|ops| - 1]);
      if op.Look? {
        LookSupersedes(local, s, op);
      } else if Accepts(local, s.peers, s.graves, op.hb) {
        BeatSupersedes(local, s, op);
      }
    }
  }

  /**
   * In such a run a tombstone is never lost and changes only on a re-death, which strictly raises its
   * incarnation.
   */
  lemma GravesGrow(local: string, ops: seq<Op>, op: Op, id: string)
    requires NoResurrection(local, ops) && id in Run(local, ops).graves
    ensures var s, t := Run(local, ops), Next(local, Run(local, ops), op);
      id in t.graves
      && (if op.Look? && id in s.peers && Expired(s.peers[id], op.now)
          then t.graves[id].incarnation > s.graves[id].incarnation
          else t.graves[id] == s.graves[id])
  {
    RunSuperseded(local, ops);
    var s := Run(local, ops);
    assert id in s.peers ==> Supersedes(s, id);
  }

  /** A relayed list does bring a buried peer back, and its second death does not raise the tombstone. */
  lemma RelayResurrects(local: string, p: Peer, a: string, meta: Meta)
    returns (ops: seq<Op>)
    requires p.id != local && a != local && a != p.id && p.state == Alive
    ensures var s := Run(local, ops);
      p.id in s.peers && p.id in s.graves && s.peers[p.id].peer.incarnation == s.graves[p.id].incarnation
  {
    var hb := Heartbeat(p.id, p.meta, p.incarnation, p.lastSeen, []);
    var relay := Heartbeat(a, meta, 1, 1, [p]);
    var o1, o2, o3 := Beat(hb, 0, 0), Look(DEAD_AFTER + 1, 0), Beat(relay, 0, DEAD_AFTER + 2);
    ops := [o1, o2, o3];
    assert ops[..2] == [o1, o2] && [o1, o2][..1] == [o1] && [o1][..0] == [];
    assert Run(local, []) == State(map[], map[]);
    MergedAt(local, Run(local, []), hb, 0, 0, p.id);
    assert p.id in Run(local, [o1]).peers;
    var s := Run(local, [o1, o2]);
    assert p.id !in s.peers && p.id in s.graves;
    assert s.peers == map[] by {
      assert Run(local, [o1]).peers == map[p.id := Entry(Node(hb, 0), 0)];
    }
    assert FirstOf(relay.relayed, p.id) == Some(p);
    MergedAt(local, s, relay, 0, DEAD_AFTER + 2, p.id);
  }

  // ---- what a snapshot reports ----

  /** Every entry younger than the suspicion age is marked alive. */
  ghost predicate Timely(s: State, now: nat) {
    forall id :: id in s.peers ==> TimelyAt(s, now, id)
  }

  ghost predicate TimelyAt(s: State, now: nat, id: string)
    requires id in s.peers
  {
    s.peers[id].peer.state == Alive || (s.peers[id].peer.state == Suspect && Age(s.peers[id], now) > SUSPECT_AFTER)
  }

  /** A snapshot reports no peer over 120 s, and Suspect exactly from 30 s on, if the table is timely. */
  lemma ReportExact(local: string, s: State, now: nat, epoch: nat, id: string)
    requires Timely(s, now) && id in s.peers
    ensures var report, arrived := Next(local, s, Look(now, epoch)).peers, s.peers[id].arrived;
      (id in report <==> now <= arrived + 120_000)
      && (id in report ==> report[id].peer.state == if now > arrived + 30_000 then Suspect else Alive)
      && (id in report ==> report[id] == s.peers[id].(peer := s.peers[id].peer.(state := report[id].peer.state)))
      && (now > arrived + 120_000 ==>
            id in Next(local, s, Look(now, epoch)).graves
            && Next(local, s, Look(now, epoch)).graves[id] == Tombstone(epoch, s.peers[id].peer.incarnation))
  {
    assert TimelyAt(s, now, id);
  }

  /** The heartbeat would enter a relayed peer that is not marked alive. */
  ghost predicate RelaysSick(local: string, s: State, hb: Heartbeat, id: string) {
    id !in s.peers && id != hb.sender && id != local
    && FirstOf(hb.relayed, id).Some? && FirstOf(hb.relayed, id).value.state != Alive
  }

  /** A timely table stays timely as the clock advances, and through every snapshot. */
  lemma LookTimely(local: string, s: State, now: nat, epoch: nat, later: nat)
    requires Timely(s, now) && now <= later
    ensures Timely(s, later) && Timely(Next(local, s, Look(now, epoch)), later)
  {
    forall id | id in s.peers
      ensures TimelyAt(s, later, id)
    {
      assert TimelyAt(s, now, id);
    }
    var t := Next(local, s, Look(now, epoch));
    forall id | id in t.peers
      ensures TimelyAt(t, later, id)
    {
      assert TimelyAt(s, now, id);
    }
  }

  /** A heartbeat keeps the table timely if and only if it relays no sick peer in. */
  lemma BeatTimely(local: string, s: State, op: Op)
    requires Timely(s, op.now) && op.Beat? && Accepts(local, s.peers, s.graves, op.hb)
    ensures Timely(Next(local, s, op), op.now) <==> forall id :: !RelaysSick(local, s, op.hb, id)
  {
    var t := Next(local, s, op);
    forall id
      ensures id in t.peers ==> (TimelyAt(t, op.now, id) <==> !RelaysSick(local, s, op.hb, id))
      ensures RelaysSick(local, s, op.hb, id) ==> id in t.peers
    {
      MergedAt(local, s, op.hb, op.rtt, op.now, id);
      assert id in s.peers ==> TimelyAt(s, op.now, id);
    }
  }

  ghost predicate NoSickRelay(local: string, ops: seq<Op>) {
    ops != [] ==>
      var front, op := ops[..|ops| - 1], ops[|ops| - 1];
      NoSickRelay(local, front)
      && (op.Beat? ==> forall id :: !RelaysSick(local, Run(local, front), op.hb, id))
      && (front != [] ==> front[|front| - 1].now <= op.now)
  }

  /** In every run under a monotone clock that relays no sick peer, every snapshot's report is exact. */
  lemma {:induction false} RunTimely(local: string, ops: seq<Op>, now: nat)
    requires NoSickRelay(local, ops) && (ops != [] ==> ops[|ops| - 1].now <= now)
    ensures Timely(Run(local, ops), now)
  {
    if ops != [] {
      var front, op := ops[..|ops| - 1], ops[|ops| - 1];
      var s := Run(local, front);
      RunTimely(local, front, op.now);
      if op.Look? {
        LookTimely(local, s, op.now, op.epoch, now);
      } else {
        if Accepts(local, s.peers, s.graves, op.hb) {
          BeatTimely(local, s, op);
        }
        LookTimely(local, Next(local, s, op), op.now, 0, now);
      }
    }
  }

  // ---- order and duplication of heartbeats ----

  /** What a heartbeat says of its sender; round-trip and arrival times are local. */
  datatype Fact = Fact(meta: Meta, incarnation: nat, timestamp: nat)

  function FactOf(hb: Heartbeat): Fact { Fact(hb.meta, hb.incarnation, hb.timestamp) }

  function Facts(peers: Table): map<string, (Health, Fact)> {
    map id | id in peers :: (peers[id].peer.state, Fact(peers[id].peer.meta, peers[id].peer.incarnation, peers[id].peer.lastSeen))
  }

  predicate NotNewer(a: Heartbeat, b: Heartbeat) {
    a.timestamp <= b.timestamp && a.incarnation <= b.incarnation
  }

  /** Two heartbeats say the same, or one is strictly the newer. */
  predicate Comparable(a: Heartbeat, b: Heartbeat) {
    FactOf(a) == FactOf(b) || (NotNewer(a, b) && !NotNewer(b, a)) || (NotNewer(b, a) && !NotNewer(a, b))
  }

  /** Direct heartbeats, not from the local node; each sender's are comparable. */
  ghost predicate Orderly(local: string, hbs: seq<Heartbeat>) {
    (forall i :: 0 <= i < |hbs| ==> hbs[i].sender != local && hbs[i].relayed == [])
    && forall i, j :: 0 <= i < |hbs| && 0 <= j < |hbs| && hbs[i].sender == hbs[j].sender ==> Comparable(hbs[i], hbs[j])
  }

  /** Some arrival times and round-trip times for the heartbeats. */
  datatype Arrival = Arrival(rtt: nat, now: nat)

  function MergeAll(local: string, hbs: seq<Heartbeat>, when: seq<Arrival>): Table
    requires |when| == |hbs|
  {
    if hbs == [] then map[]
    else
      var n := |hbs| - 1;
      Merged(local, MergeAll(local, hbs[..n], when[..n]), map[], hbs[n], when[n].rtt, when[n].now)
  }

  /** The newest heartbeat of its sender. */
  ghost predicate Newest(hb: Heartbeat, hbs: seq<Heartbeat>) {
    hb in hbs && forall i :: 0 <= i < |hbs| && hbs[i].sender == hb.sender ==> NotNewer(hbs[i], hb)
  }

  /** The table holds, for every sender, the facts of its newest heartbeat, and nothing else. */
  ghost predicate HoldsNewest(facts: map<string, (Health, Fact)>, hbs: seq<Heartbeat>) {
    (forall i :: 0 <= i < |hbs| ==> hbs[i].sender in facts)
    && forall id :: id in facts ==> HeldFrom(facts, hbs, id)
  }

  ghost predicate HeldFrom(facts: map<string, (Health, Fact)>, hbs: seq<Heartbeat>, id: string)
    requires id in facts
  {
    exists hb :: Newest(hb, hbs) && hb.sender == id && facts[id] == (Alive, FactOf(hb))
  }

  lemma {:induction false} MergeAllHoldsNewest(local: string, hbs: seq<Heartbeat>, when: seq<Arrival>)
    requires |when| == |hbs| && Orderly(local, hbs)
    ensures HoldsNewest(Facts(MergeAll(local, hbs, when)), hbs)
  {
    if hbs != [] {
      var n := |hbs| - 1;
      var front, last := hbs[..n], hbs[n];
      assert hbs == front + [last];
      MergeAllHoldsNewest(local, front, when[..n]);
      forall i | 0 <= i < n && front[i].sender == last.sender
        ensures Comparable(front[i], last)
      {
        assert Comparable(hbs[i], hbs[n]);
      }
      MergeOneMore(local, MergeAll(local, front, when[..n]), front, last, when[n]);
    }
  }

  lemma MergeOneMore(local: string, before: Table, front: seq<Heartbeat>, last: Heartbeat, w: Arrival)
    requires HoldsNewest(Facts(before), front) && last.sender != local && last.relayed == []
    requires forall i :: 0 <= i < |front| && front[i].sender == last.sender ==> Comparable(front[i], last)
    ensures HoldsNewest(Facts(Merged(local, before, map[], last, w.rtt, w.now)), front + [last])
  {
    var entered := before[last.sender := Entry(Node(last, w.rtt), w.now)];
    if last.sender in before {
      assert HeldFrom(Facts(before), front, last.sender);
      var held :| Newest(held, front) && held.sender == last.sender && Facts(before)[last.sender] == (Alive, FactOf(held));
      if NotNewer(held, last) {
        NewestOfBoth(front, held, last);
        OthersHeld(before, entered, front, last, last);
      } else {
        NewestKept(front, held, last);
        OthersHeld(before, before, front, last, held);
      }
    } else {
      FirstOfSender(Facts(before), front, last);
      OthersHeld(before, entered, front, last, last);
    }
  }

  lemma FirstOfSender(facts: map<string, (Health, Fact)>, front: seq<Heartbeat>, last: Heartbeat)
    requires HoldsNewest(facts, front) && last.sender !in facts
    ensures Newest(last, front + [last])
  {
    assert forall i :: 0 <= i < |front| ==> front[i].sender in facts;
  }

  lemma NewestOfBoth(front: seq<Heartbeat>, held: Heartbeat, last: Heartbeat)
    requires Newest(held, front) && held.sender == last.sender && NotNewer(held, last)
    ensures Newest(last, front + [last])
  {
    forall i | 0 <= i < |front + [last]| && (front + [last])[i].sender == last.sender
      ensures NotNewer((front + [last])[i], last)
    {
      if i < |front| {
        assert NotNewer(front[i], held);
      }
    }
  }

  lemma NewestKept(front: seq<Heartbeat>, held: Heartbeat, last: Heartbeat)
    requires Newest(held, front) && held.sender == last.sender && NotNewer(last, held)
    ensures Newest(held, front + [last])
  {
    forall i | 0 <= i < |front + [last]| && (front + [last])[i].sender == held.sender
      ensures NotNewer((front + [last])[i], held)
    {
      if i < |front| {
        assert NotNewer(front[i], held);
      }
    }
  }

  /** The other senders' rows are untouched, so the whole table holds the newest. */
  lemma OthersHeld(before: Table, after: Table, front: seq<Heartbeat>, last: Heartbeat, top: Heartbeat)
    requires HoldsNewest(Facts(before), front)
    requires top.sender == last.sender && Newest(top, front + [last])
    requires last.sender in after && Facts(after)[last.sender] == (Alive, FactOf(top))
    requires forall id :: id != last.sender ==> Lookup(after, id) == Lookup(before, id)
    ensures HoldsNewest(Facts(after), front + [last])
  {
    var hbs := front + [last];
    forall id | id in Facts(after)
      ensures HeldFrom(Facts(after), hbs, id)
    {
      if id != last.sender {
        assert Lookup(after, id) == Lookup(before, id);
        assert HeldFrom(Facts(before), front, id);
        var hb :| Newest(hb, front) && hb.sender == id && Facts(before)[id] == (Alive, FactOf(hb));
        assert Newest(hb, hbs);
      }
    }
    forall i | 0 <= i < |hbs|
      ensures hbs[i].sender in Facts(after)
    {
      if hbs[i].sender != last.sender {
        assert front[i].sender in Facts(before);
        assert Lookup(after, hbs[i].sender) == Lookup(before, hbs[i].sender);
      }
    }
  }

  /**
   * Merging the same heartbeats in any order, with any repetitions and at any times, leaves the same
   * facts in the table.
   */
  lemma OrderAndDuplicatesDoNotMatter(local: string, xs: seq<Heartbeat>, ys: seq<Heartbeat>, when: seq<Arrival>, then': seq<Arrival>)
    requires |when| == |xs| && |then'| == |ys| && Orderly(local, xs) && Orderly(local, ys)
    requires forall hb :: hb in xs <==> hb in ys
    ensures Facts(MergeAll(local, xs, when)) == Facts(MergeAll(local, ys, then'))
  {
    var f, g := Facts(MergeAll(local, xs, when)), Facts(MergeAll(local, ys, then'));
    MergeAllHoldsNewest(local, xs, when);
    MergeAllHoldsNewest(local, ys, then');
    SameNewest(local, f, g, xs, ys);
    SameNewest(local, g, f, ys, xs);
    assert f == g;
  }

  lemma SameNewest(local: string, f: map<string, (Health, Fact)>, g: map<string, (Health, Fact)>, xs: seq<Heartbeat>, ys: seq<Heartbeat>)
    requires HoldsNewest(f, xs) && HoldsNewest(g, ys) && Orderly(local, ys)
    requires forall hb :: hb in xs <==> hb in ys
    ensures forall id :: id in f ==> id in g && g[id] == f[id]
  {
    forall id | id in f
      ensures id in g && g[id] == f[id]
    {
      assert HeldFrom(f, xs, id);
      var a :| Newest(a, xs) && a.sender == id && f[id] == (Alive, FactOf(a));
      assert a in ys;
      var i :| 0 <= i < |ys| && ys[i] == a;
      assert ys[i].sender in g;
      assert HeldFrom(g, ys, id);
      var b :| Newest(b, ys) && b.sender == id && g[id] == (Alive, FactOf(b));
      assert b in xs;
      var j :| 0 <= j < |xs| && xs[j] == b;
      assert NotNewer(xs[j], a) && NotNewer(ys[i], b);
      var k :| 0 <= k < |ys| && ys[k] == b;
      assert Comparable(ys[i], ys[k]);
    }
  }

  /** For two heartbeats of one sender, order does not matter if and only if they are comparable. */
  lemma PairCommutesIffComparable(local: string, a: Heartbeat, b: Heartbeat, t: Arrival, u: Arrival)
    requires a.sender == b.sender != local && a.relayed == [] && b.relayed == []
    ensures Facts(MergeAll(local, [a, b], [t, u])) == Facts(MergeAll(local, [b, a], [t, u])) <==> Comparable(a, b)
  {
    PairMerged(local, a, b, t, u);
    PairMerged(local, b, a, t, u);
    var f, g := Facts(MergeAll(local, [a, b], [t, u])), Facts(MergeAll(local, [b, a], [t, u]));
    assert f == g ==> f[a.sender] == g[a.sender];
  }

  lemma PairMerged(local: string, a: Heartbeat, b: Heartbeat, t: Arrival, u: Arrival)
    requires a.sender == b.sender != local && a.relayed == [] && b.relayed == []
    ensures Facts(MergeAll(local, [a, b], [t, u])) ==
      map[a.sender := (Alive, FactOf(if NotNewer(a, b) then b else a))]
  {
    assert [a, b][..1] == [a] && [t, u][..1] == [t] && [a][..0] == [] && [t][..0] == [];
    assert MergeAll(local, [], []) == map[];
    var one := MergeAll(local, [a], [t]);
    assert one == map[a.sender := Entry(Node(a, t.rtt), t.now)];
    assert MergeAll(local, [a, b], [t, u]) == if NotNewer(a, b) then one[b.sender := Entry(Node(b, u.rtt), u.now)] else one;
  }
}
