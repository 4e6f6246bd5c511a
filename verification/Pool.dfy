// The standby tunnel pool: checkout over per-endpoint stacks (crates/transport/src/pool.rs).

module Pool {
  import opened Common
  import opened Sums

  /** A standby session; `conn` names the underlying WebSocket. */
  datatype Session = Session(conn: nat, born: nat, fp: string)

  type Stacks = map<string, seq<Session>>

  /** What one checkout looks at: the expected fingerprint (if any), the clock and the time to live. */
  datatype Lens = Lens(fp: Option<string>, now: nat, ttl: nat)

  function Elapsed(born: nat, now: nat): nat { if now >= born then now - born else 0 }

  predicate Expired(s: Session, q: Lens) { Elapsed(s.born, q.now) >= q.ttl }

  predicate Usable(s: Session, q: Lens) { !Expired(s, q) && (q.fp.Some? ==> s.fp == q.fp.value) }

  /** The unexpired sessions of a stack, in order. */
  function Fresh(v: seq<Session>, q: Lens): (r: seq<Session>)
    ensures |r| <= |v|
  {
    if v == [] then [] else (if Expired(v[0], q) then [] else [v[0]]) + Fresh(v[1..], q)
  }

  /** Position of the most recently pushed usable session. */
  function TopUsable(v: seq<Session>, q: Lens): (r: Option<nat>)
    ensures r.Some? ==> r.value < |v| && Usable(v[r.value], q) && forall j :: r.value < j < |v| ==> !Usable(v[j], q)
    ensures r.None? ==> forall j :: 0 <= j < |v| ==> !Usable(v[j], q)
  {
    if v == [] then None
    else if Usable(v[|v| - 1], q) then Some(|v| - 1)
    else TopUsable(v[..|v| - 1], q)
  }

  predicate Serves(m: Stacks, u: string, q: Lens) { u in m && TopUsable(m[u], q).Some? }

  /** Position of the first listed endpoint that has a usable session. */
  function FirstServing(m: Stacks, urls: seq<string>, q: Lens): (r: Option<nat>)
    ensures r.Some? ==> r.value < |urls| && Serves(m, urls[r.value], q)
    ensures forall i :: 0 <= i < (if r.Some? then r.value else |urls|) ==> !Serves(m, urls[i], q)
  {
    if urls == [] then None
    else if Serves(m, urls[0], q) then Some(0)
    else
      match FirstServing(m, urls[1..], q)
      case None => None
      case Some(i) => Some(i + 1)
  }

  /** The session a checkout hands out, with the endpoint it came from. */
  function Hit(m: Stacks, urls: seq<string>, q: Lens): Option<(Session, string)> {
    match FirstServing(m, urls, q)
    case None => None
    case Some(i) => Some((m[urls[i]][TopUsable(m[urls[i]], q).value], urls[i]))
  }

  /** A stack after its topmost usable session, at position j, is taken. */
  function Taken(v: seq<Session>, j: nat, q: Lens): seq<Session>
    requires j < |v|
  {
    v[..j] + Fresh(v[j + 1..], q)
  }

  /** The pool after a checkout. */
  function After(m: Stacks, urls: seq<string>, q: Lens): Stacks {
    match FirstServing(m, urls, q)
    case None => map k | k in m :: if k in urls then Fresh(m[k], q) else m[k]
    case Some(i) =>
      map k | k in m ::
        if k in urls[..i] then Fresh(m[k], q)
        else if k == urls[i] then Taken(m[k], TopUsable(m[urls[i]], q).value, q)
        else m[k]
  }

  ghost function Total(m: Stacks): nat { Sum(map k | k in m :: |m[k]|) }

  lemma TotalUpdate(m: Stacks, k: string, v: seq<Session>)
    ensures Total(m[k := v]) == Total(m) - (if k in m then |m[k]| else 0) + |v|
  {
    var sizes := map x | x in m :: |m[x]|;
    var m' := m[k := v];
    SumUpdate(sizes, k, |v|);
    assert (map x | x in m' :: |m'[x]|) == sizes[k := |v|];
  }

  /** The stashed sessions of one key in the order in which put-back restores them. */
  function Back(stash: seq<(string, Session)>, k: string): seq<Session> {
    if stash == [] then []
    else
      var (key, s) := stash[|stash| - 1];
      (if key == k then [s] else []) + Back(stash[..|stash| - 1], k)
  }

  /** State of the scan after a prefix of the endpoints gave no session. */
  ghost predicate Scanned(m: Stacks, idle: Stacks, stash: seq<(string, Session)>, prefix: seq<string>, q: Lens) {
    && idle.Keys == m.Keys
    && (forall u :: u in prefix ==> !Serves(m, u, q))
    && forall k :: k in m ==>
      if k in prefix then idle[k] == [] && Back(stash, k) == Fresh(m[k], q)
      else idle[k] == m[k] && Back(stash, k) == []
  }

  /** Putting the stash back gives `goal`. */
  ghost predicate Restores(idle: Stacks, stash: seq<(string, Session)>, goal: Stacks) {
    && idle.Keys == goal.Keys
    && forall k :: k in goal ==> idle[k] + Back(stash, k) == goal[k]
  }

  /** Effect of popping one endpoint's stack v until a usable session turns up. */
  ghost predicate Popped(v: seq<Session>, rest: seq<Session>, gone: seq<Session>, hit: Option<Session>, q: Lens) {
    match TopUsable(v, q)
    case None => hit == None && rest == [] && gone == Fresh(v, q)
    case Some(j) => hit == Some(v[j]) && rest == v[..j] && gone == Fresh(v[j + 1..], q)
  }

  ghost predicate Stashed(stash: seq<(string, Session)>, stash': seq<(string, Session)>, u: string, gone: seq<Session>) {
    && |stash'| == |stash| + |gone|
    && Back(stash', u) == gone + Back(stash, u)
    && (forall k :: k != u ==> Back(stash', k) == Back(stash, k))
    && (forall e :: e in stash' ==> e in stash || e.0 == u)
  }

  ghost predicate AnyHeld(m: Stacks, prefix: seq<string>) { exists u :: u in prefix && u in m && m[u] != [] }

  /**
   * Pops one endpoint's stack until a usable session turns up: expired sessions are dropped,
   * sessions with another fingerprint go to the stash.
   */
  method PopUsable(u: string, v: seq<Session>, q: Lens, stash: seq<(string, Session)>)
    returns (rest: seq<Session>, stash': seq<(string, Session)>, hit: Option<Session>, dropped: nat, ghost gone: seq<Session>)
    ensures Popped(v, rest, gone, hit, q)
    ensures Stashed(stash, stash', u, gone)
    ensures |v| == |rest| + |gone| + dropped + (if hit.Some? then 1 else 0)
  {
    rest, stash', hit, dropped, gone := v, stash, None, 0, [];
    while rest != []
      invariant Popping(v, rest, gone, q) && hit.None?
      invariant Stashed(stash, stash', u, gone)
      invariant |v| == |rest| + |gone| + dropped
      decreases |rest|
    {
      var top := |rest| - 1;
      var s := rest[top];
      PopOne(v, rest, gone, q);
      rest := rest[..top];
      if Expired(s, q) {
        dropped := dropped + 1;
      } else if q.fp.Some? && s.fp != q.fp.value {
        StashOne(stash, stash', u, gone, s);
        stash', gone := stash' + [(u, s)], [s] + gone;
      } else {
        TopIs(v, top, q);
        return rest, stash', Some(s), dropped, gone;
      }
    }
    assert v[0..] == v;
    NoTop(v, q);
  }

  /** What has been popped so far held no usable session, and gone is its unexpired part. */
  ghost predicate Popping(v: seq<Session>, rest: seq<Session>, gone: seq<Session>, q: Lens) {
    && |rest| <= |v| && rest == v[..|rest|] && gone == Fresh(v[|rest|..], q)
    && forall j :: |rest| <= j < |v| ==> !Usable(v[j], q)
  }

  lemma PopOne(v: seq<Session>, rest: seq<Session>, gone: seq<Session>, q: Lens)
    requires Popping(v, rest, gone, q) && rest != []
    ensures var top := |rest| - 1;
      && rest[top] == v[top] && rest[..top] == v[..top] && v[top + 1..] == v[|rest|..]
      && (!Usable(v[top], q) ==> Popping(v, rest[..top], if Expired(v[top], q) then gone else [v[top]] + gone, q))
  {
    var top := |rest| - 1;
    assert v[top..] == [v[top]] + v[top + 1..];
    FreshCons(v[top], v[top + 1..], q);
  }

  /** Restores the stash in reverse, so that each key gets its sessions back in their old order. */
  method PutBack(m: Stacks, stash: seq<(string, Session)>) returns (r: Stacks)
    requires forall e :: e in stash ==> e.0 in m
    ensures Restores(m, stash, r)
    ensures Total(r) == Total(m) + |stash|
  {
    r := m;
    var n := |stash|;
    assert stash[..n] == stash;
    while n > 0
      invariant 0 <= n <= |stash|
      invariant r.Keys == m.Keys
      invariant Total(r) + n == Total(m) + |stash|
      invariant SamePut(r, stash[..n], m, stash)
    {
      n := n - 1;
      var (key, s) := stash[n];
      assert stash[n] in stash;
      TotalUpdate(r, key, r[key] + [s]);
      PushStep(r, stash, n);
      r := r[key := r[key] + [s]];
    }
  }

  /** Putting back either stash onto its map gives the same pool. */
  ghost predicate SamePut(r: Stacks, stash: seq<(string, Session)>, m: Stacks, stash': seq<(string, Session)>) {
    r.Keys == m.Keys && forall k :: k in m ==> r[k] + Back(stash, k) == m[k] + Back(stash', k)
  }

  lemma PushStep(r: Stacks, stash: seq<(string, Session)>, n: nat)
    requires n < |stash| && stash[n].0 in r
    ensures var (key, s) := stash[n]; SamePut(r[key := r[key] + [s]], stash[..n], r, stash[..n + 1])
  {
    assert stash[..n + 1][..n] == stash[..n];
    var (key, s) := stash[n];
    assert r[key] + [s] + Back(stash[..n], key) == r[key] + ([s] + Back(stash[..n], key));
    assert forall k :: [] + Back(stash[..n], k) == Back(stash[..n], k);
  }

  /** One endpoint of the scan. */
  method ScanOne(ghost m: Stacks, idle: Stacks, stash: seq<(string, Session)>, urls: seq<string>, i: nat, q: Lens)
    returns (idle': Stacks, stash': seq<(string, Session)>, result: Option<(Session, string)>, dropped: nat, popped: bool)
    requires i < |urls| && Scanned(m, idle, stash, urls[..i], q)
    requires forall e :: e in stash ==> e.0 in m
    ensures forall e :: e in stash' ==> e.0 in m
    ensures Total(idle) + |stash| == Total(idle') + |stash'| + dropped + (if result.Some? then 1 else 0)
    ensures result.None? ==> Scanned(m, idle', stash', urls[..i + 1], q)
    ensures result.None? ==> AnyHeld(m, urls[..i + 1]) == (AnyHeld(m, urls[..i]) || popped)
    ensures result.Some? ==> Done(m, idle', stash', urls, q, result)
  {
    var u := urls[i];
    if u !in idle {
      ScanAbsent(m, idle, stash, urls, i, q);
      return idle, stash, None, 0, false;
    }
    var rest, stash1, hit, n, gone := PopUsable(u, idle[u], q, stash);
    TotalUpdate(idle, u, rest);
    idle', stash', dropped, popped := idle[u := rest], stash1, n, idle[u] != [];
    if hit.Some? {
      result := Some((hit.value, u));
      ScanHit(m, idle, stash, urls, i, q, idle', stash', hit.value, gone);
    } else {
      result := None;
      ScanMiss(m, idle, stash, urls, i, q, idle', stash', gone);
    }
  }

  ghost predicate Done(m: Stacks, idle: Stacks, stash: seq<(string, Session)>, urls: seq<string>, q: Lens,
                       result: Option<(Session, string)>) {
    result == Hit(m, urls, q) && Restores(idle, stash, After(m, urls, q))
  }

  /** Everything checkout does while it holds the lock. */
  method TakeSession(m: Stacks, urls: seq<string>, q: Lens)
    returns (after: Stacks, result: Option<(Session, string)>, dropped: nat, poppedAny: bool)
    ensures result == Hit(m, urls, q)
    ensures after == After(m, urls, q)
    ensures Total(m) == Total(after) + dropped + (if result.Some? then 1 else 0)
    ensures result.None? ==> poppedAny == AnyHeld(m, urls)
  {
    after, result, dropped, poppedAny := m, None, 0, false;
    var stash: seq<(string, Session)> := [];
    var i := 0;
    while i < |urls| && result.None?
      invariant 0 <= i <= |urls|
      invariant forall e :: e in stash ==> e.0 in m
      invariant Total(m) == Total(after) + |stash| + dropped + (if result.Some? then 1 else 0)
      invariant result.None? ==> Scanned(m, after, stash, urls[..i], q)
      invariant result.None? ==> poppedAny == AnyHeld(m, urls[..i])
      invariant result.Some? ==> Done(m, after, stash, urls, q, result)
    {
      var n, popped;
      after, stash, result, n, popped := ScanOne(m, after, stash, urls, i, q);
      dropped, poppedAny := dropped + n, poppedAny || popped;
      i := i + 1;
    }
    if result.None? {
      ScanEnd(m, after, stash, urls, i, q);
    }
    ghost var popped := after;
    DoneKeys(m, after, stash, urls, q, result);
    after := PutBack(after, stash);
    RestoresUnique(popped, stash, after, After(m, urls, q));
  }

  lemma DoneKeys(m: Stacks, idle: Stacks, stash: seq<(string, Session)>, urls: seq<string>, q: Lens,
                 result: Option<(Session, string)>)
    requires Done(m, idle, stash, urls, q, result)
    ensures idle.Keys == m.Keys
  {
  }

  class TunnelPool {
    var idle: Stacks
    var hits: nat
    var misses: nat
    var expired: nat
    var wakeups: nat
    const ttl: nat

    constructor (ttl: nat)
      ensures idle == map[] && hits == misses == expired == wakeups == 0 && this.ttl == ttl
    {
      this.ttl := ttl;
      idle, hits, misses, expired, wakeups := map[], 0, 0, 0, 0;
    }

    /** Takes the best session, dropping what has expired and putting mismatched sessions back. */
    method Checkout(urls: seq<string>, fp: Option<string>, now: nat) returns (result: Option<(Session, string)>)
      modifies this
      ensures result == Hit(old(idle), urls, Lens(fp, now, ttl))
      ensures idle == After(old(idle), urls, Lens(fp, now, ttl))
      ensures hits == old(hits) + (if result.Some? then 1 else 0)
      ensures misses == old(misses) + (if result.Some? then 0 else 1)
      ensures Total(old(idle)) == Total(idle) + (hits - old(hits)) + (expired - old(expired))
      ensures wakeups == old(wakeups) + (if result.Some? || AnyHeld(old(idle), urls) then 1 else 0)
    {
      var after, dropped, poppedAny;
      after, result, dropped, poppedAny := TakeSession(idle, urls, Lens(fp, now, ttl));
      idle := after;
      expired := expired + dropped;
      if result.Some? {
        hits := hits + 1;
        wakeups := wakeups + 1;
      } else {
        misses := misses + 1;
        if poppedAny {
          wakeups := wakeups + 1;
        }
      }
    }

    method Invalidate()
      modifies this
      ensures idle == map[] && wakeups == old(wakeups) + 1
      ensures hits == old(hits) && misses == old(misses) && expired == old(expired)
    {
      idle := map[];
      wakeups := wakeups + 1;
    }
  }

  lemma TopIs(v: seq<Session>, top: nat, q: Lens)
    requires top < |v| && Usable(v[top], q)
    requires forall j :: top < j < |v| ==> !Usable(v[j], q)
    ensures TopUsable(v, q) == Some(top)
  {
    assert TopUsable(v, q).Some?;
  }

  lemma NoTop(v: seq<Session>, q: Lens)
    requires forall j :: 0 <= j < |v| ==> !Usable(v[j], q)
    ensures TopUsable(v, q) == None
  {
  }

  lemma FirstIs(m: Stacks, urls: seq<string>, i: nat, q: Lens)
    requires i < |urls| && Serves(m, urls[i], q)
    requires forall j :: 0 <= j < i ==> !Serves(m, urls[j], q)
    ensures FirstServing(m, urls, q) == Some(i)
  {
    assert FirstServing(m, urls, q).Some?;
  }

  lemma StashOne(stash: seq<(string, Session)>, stash': seq<(string, Session)>, u: string, gone: seq<Session>, s: Session)
    requires Stashed(stash, stash', u, gone)
    ensures Stashed(stash, stash' + [(u, s)], u, [s] + gone)
  {
    var more := stash' + [(u, s)];
    assert more[..|more| - 1] == stash';
    forall k
      ensures Back(more, k) == (if k == u then [s] else []) + Back(stash', k)
    {
    }
    assert [s] + (gone + Back(stash, u)) == [s] + gone + Back(stash, u);
  }

  lemma RestoresUnique(idle: Stacks, stash: seq<(string, Session)>, a: Stacks, b: Stacks)
    requires Restores(idle, stash, a) && Restores(idle, stash, b)
    ensures a == b
  {
    assert forall k :: k in a ==> a[k] == b[k];
  }

  lemma ScanAbsent(m: Stacks, idle: Stacks, stash: seq<(string, Session)>, urls: seq<string>, i: nat, q: Lens)
    requires i < |urls| && Scanned(m, idle, stash, urls[..i], q) && urls[i] !in m
    ensures Scanned(m, idle, stash, urls[..i + 1], q)
    ensures AnyHeld(m, urls[..i + 1]) == AnyHeld(m, urls[..i])
  {
    assert forall x :: x in urls[..i + 1] <==> x in urls[..i] || x == urls[i];
  }

  lemma ScanMiss(m: Stacks, idle: Stacks, stash: seq<(string, Session)>, urls: seq<string>, i: nat, q: Lens,
                 idle': Stacks, stash': seq<(string, Session)>, gone: seq<Session>)
    requires i < |urls| && Scanned(m, idle, stash, urls[..i], q) && urls[i] in m
    requires idle'.Keys == m.Keys && forall k :: k in m && k != urls[i] ==> idle'[k] == idle[k]
    requires Popped(idle[urls[i]], idle'[urls[i]], gone, None, q) && Stashed(stash, stash', urls[i], gone)
    ensures Scanned(m, idle', stash', urls[..i + 1], q)
    ensures AnyHeld(m, urls[..i + 1]) == (AnyHeld(m, urls[..i]) || idle[urls[i]] != [])
  {
    var before, after, u := urls[..i], urls[..i + 1], urls[i];
    assert forall x :: x in after <==> x in before || x == u;
    assert gone + [] == gone;
    MissedKeys(m, idle, stash, before, after, u, q, idle', stash', gone);
    HeldStep(m, before, after, u);
    if u in before && m[u] != [] {
      assert AnyHeld(m, before);
    }
  }

  /** An endpoint without a usable session leaves the scan with one more endpoint behind it. */
  lemma MissedKeys(m: Stacks, idle: Stacks, stash: seq<(string, Session)>, before: seq<string>, after: seq<string>,
                   u: string, q: Lens, idle': Stacks, stash': seq<(string, Session)>, gone: seq<Session>)
    requires Scanned(m, idle, stash, before, q) && u in m && forall x :: x in after <==> x in before || x == u
    requires idle'.Keys == m.Keys && forall k :: k in m && k != u ==> idle'[k] == idle[k]
    requires Popped(idle[u], idle'[u], gone, None, q) && Stashed(stash, stash', u, gone)
    ensures Scanned(m, idle', stash', after, q)
  {
    assert gone + [] == gone;
  }

  lemma HeldStep(m: Stacks, before: seq<string>, after: seq<string>, u: string)
    requires u in m && forall x :: x in after <==> x in before || x == u
    ensures AnyHeld(m, after) == (AnyHeld(m, before) || m[u] != [])
  {
    if AnyHeld(m, before) {
      var w :| w in before && w in m && m[w] != [];
      assert w in after;
    }
  }

  lemma ScanHit(m: Stacks, idle: Stacks, stash: seq<(string, Session)>, urls: seq<string>, i: nat, q: Lens,
                idle': Stacks, stash': seq<(string, Session)>, hit: Session, gone: seq<Session>)
    requires i < |urls| && Scanned(m, idle, stash, urls[..i], q) && urls[i] in m
    requires idle'.Keys == m.Keys && forall k :: k in m && k != urls[i] ==> idle'[k] == idle[k]
    requires Popped(idle[urls[i]], idle'[urls[i]], gone, Some(hit), q) && Stashed(stash, stash', urls[i], gone)
    ensures Done(m, idle', stash', urls, q, Some((hit, urls[i])))
  {
    var u := urls[i];
    assert u !in urls[..i];
    forall j | 0 <= j < i
      ensures !Serves(m, urls[j], q)
    {
      assert urls[j] in urls[..i];
    }
    FirstIs(m, urls, i, q);
    assert gone + [] == gone;
    forall k | k in m
      ensures idle'[k] + Back(stash', k) == After(m, urls, q)[k]
    {
      if k != u {
        assert [] + Back(stash', k) == Back(stash', k);
        assert idle'[k] + [] == idle'[k];
      }
    }
  }

  lemma ScanEnd(m: Stacks, idle: Stacks, stash: seq<(string, Session)>, urls: seq<string>, i: nat, q: Lens)
    requires i == |urls| && Scanned(m, idle, stash, urls[..i], q)
    ensures Done(m, idle, stash, urls, q, None)
    ensures AnyHeld(m, urls[..i]) == AnyHeld(m, urls)
  {
    assert urls[..i] == urls;
    forall j | 0 <= j < |urls|
      ensures !Serves(m, urls[j], q)
    {
      assert urls[j] in urls;
    }
    assert FirstServing(m, urls, q) == None;
    forall k | k in m
      ensures idle[k] + Back(stash, k) == After(m, urls, q)[k]
    {
      assert [] + Back(stash, k) == Back(stash, k);
      assert idle[k] + [] == idle[k];
    }
  }

  // ---- what a checkout promises ----

  /** A session is expired once its age reaches the time to live, and usable before that if the fingerprint fits. */
  lemma UsableMeans(s: Session, q: Lens)
    ensures Expired(s, q) <==> q.ttl == 0 || s.born + q.ttl <= q.now
    ensures Usable(s, q) <==> q.ttl > 0 && q.now < s.born + q.ttl && (q.fp == None || q.fp == Some(s.fp))
  {
  }

  /** A checkout misses only if every session of a listed endpoint is too old or has another fingerprint. */
  lemma MissMeansNoneUsable(m: Stacks, urls: seq<string>, q: Lens, u: string, j: nat)
    requires Hit(m, urls, q) == None && u in urls && u in m && j < |m[u]|
    ensures q.ttl == 0 || m[u][j].born + q.ttl <= q.now || (q.fp != None && q.fp != Some(m[u][j].fp))
  {
    var i :| 0 <= i < |urls| && urls[i] == u;
    assert !Serves(m, urls[i], q);
    UsableMeans(m[u][j], q);
  }

  /** The session handed out is the latest usable one of the first listed endpoint that has any. */
  lemma HitIsBest(m: Stacks, urls: seq<string>, q: Lens) returns (i: nat, j: nat)
    requires Hit(m, urls, q).Some?
    ensures i < |urls| && urls[i] in m && j < |m[urls[i]]|
    ensures Hit(m, urls, q) == Some((m[urls[i]][j], urls[i]))
    ensures var s := m[urls[i]][j]; q.ttl > 0 && q.now < s.born + q.ttl && (q.fp == None || q.fp == Some(s.fp))
    ensures forall l :: j < l < |m[urls[i]]| ==> !Usable(m[urls[i]][l], q)
    ensures forall h, l :: 0 <= h < i && urls[h] in m && 0 <= l < |m[urls[h]]| ==> !Usable(m[urls[h]][l], q)
    ensures forall k :: k in m && k !in urls[..i + 1] ==> After(m, urls, q)[k] == m[k]
    ensures j <= |After(m, urls, q)[urls[i]]| && After(m, urls, q)[urls[i]][..j] == m[urls[i]][..j]
  {
    i := FirstServing(m, urls, q).value;
    j := TopUsable(m[urls[i]], q).value;
    UsableMeans(m[urls[i]][j], q);
    NotEarlier(m, urls, q);
    forall h, l | 0 <= h < i && urls[h] in m && 0 <= l < |m[urls[h]]|
      ensures !Usable(m[urls[h]][l], q)
    {
      assert !Serves(m, urls[h], q);
    }
    assert urls[i] in urls[..i + 1] && forall x :: x in urls[..i] ==> x in urls[..i + 1];
  }

  /** A miss drops exactly the expired sessions of the listed endpoints. */
  lemma MissKeepsRest(m: Stacks, urls: seq<string>, q: Lens, k: string)
    requires Hit(m, urls, q) == None && k in m
    ensures After(m, urls, q).Keys == m.Keys
    ensures After(m, urls, q)[k] == if k in urls then Fresh(m[k], q) else m[k]
    ensures forall s :: s in Fresh(m[k], q) <==> s in m[k] && q.ttl > 0 && q.now < s.born + q.ttl
  {
    FreshExactly(m[k], q);
  }

  lemma {:induction false} FreshExactly(v: seq<Session>, q: Lens)
    ensures forall s :: s in Fresh(v, q) <==> s in v && q.ttl > 0 && q.now < s.born + q.ttl
  {
    if v != [] {
      FreshExactly(v[1..], q);
      UsableMeans(v[0], q);
      assert v == [v[0]] + v[1..];
    }
  }

  lemma FreshCons(s: Session, v: seq<Session>, q: Lens)
    ensures Fresh([s] + v, q) == (if Expired(s, q) then [] else [s]) + Fresh(v, q)
  {
    assert ([s] + v)[1..] == v;
  }

  lemma {:induction false} FreshConcat(a: seq<Session>, b: seq<Session>, q: Lens)
    ensures Fresh(a + b, q) == Fresh(a, q) + Fresh(b, q)
  {
    if a == [] {
      assert a + b == b;
    } else {
      var s, rest := a[0], a[1..];
      assert a == [s] + rest;
      Reassociate([s], rest, b);
      FreshConcat(rest, b, q);
      FreshCons(s, rest + b, q);
      FreshCons(s, rest, q);
      Reassociate(if Expired(s, q) then [] else [s], Fresh(rest, q), Fresh(b, q));
    }
  }

  lemma {:induction false} FreshTwice(v: seq<Session>, q: Lens)
    ensures Fresh(Fresh(v, q), q) == Fresh(v, q)
  {
    if v != [] {
      FreshTwice(v[1..], q);
      FreshCons(v[0], Fresh(v[1..], q), q);
      assert [] + Fresh(v[1..], q) == Fresh(v[1..], q);
    }
  }

  lemma {:induction false} FreshMembers(v: seq<Session>, q: Lens)
    ensures forall i :: 0 <= i < |Fresh(v, q)| ==> Fresh(v, q)[i] in v && !Expired(Fresh(v, q)[i], q)
  {
    if v != [] {
      FreshMembers(v[1..], q);
    }
  }

  /** Taking the usable session at position j keeps the other unexpired ones in order. */
  lemma TakenKeepsOrder(v: seq<Session>, j: nat, q: Lens)
    requires j < |v| && Usable(v[j], q)
    ensures Fresh(v, q) == Fresh(v[..j], q) + [v[j]] + Fresh(v[j + 1..], q)
    ensures Fresh(Taken(v, j, q), q) == Fresh(v[..j], q) + Fresh(v[j + 1..], q)
  {
    FreshConcat(v[..j], Fresh(v[j + 1..], q), q);
    FreshTwice(v[j + 1..], q);
    assert v == v[..j] + ([v[j]] + v[j + 1..]);
    FreshConcat(v[..j], [v[j]] + v[j + 1..], q);
    FreshCons(v[j], v[j + 1..], q);
  }

  /**
   * Despite stash and put-back, every unexpired session other than the one handed out stays under
   * its key in its old order.
   */
  lemma OthersKeepOrder(m: Stacks, urls: seq<string>, q: Lens, k: string) returns (front: seq<Session>, rear: seq<Session>)
    requires k in m
    ensures k in After(m, urls, q)
    ensures var hit := Hit(m, urls, q);
      if hit.Some? && hit.value.1 == k
      then Fresh(m[k], q) == front + [hit.value.0] + rear && Fresh(After(m, urls, q)[k], q) == front + rear
      else Fresh(After(m, urls, q)[k], q) == Fresh(m[k], q)
  {
    FreshTwice(m[k], q);
    front, rear := [], [];
    var hit := Hit(m, urls, q);
    if hit.Some? && hit.value.1 == k {
      var j := TopUsable(m[k], q).value;
      front, rear := Fresh(m[k][..j], q), Fresh(m[k][j + 1..], q);
      NotEarlier(m, urls, q);
      TakenKeepsOrder(m[k], j, q);
    }
  }

  lemma NotEarlier(m: Stacks, urls: seq<string>, q: Lens)
    requires FirstServing(m, urls, q).Some?
    ensures var i := FirstServing(m, urls, q).value; urls[i] !in urls[..i]
  {
  }

  /** A checkout only ever removes sessions. */
  lemma AfterShrinks(m: Stacks, urls: seq<string>, q: Lens, k: string)
    requires k in m
    ensures k in After(m, urls, q) && |After(m, urls, q)[k]| <= |m[k]|
    ensures forall i :: 0 <= i < |After(m, urls, q)[k]| ==> After(m, urls, q)[k][i] in m[k]
  {
    FreshMembers(m[k], q);
    var r := FirstServing(m, urls, q);
    if r.Some? && k == urls[r.value] {
      TakenMembers(m[k], TopUsable(m[k], q).value, q);
    }
  }

  lemma TakenMembers(v: seq<Session>, j: nat, q: Lens)
    requires j < |v|
    ensures |Taken(v, j, q)| <= |v| && forall i :: 0 <= i < |Taken(v, j, q)| ==> Taken(v, j, q)[i] in v
  {
    FreshMembers(v[j + 1..], q);
  }
}
