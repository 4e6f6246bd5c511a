// Reading a request head from a stream that arrives in arbitrary pieces
// (crates/gate-server/src/connect_proxy.rs).

module HeadReader {
  import opened Common
  import opened HeadRewrite

  const MAX_HEAD: nat := 16384
  const CHUNK: nat := 2048

  /** What one read of the socket gives; no bytes at all means the end of the stream. */
  datatype Read = Data(bytes: Bytes) | Timeout | IoError

  datatype Failure = FirstByteTimeout | HeadTimeout | Broken | Eof | HeadTooLarge

  /** Waiting: the reads given so far leave the call waiting for the next one. */
  datatype Outcome = Got(buf: Bytes) | Failed(why: Failure) | Waiting

  datatype Answer = Accepted(head: Bytes, leftover: Bytes) | BadRequest | StillReading

  predicate Chunked(script: seq<Read>) {
    forall i :: 0 <= i < |script| && script[i].Data? ==> |script[i].bytes| <= CHUNK
  }

  predicate Delivers(r: Read) { r.Data? && r.bytes != [] }

  /** The bytes that arrive before the first failing read. */
  function Stream(script: seq<Read>): Bytes {
    if script == [] || !Delivers(script[0]) then [] else script[0].bytes + Stream(script[1..])
  }

  /** Some read fails or finds the end of the stream. */
  predicate Disrupted(script: seq<Read>) {
    script != [] && (!Delivers(script[0]) || Disrupted(script[1..]))
  }

  /** One past the first CRLFCRLF. */
  function HeadEnd(buf: Bytes): (r: Option<nat>)
    ensures r.Some? ==> 4 <= r.value <= |buf| && BlankLineAt(buf, r.value - 4)
  {
    match FindHeaderEnd(buf) case None => None case Some(i) => Some(i + 4)
  }

  function SplitHead(buf: Bytes): Option<(Bytes, Bytes)> {
    match HeadEnd(buf)
    case None => None
    case Some(end) => if end > MAX_HEAD then None else Some((buf[..end], buf[end..]))
  }

  // ---- what the answer should be, from the bytes alone ----

  datatype Verdict = Accept(head: Bytes) | Refuse | NeedMore

  /** Accepted if and only if the first CRLFCRLF ends within the limit; refused once that is impossible. */
  function Judge(stream: Bytes): Verdict {
    var end := HeadEnd(stream);
    if end.Some? && end.value <= MAX_HEAD then Accept(stream[..end.value])
    else if |stream| > MAX_HEAD then Refuse
    else NeedMore
  }

  /** More bytes never move a head end that was found, and a new one lies beyond the old bytes. */
  lemma HeadEndOfPrefix(buf: Bytes, more: Bytes)
    ensures HeadEnd(buf).Some? ==> HeadEnd(buf + more) == HeadEnd(buf)
    ensures HeadEnd(buf).None? && HeadEnd(buf + more).Some? ==> HeadEnd(buf + more).value > |buf|
  {
    forall i: nat | i + 4 <= |buf|
      ensures BlankLineAt(buf + more, i) <==> BlankLineAt(buf, i)
    {
    }
    var a, b := FindHeaderEnd(buf), FindHeaderEnd(buf + more);
    if a.Some? {
      assert BlankLineAt(buf + more, a.value);
    }
  }

  /** A verdict once reached is not changed by what comes after. */
  lemma JudgedForGood(buf: Bytes, more: Bytes)
    ensures !Judge(buf).NeedMore? ==> Judge(buf + more) == Judge(buf)
  {
    HeadEndOfPrefix(buf, more);
    var end := HeadEnd(buf);
    if end.Some? {
      assert (buf + more)[..end.value] == buf[..end.value];
    }
  }

  // ---- reading ----

  /** The bytes read so far and those still to come are the stream. */
  ghost predicate Reading(buf: Bytes, script: seq<Read>, used: nat) {
    used <= |script|
    && buf + Stream(script[used..]) == Stream(script)
    && (Disrupted(script[used..]) <==> Disrupted(script))
  }

  lemma ReadOne(buf: Bytes, script: seq<Read>, used: nat)
    requires Reading(buf, script, used) && used < |script| && Delivers(script[used])
    ensures Reading(buf + script[used].bytes, script, used + 1)
  {
    assert script[used..][1..] == script[used + 1..];
    Reassociate(buf, script[used].bytes, Stream(script[used + 1..]));
  }

  /** The read at hand does not deliver, or there is none: the stream ends here. */
  lemma ReadsEnd(buf: Bytes, script: seq<Read>, used: nat)
    requires Reading(buf, script, used) && (used < |script| ==> !Delivers(script[used]))
    ensures Stream(script) == buf && (Disrupted(script) <==> used < |script|)
  {
    assert buf + [] == buf;
  }

  /** What a read of the socket that delivers no bytes makes of the call. */
  function Refusal(script: seq<Read>, used: nat, first: bool): Outcome
    requires used <= |script| && (used < |script| ==> !Delivers(script[used]))
  {
    if used == |script| then Waiting
    else match script[used]
      case Timeout => Failed(if first then FirstByteTimeout else HeadTimeout)
      case IoError => Failed(Broken)
      case Data(_) => Failed(Eof)
  }

  /**
   * Reads until a head end is seen. All the bytes read are returned, and only those: together with the
   * unread ones they are the stream. Otherwise the head is too large, or the reads ended first.
   */
  method ReadHead(script: seq<Read>) returns (r: Outcome, used: nat)
    requires Chunked(script)
    ensures used <= |script|
    ensures r.Got? ==> HeadEnd(r.buf).Some? && Reading(r.buf, script, used) && |r.buf| <= MAX_HEAD + CHUNK
    ensures r == Failed(HeadTooLarge) ==> Judge(Stream(script)).Refuse?
    ensures r.Waiting? ==> !Disrupted(script) && Judge(Stream(script)).NeedMore?
    ensures r.Failed? && r.why != HeadTooLarge ==> Disrupted(script) && Judge(Stream(script)).NeedMore?
    ensures r.Failed? ==> (r.why == FirstByteTimeout <==> script[0] == Timeout)
  {
    used := 0;
    var buf: Bytes := [];
    assert Reading(buf, script, 0);
    if |script| == 0 || !Delivers(script[0]) {
      ReadsEnd(buf, script, 0);
      return Refusal(script, 0, true), 0;
    }
    ReadOne(buf, script, 0);
    buf, used := buf + script[0].bytes, 1;
    while HeadEnd(buf).None?
      invariant 1 <= used <= |script| && Delivers(script[0])
      invariant Reading(buf, script, used) && |buf| <= MAX_HEAD + CHUNK
      decreases |script| - used
    {
      if |buf| > MAX_HEAD {
        JudgedForGood(buf, Stream(script[used..]));
        return Failed(HeadTooLarge), used;
      }
      if used == |script| || !Delivers(script[used]) {
        ReadsEnd(buf, script, used);
        return Refusal(script, used, false), used;
      }
      ReadOne(buf, script, used);
      buf, used := buf + script[used].bytes, used + 1;
    }
    r := Got(buf);
  }

  /**
   * Head reading does not depend on how the stream is cut: the answer is the verdict on the bytes, the
   * head is the same, and head, leftover and unread bytes are the stream. A disruption counts only
   * where the bytes before it settle nothing.
   */
  method ServeHead(script: seq<Read>) returns (a: Answer, used: nat)
    requires Chunked(script)
    ensures used <= |script|
    ensures a.Accepted? <==> Judge(Stream(script)).Accept?
    ensures a.Accepted? ==> a.head == Judge(Stream(script)).head
    ensures a.Accepted? ==> a.head + a.leftover + Stream(script[used..]) == Stream(script)
    ensures a.Accepted? ==> |a.head + a.leftover| <= MAX_HEAD + CHUNK
    ensures a.BadRequest? <==> Judge(Stream(script)).Refuse? || (Judge(Stream(script)).NeedMore? && Disrupted(script))
    ensures a.StillReading? <==> Judge(Stream(script)).NeedMore? && !Disrupted(script)
  {
    var r;
    r, used := ReadHead(script);
    match r {
      case Waiting => a := StillReading;
      case Failed(_) => a := BadRequest;
      case Got(buf) =>
        HeadEndOfPrefix(buf, Stream(script[used..]));
        var end := HeadEnd(buf).value;
        assert Stream(script)[..end] == buf[..end];
        match SplitHead(buf) {
          case None => a := BadRequest;
          case Some(parts) =>
            assert parts.0 + parts.1 == buf;
            a := Accepted(parts.0, parts.1);
        }
    }
  }

  // ---- every cut of one stream ----

  function Chunks(cut: seq<Bytes>): seq<Read> {
    if cut == [] then [] else [Data(cut[0])] + Chunks(cut[1..])
  }

  function Joined(cut: seq<Bytes>): Bytes { if cut == [] then [] else cut[0] + Joined(cut[1..]) }

  /** Non-empty pieces deliver exactly the bytes they were cut from, without disruption. */
  lemma {:induction false} CutsDeliver(cut: seq<Bytes>)
    requires forall i :: 0 <= i < |cut| ==> cut[i] != []
    ensures Stream(Chunks(cut)) == Joined(cut) && !Disrupted(Chunks(cut))
  {
    if cut != [] {
      CutsDeliver(cut[1..]);
      assert Chunks(cut)[1..] == Chunks(cut[1..]);
    }
  }

  /** Accepted exactly when some blank line ends within the limit; the head then ends at its only one. */
  lemma AcceptedWithinLimit(stream: Bytes)
    ensures Judge(stream).Accept? <==> exists i: nat :: i + 4 <= 16384 && BlankLineAt(stream, i)
    ensures Judge(stream).Refuse? <==> !Judge(stream).Accept? && |stream| > 16384
    ensures Judge(stream).Accept? ==>
      Judge(stream).head <= stream && HeadEnd(Judge(stream).head) == Some(|Judge(stream).head|)
  {
    var end := HeadEnd(stream);
    if end.Some? {
      var head := stream[..end.value];
      assert stream == head + stream[end.value..];
      assert BlankLineAt(head, end.value - 4);
      HeadEndOfPrefix(head, stream[end.value..]);
    }
  }
}
