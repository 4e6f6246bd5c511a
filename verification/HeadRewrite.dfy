// Rewriting of a request head: forged ticket headers out, the official one in, framing kept
// (crates/core/src/ha_forwarder.rs).

module HeadRewrite {
  import opened Common

  const CR: byte := 13
  const LF: byte := 10
  const CRLF: Bytes := [13, 10]
  const COLON: byte := 58

  predicate CrlfAt(s: Bytes, i: nat) { i + 1 < |s| && s[i] == CR && s[i + 1] == LF }

  predicate BlankLineAt(s: Bytes, i: nat) { CrlfAt(s, i) && CrlfAt(s, i + 2) }

  ghost predicate Plain(s: Bytes) { forall i: nat :: !CrlfAt(s, i) }

  /** First position of CRLF. */
  function FindCrlf(s: Bytes): (r: Option<nat>)
    ensures r.Some? ==> CrlfAt(s, r.value) && forall i :: 0 <= i < r.value ==> !CrlfAt(s, i)
    ensures r.None? ==> Plain(s)
  {
    if |s| < 2 then None
    else if CrlfAt(s, 0) then Some(0)
    else
      assert forall i: nat :: i > 0 && CrlfAt(s, i) ==> CrlfAt(s[1..], i - 1);
      match FindCrlf(s[1..]) case None => None case Some(i) => Some(i + 1)
  }

  /** First position of CRLFCRLF. */
  function FindHeaderEnd(s: Bytes): (r: Option<nat>)
    ensures r.Some? ==> BlankLineAt(s, r.value) && forall i :: 0 <= i < r.value ==> !BlankLineAt(s, i)
    ensures r.None? ==> forall i: nat :: !BlankLineAt(s, i)
  {
    if |s| < 4 then None
    else if BlankLineAt(s, 0) then Some(0)
    else
      assert forall i: nat :: i > 0 && BlankLineAt(s, i) ==> BlankLineAt(s[1..], i - 1);
      match FindHeaderEnd(s[1..]) case None => None case Some(i) => Some(i + 1)
  }

  /** The lines of a text, cut at each CRLF; what follows the last CRLF is the last line. */
  function SplitLines(s: Bytes): (lines: seq<Bytes>)
    ensures |lines| >= 1
    decreases |s|
  {
    match FindCrlf(s)
    case None => [s]
    case Some(p) => [s[..p]] + SplitLines(s[p + 2..])
  }

  function Unlines(lines: seq<Bytes>): Bytes {
    if lines == [] then [] else lines[0] + CRLF + Unlines(lines[1..])
  }

  // ---- header lines ----

  predicate IsBlank(b: byte) { b == 32 || b == 9 }

  function TrimFront(b: Bytes): Bytes { if b != [] && IsBlank(b[0]) then TrimFront(b[1..]) else b }

  function TrimBack(b: Bytes): Bytes {
    if b != [] && IsBlank(b[|b| - 1]) then TrimBack(b[..|b| - 1]) else b
  }

  function Trimmed(b: Bytes): Bytes { TrimBack(TrimFront(b)) }

  method TrimByteSpaces(b: Bytes) returns (r: Bytes)
    ensures r == Trimmed(b)
  {
    var start: nat := 0;
    while start < |b| && IsBlank(b[start])
      invariant start <= |b|
      invariant TrimFront(b[start..]) == TrimFront(b)
    {
      assert b[start..][1..] == b[start + 1..];
      start := start + 1;
    }
    ghost var rest := b[start..];
    var end: nat := |b|;
    assert b[start..end] == rest;
    while end > start && IsBlank(b[end - 1])
      invariant start <= end <= |b|
      invariant TrimBack(b[start..end]) == TrimBack(rest)
    {
      assert b[start..end][..end - start - 1] == b[start..end - 1];
      end := end - 1;
    }
    r := b[start..end];
  }

  /** Trimming removes exactly the blanks at both ends. */
  lemma TrimmedMeaning(b: Bytes) returns (p: Bytes, q: Bytes)
    ensures b == p + Trimmed(b) + q
    ensures forall i :: 0 <= i < |p| ==> IsBlank(p[i])
    ensures forall i :: 0 <= i < |q| ==> IsBlank(q[i])
    ensures var t := Trimmed(b); t == [] || (!IsBlank(t[0]) && !IsBlank(t[|t| - 1]))
  {
    p := FrontBlanks(b);
    var rest := TrimFront(b);
    q := BackBlanks(rest);
    if Trimmed(b) != [] {
      assert rest[0] == Trimmed(b)[0];
    }
  }

  lemma {:induction false} FrontBlanks(b: Bytes) returns (p: Bytes)
    ensures b == p + TrimFront(b) && forall i :: 0 <= i < |p| ==> IsBlank(p[i])
    ensures TrimFront(b) != [] ==> !IsBlank(TrimFront(b)[0])
  {
    p := [];
    if b != [] && IsBlank(b[0]) {
      var p1 := FrontBlanks(b[1..]);
      p := [b[0]] + p1;
    }
  }

  lemma {:induction false} BackBlanks(b: Bytes) returns (q: Bytes)
    ensures b == TrimBack(b) + q && forall i :: 0 <= i < |q| ==> IsBlank(q[i])
    ensures TrimBack(b) != [] ==> !IsBlank(TrimBack(b)[|TrimBack(b)| - 1])
  {
    q := [];
    if b != [] && IsBlank(b[|b| - 1]) {
      var q1 := BackBlanks(b[..|b| - 1]);
      q := q1 + [b[|b| - 1]];
    }
  }

  function FindColon(s: Bytes): (r: Option<nat>)
    ensures r.Some? ==> r.value < |s| && s[r.value] == COLON && COLON !in s[..r.value]
    ensures r.None? ==> COLON !in s
  {
    if s == [] then None
    else if s[0] == COLON then Some(0)
    else
      match FindColon(s[1..])
      case None => None
      case Some(i) =>
        assert s[..i + 1] == [s[0]] + s[1..][..i];
        Some(i + 1)
  }

  function LowerByte(b: byte): byte { if 65 <= b <= 90 then b + 32 else b }

  predicate SameIgnoringCase(a: Bytes, b: Bytes) {
    |a| == |b| && forall i :: 0 <= i < |a| ==> LowerByte(a[i]) == LowerByte(b[i])
  }

  /** The line's key, trimmed and without regard to case, is the given header name. */
  predicate HasKey(line: Bytes, name: Bytes) {
    var t := Trimmed(line);
    match FindColon(t)
    case None => false
    case Some(i) => SameIgnoringCase(Trimmed(t[..i]), name)
  }

  /** The lines of a head: a text that ends in CRLF has no further line after it. */
  function HeaderLines(s: Bytes): seq<Bytes> {
    var lines := SplitLines(s);
    if lines[|lines| - 1] == [] then lines[..|lines| - 1] else lines
  }

  function Without(lines: seq<Bytes>, name: Bytes): seq<Bytes> {
    if lines == [] then []
    else Kept(lines[0], name) + Without(lines[1..], name)
  }

  function Kept(line: Bytes, name: Bytes): seq<Bytes> { if HasKey(line, name) then [] else [line] }

  function TicketLines(name: Bytes, ticket: Option<Bytes>): seq<Bytes> {
    if ticket.None? then [] else [name + [COLON, 32] + ticket.value]
  }

  /** The lines of the rewritten head. */
  function Rewritten(raw: Bytes, name: Bytes, ticket: Option<Bytes>): seq<Bytes> {
    Without(HeaderLines(raw), name) + TicketLines(name, ticket)
  }

  method KeepsLine(line: Bytes, name: Bytes) returns (keep: bool)
    ensures keep <==> !HasKey(line, name)
    ensures keep <==> !Carries(line, name)
  {
    HasKeyIffCarries(line, name);
    var trimmedLine := TrimByteSpaces(line);
    keep := true;
    var colon := FindColon(trimmedLine);
    if colon.Some? {
      var key := TrimByteSpaces(trimmedLine[..colon.value]);
      keep := !SameIgnoringCase(key, name);
    }
  }

  /** Writes the line out, unless it is a ticket header. */
  method CopyLine(out: Bytes, line: Bytes, name: Bytes, ghost done: seq<Bytes>)
    returns (out': Bytes, ghost done': seq<Bytes>)
    requires out == Unlines(done)
    ensures out' == Unlines(done') && done' == done + Kept(line, name)
  {
    out', done' := out, done;
    var keep := KeepsLine(line, name);
    if keep {
      UnlinesSnoc(done, line);
      done' := done + [line];
      out' := out' + line;
      out' := out' + CRLF;
    }
  }

  method SanitizeAndInjectTicket(raw: Bytes, name: Bytes, ticket: Option<Bytes>) returns (out: Bytes)
    ensures out == Unlines(Rewritten(raw, name, ticket)) + CRLF
  {
    out := [];
    var cursor := raw;
    ghost var done: seq<Bytes> := [];
    while FindCrlf(cursor).Some?
      invariant Progress(done, cursor, raw, name)
      invariant out == Unlines(done)
      decreases |cursor|
    {
      var pos := FindCrlf(cursor).value;
      var line := cursor[..pos];
      LineStep(done, cursor, pos, raw, name);
      cursor := cursor[pos + 2..];
      out, done := CopyLine(out, line, name, done);
    }
    LastLine(done, cursor, raw, name);
    if cursor != [] {
      out, done := CopyLine(out, cursor, name, done);
    }
    out := InjectTicket(out, name, ticket, done);
    out := out + CRLF;
  }

  /** Writes out the official ticket line, if there is one. */
  method InjectTicket(out: Bytes, name: Bytes, ticket: Option<Bytes>, ghost done: seq<Bytes>)
    returns (out': Bytes)
    requires out == Unlines(done)
    ensures out' == Unlines(done + TicketLines(name, ticket))
  {
    out' := out;
    assert done + [] == done;
    if ticket.Some? {
      UnlinesSnoc(done, name + [COLON, 32] + ticket.value);
      out' := out' + name;
      out' := out' + [COLON, 32];
      out' := out' + ticket.value;
      out' := out' + CRLF;
    }
  }

  /** The kept lines so far, and those still to come, make up all the kept lines. */
  ghost predicate Progress(done: seq<Bytes>, cursor: Bytes, raw: Bytes, name: Bytes) {
    done + Without(HeaderLines(cursor), name) == Without(HeaderLines(raw), name)
  }

  lemma LineStep(done: seq<Bytes>, cursor: Bytes, p: nat, raw: Bytes, name: Bytes)
    requires Progress(done, cursor, raw, name) && FindCrlf(cursor) == Some(p)
    ensures Progress(done + Kept(cursor[..p], name), cursor[p + 2..], raw, name)
  {
    FirstLineStep(cursor, p, name);
    Reassociate(done, Kept(cursor[..p], name), Without(HeaderLines(cursor[p + 2..]), name));
  }

  lemma FirstLineStep(cursor: Bytes, p: nat, name: Bytes)
    requires FindCrlf(cursor) == Some(p)
    ensures Without(HeaderLines(cursor), name) ==
      Kept(cursor[..p], name) + Without(HeaderLines(cursor[p + 2..]), name)
  {
    HeaderStep(cursor);
    WithoutStep(cursor[..p], HeaderLines(cursor[p + 2..]), name);
  }

  lemma LastLine(done: seq<Bytes>, cursor: Bytes, raw: Bytes, name: Bytes)
    requires Progress(done, cursor, raw, name) && FindCrlf(cursor).None?
    ensures Without(HeaderLines(raw), name) == if cursor == [] then done else done + Kept(cursor, name)
  {
    OnlyLine(cursor, name);
    assert done + [] == done;
  }

  lemma OnlyLine(s: Bytes, name: Bytes)
    requires FindCrlf(s).None?
    ensures Without(HeaderLines(s), name) == if s == [] then [] else Kept(s, name)
  {
    assert SplitLines(s) == [s];
    if s != [] {
      WithoutStep(s, [], name);
      assert HeaderLines(s) == [s] + [];
      assert Kept(s, name) + [] == Kept(s, name);
    }
  }

  lemma HeaderStep(s: Bytes)
    requires FindCrlf(s).Some?
    ensures var p := FindCrlf(s).value; HeaderLines(s) == [s[..p]] + HeaderLines(s[p + 2..])
  {
    var p := FindCrlf(s).value;
    LastOfLines(s[..p], SplitLines(s[p + 2..]));
  }

  lemma LastOfLines(line: Bytes, rest: seq<Bytes>)
    requires rest != []
    ensures var all := [line] + rest;
      all[|all| - 1] == rest[|rest| - 1] && all[..|all| - 1] == [line] + rest[..|rest| - 1]
  {
  }

  lemma WithoutStep(line: Bytes, rest: seq<Bytes>, name: Bytes)
    ensures Without([line] + rest, name) == Kept(line, name) + Without(rest, name)
  {
    assert ([line] + rest)[1..] == rest;
  }

  lemma {:induction false} UnlinesSnoc(lines: seq<Bytes>, line: Bytes)
    ensures Unlines(lines + [line]) == Unlines(lines) + line + CRLF
  {
    if lines == [] {
      assert lines + [line] == [line];
    } else {
      UnlinesSnoc(lines[1..], line);
      assert (lines + [line])[1..] == lines[1..] + [line];
    }
  }

  // ---- what the rewriting keeps ----

  lemma {:induction false} SplitUnlines(s: Bytes)
    ensures Unlines(SplitLines(s)) == s + CRLF
    ensures forall l :: l in SplitLines(s) ==> Plain(l)
    decreases |s|
  {
    var r := FindCrlf(s);
    if r.None? {
      assert SplitLines(s)[1..] == [];
    } else {
      var p := r.value;
      SplitUnlines(s[p + 2..]);
      assert s == s[..p] + CRLF + s[p + 2..];
      assert Plain(s[..p]) by {
        assert forall i: nat :: CrlfAt(s[..p], i) ==> CrlfAt(s, i);
      }
      assert SplitLines(s)[1..] == SplitLines(s[p + 2..]);
    }
  }

  /** A CRLF-free line followed by CRLF is found again as the first line. */
  lemma FirstLineBack(line: Bytes, rest: Bytes)
    requires Plain(line)
    ensures SplitLines(line + CRLF + rest) == [line] + SplitLines(rest)
  {
    var s := line + CRLF + rest;
    assert CrlfAt(s, |line|);
    forall i | 0 <= i < |line|
      ensures !CrlfAt(s, i)
    {
      assert !CrlfAt(line, i);
    }
    assert FindCrlf(s) == Some(|line|);
    assert s[..|line|] == line && s[|line| + 2..] == rest;
  }

  /** Splitting undoes the concatenation of CRLF-free lines. */
  lemma {:induction false} SplitBack(lines: seq<Bytes>, tail: Bytes)
    requires forall l :: l in lines ==> Plain(l)
    ensures SplitLines(Unlines(lines) + tail) == lines + SplitLines(tail)
  {
    if lines == [] {
      assert Unlines(lines) + tail == tail;
    } else {
      SplitBack(lines[1..], tail);
      FirstLineBack(lines[0], Unlines(lines[1..]) + tail);
      Reassociate(lines[0] + CRLF, Unlines(lines[1..]), tail);
      Reassociate([lines[0]], lines[1..], SplitLines(tail));
      assert lines == [lines[0]] + lines[1..];
    }
  }

  lemma {:induction false} WithoutMembers(lines: seq<Bytes>, name: Bytes)
    ensures forall l :: l in Without(lines, name) <==> l in lines && !HasKey(l, name)
  {
    if lines != [] {
      WithoutMembers(lines[1..], name);
      assert lines == [lines[0]] + lines[1..];
    }
  }

  lemma TicketLinePlain(name: Bytes, ticket: Bytes)
    requires Plain(name) && Plain(ticket)
    ensures Plain(name + [COLON, 32] + ticket)
  {
    var line := name + [COLON, 32] + ticket;
    forall i: nat
      ensures !CrlfAt(line, i)
    {
      assert !CrlfAt(name, i);
      if i >= |name| + 2 {
        assert !CrlfAt(ticket, i - |name| - 2);
      }
    }
  }

  ghost predicate PlainTicket(name: Bytes, ticket: Option<Bytes>) {
    name != [] && Plain(name) && (ticket.Some? ==> Plain(ticket.value))
  }

  lemma RewrittenPlain(raw: Bytes, name: Bytes, ticket: Option<Bytes>)
    requires PlainTicket(name, ticket)
    ensures forall l :: l in Rewritten(raw, name, ticket) ==> Plain(l)
  {
    SplitUnlines(raw);
    assert forall l :: l in HeaderLines(raw) ==> l in SplitLines(raw);
    WithoutMembers(HeaderLines(raw), name);
    if ticket.Some? {
      TicketLinePlain(name, ticket.value);
    }
  }

  /**
   * For every head, the CRLF lines of the output are the input's lines in order minus every line whose
   * key is the ticket name, then the official ticket line if given, then the blank line that ends it.
   */
  lemma OutputLines(raw: Bytes, name: Bytes, ticket: Option<Bytes>)
    requires PlainTicket(name, ticket)
    ensures SplitLines(Unlines(Rewritten(raw, name, ticket)) + CRLF) == Rewritten(raw, name, ticket) + [[], []]
  {
    RewrittenPlain(raw, name, ticket);
    SplitBack(Rewritten(raw, name, ticket), CRLF);
    FirstLineBack([], []);
    assert [] + CRLF + [] == CRLF;
    assert SplitLines([]) == [[]];
  }

  // ---- which lines go ----

  /** Each byte is the other's, or the same ASCII letter in the other case. */
  ghost predicate SameLetters(a: Bytes, b: Bytes) {
    |a| == |b| && forall i :: 0 <= i < |a| ==>
      || a[i] == b[i]
      || (65 <= a[i] <= 90 && 97 <= b[i] <= 122 && b[i] as int == a[i] as int + 32)
      || (97 <= a[i] <= 122 && 65 <= b[i] <= 90 && a[i] as int == b[i] as int + 32)
  }

  ghost predicate BlanksOnly(s: Bytes) { forall i :: 0 <= i < |s| ==> s[i] == 32 || s[i] == 9 }

  /** Neither the first nor the last byte is a blank or a tab. */
  ghost predicate Bare(s: Bytes) {
    s != [] ==> s[0] != 32 && s[0] != 9 && s[|s| - 1] != 32 && s[|s| - 1] != 9
  }

  ghost predicate KeyedAs(line: Bytes, name: Bytes, p: Bytes, k: Bytes, q: Bytes, v: Bytes) {
    line == p + k + q + [58] + v && BlanksOnly(p) && BlanksOnly(q) && 58 !in k && Bare(k) && SameLetters(k, name)
  }

  /** The line is blanks, a key that is the name in some letter case, blanks, a colon, and anything. */
  ghost predicate Carries(line: Bytes, name: Bytes) {
    exists p: Bytes, k: Bytes, q: Bytes, v: Bytes :: KeyedAs(line, name, p, k, q, v)
  }

  lemma SameLettersIff(a: Bytes, b: Bytes)
    ensures SameIgnoringCase(a, b) <==> SameLetters(a, b)
  {
  }

  /** A text between blanks is what trimming leaves. */
  lemma TrimmedIs(p: Bytes, k: Bytes, q: Bytes)
    requires BlanksOnly(p) && BlanksOnly(q) && Bare(k)
    ensures Trimmed(p + k + q) == k
  {
    FrontTrimmed(p, k + q);
    Reassociate(p, k, q);
    if k == [] {
      assert k + q == q;
      AllBlank(q);
    } else {
      BackTrimmed(k, q);
      assert (k + q)[0] == k[0];
    }
  }

  lemma {:induction false} AllBlank(q: Bytes)
    requires BlanksOnly(q)
    ensures TrimFront(q) == []
  {
    if q != [] {
      AllBlank(q[1..]);
    }
  }

  lemma {:induction false} FrontTrimmed(p: Bytes, s: Bytes)
    requires BlanksOnly(p)
    ensures TrimFront(p + s) == TrimFront(s)
  {
    if p == [] {
      assert p + s == s;
    } else {
      FrontTrimmed(p[1..], s);
      assert (p + s)[1..] == p[1..] + s;
    }
  }

  lemma {:induction false} BackTrimmed(k: Bytes, q: Bytes)
    requires BlanksOnly(q) && k != [] && k[|k| - 1] != 32 && k[|k| - 1] != 9
    ensures TrimBack(k + q) == k
  {
    if q == [] {
      assert k + q == k;
    } else {
      BackTrimmed(k, q[..|q| - 1]);
      assert (k + q)[..|k + q| - 1] == k + q[..|q| - 1];
    }
  }

  lemma FirstColon(a: Bytes, v: Bytes)
    requires 58 !in a
    ensures FindColon(a + [58] + v) == Some(|a|)
  {
    var s := a + [58] + v;
    assert s[|a|] in s;
    assert forall i :: 0 <= i < |a| ==> s[i] == a[i] && a[i] in a;
    assert forall n :: |a| < n <= |s| ==> s[..n][|a|] == 58;
  }

  /** The parser's test, for every line and name, is exactly that. */
  lemma HasKeyIffCarries(line: Bytes, name: Bytes)
    ensures HasKey(line, name) <==> Carries(line, name)
  {
    if HasKey(line, name) {
      KeyCarried(line, name);
    }
    if Carries(line, name) {
      var p: Bytes, k: Bytes, q: Bytes, v: Bytes :| KeyedAs(line, name, p, k, q, v);
      CarriedKey(line, name, p, k, q, v);
    }
  }

  lemma KeyCarried(line: Bytes, name: Bytes)
    requires HasKey(line, name)
    ensures Carries(line, name)
  {
    var t := Trimmed(line);
    var p, tail := TrimmedMeaning(line);
    var c := FindColon(t).value;
    var a := t[..c];
    var k := Trimmed(a);
    var x, q := TrimmedMeaning(a);
    var v := t[c + 1..] + tail;
    SameLettersIff(k, name);
    assert t == a + [58] + t[c + 1..];
    KeyPieces(line, p, x, k, q, t[c + 1..], tail, a, t);
    NoColonWithin(a, x, k, q);
    assert KeyedAs(line, name, p + x, k, q, v);
  }

  lemma KeyPieces(line: Bytes, p: Bytes, x: Bytes, k: Bytes, q: Bytes, rest: Bytes, tail: Bytes, a: Bytes, t: Bytes)
    requires line == p + t + tail && t == a + [58] + rest && a == x + k + q
    ensures line == p + x + k + q + [58] + (rest + tail)
  {
    assert p + (x + k + q + [58] + rest) + tail == p + x + k + q + [58] + (rest + tail);
  }

  lemma NoColonWithin(a: Bytes, x: Bytes, k: Bytes, q: Bytes)
    requires a == x + k + q && 58 !in a
    ensures 58 !in k
  {
    assert forall i :: 0 <= i < |k| ==> k[i] == a[|x| + i] && a[|x| + i] in a;
  }

  lemma CarriedKey(line: Bytes, name: Bytes, p: Bytes, k: Bytes, q: Bytes, v: Bytes)
    requires KeyedAs(line, name, p, k, q, v)
    ensures HasKey(line, name)
  {
    var a := p + k + q;
    assert 58 !in a;
    FirstColon(a, v);
    SameLettersIff(k, name);
    ColonOfTrimmed(line, p, k, q, v);
  }

  /** Trimming a line that has a key leaves the key, blanks that follow it, and the colon. */
  lemma ColonOfTrimmed(line: Bytes, p: Bytes, k: Bytes, q: Bytes, v: Bytes)
    requires line == p + k + q + [58] + v && BlanksOnly(p) && BlanksOnly(q) && 58 !in k && Bare(k)
    ensures var t := Trimmed(line); FindColon(t).Some? && Trimmed(t[..FindColon(t).value]) == k
  {
    var inner := k + q + [58] + v;
    assert line == p + inner;
    FrontTrimmed(p, inner);
    if k == [] {
      assert inner == q + ([58] + v);
      FrontTrimmed(q, [58] + v);
      var rest := BackBlanks([58] + v);
      StartKept([58] + v, 0);
      var t := TrimBack([58] + v);
      assert t == [] + [58] + t[1..];
      FirstColon([], t[1..]);
      assert t[..0] == [];
    } else {
      assert inner[0] == k[0];
      StartKept(inner, |k + q|);
      var t := TrimBack(inner);
      assert t == k + q + [58] + t[|k + q| + 1..];
      FirstColon(k + q, t[|k + q| + 1..]);
      assert t[..|k + q|] == [] + k + q;
      TrimmedIs([], k, q);
    }
  }

  /** Trimming at the back keeps everything up to a colon. */
  lemma {:induction false} StartKept(s: Bytes, c: nat)
    requires c < |s| && s[c] == 58
    ensures |TrimBack(s)| > c && TrimBack(s) <= s
  {
    if |s| - 1 > c && IsBlank(s[|s| - 1]) {
      StartKept(s[..|s| - 1], c);
    }
  }

  /**
   * The lines left are the input's in order without those that carry the ticket name: nothing is left of
   * nothing, a single line stays exactly if it does not carry it, and lists are filtered piece by piece.
   */
  lemma LinesLeft(a: seq<Bytes>, b: seq<Bytes>, line: Bytes, name: Bytes)
    ensures Without([], name) == []
    ensures Without([line], name) == if Carries(line, name) then [] else [line]
    ensures Without(a + b, name) == Without(a, name) + Without(b, name)
  {
    HasKeyIffCarries(line, name);
    WithoutStep(line, [], name);
    assert [line] + [] == [line];
    WithoutConcat(a, b, name);
  }

  lemma {:induction false} WithoutConcat(a: seq<Bytes>, b: seq<Bytes>, name: Bytes)
    ensures Without(a + b, name) == Without(a, name) + Without(b, name)
  {
    if a == [] {
      assert a + b == b;
    } else {
      WithoutConcat(a[1..], b, name);
      assert a + b == [a[0]] + (a[1..] + b) && a == [a[0]] + a[1..];
      WithoutStep(a[0], a[1..] + b, name);
      WithoutStep(a[0], a[1..], name);
      Reassociate(Kept(a[0], name), Without(a[1..], name), Without(b, name));
    }
  }

  /** A line of the head is in the output, apart from the official ticket, exactly if it does not carry the ticket name. */
  lemma ForgedLinesGo(raw: Bytes, name: Bytes, ticket: Option<Bytes>, line: Bytes)
    requires line in HeaderLines(raw)
    ensures line in Rewritten(raw, name, ticket)[..|Rewritten(raw, name, ticket)| - (if ticket.Some? then 1 else 0)]
      <==> !Carries(line, name)
  {
    HasKeyIffCarries(line, name);
    WithoutMembers(HeaderLines(raw), name);
    var kept := Without(HeaderLines(raw), name);
    assert Rewritten(raw, name, ticket)[..|kept|] == kept;
  }

  /** No line of the output has the ticket name as its key, except the official one at the end. */
  lemma NoForgedTicket(raw: Bytes, name: Bytes, ticket: Option<Bytes>, i: nat)
    requires i < |Rewritten(raw, name, ticket)| && Carries(Rewritten(raw, name, ticket)[i], name)
    ensures ticket.Some? && i == |Rewritten(raw, name, ticket)| - 1
    ensures Rewritten(raw, name, ticket)[i] == name + [58, 32] + ticket.value
  {
    HasKeyIffCarries(Rewritten(raw, name, ticket)[i], name);
    var kept := Without(HeaderLines(raw), name);
    WithoutMembers(HeaderLines(raw), name);
    assert forall j :: 0 <= j < |kept| ==> kept[j] in kept;
  }

  // ---- framing ----

  /** Where the header ends when a line of n bytes, CRLF and the rest follow each other. */
  function EndAfter(n: nat, rest: Bytes): Option<nat> {
    if CrlfAt(rest, 0) then Some(n)
    else match FindHeaderEnd(rest) case None => None case Some(i) => Some(n + 2 + i)
  }

  lemma HeaderEndStep(line: Bytes, rest: Bytes)
    requires Plain(line)
    ensures FindHeaderEnd(line + CRLF + rest) == EndAfter(|line|, rest)
  {
    BlankShifts(line, rest);
    BlankFound(line + CRLF + rest, rest, |line|);
  }

  /** The blank lines are those of the rest, n + 2 further on, and the one that its leading CRLF makes. */
  ghost predicate Shifted(s: Bytes, rest: Bytes, n: nat) { forall i: nat :: BlankShift(s, rest, n, i) }

  lemma BlankShifts(line: Bytes, rest: Bytes)
    requires Plain(line)
    ensures Shifted(line + CRLF + rest, rest, |line|)
  {
    forall i: nat
      ensures BlankShift(line + CRLF + rest, rest, |line|, i)
    {
      BlankAfterLine(line, rest, i);
    }
  }

  lemma BlankFound(s: Bytes, rest: Bytes, n: nat)
    requires Shifted(s, rest, n)
    ensures FindHeaderEnd(s) == EndAfter(n, rest)
  {
    var a, b := FindHeaderEnd(s), FindHeaderEnd(rest);
    assert BlankShift(s, rest, n, n);
    if CrlfAt(rest, 0) {
      assert BlankShift(s, rest, n, a.value);
    } else if b.Some? {
      assert BlankShift(s, rest, n, n + 2 + b.value);
      assert BlankShift(s, rest, n, a.value);
    } else {
      assert a.Some? ==> BlankShift(s, rest, n, a.value);
    }
  }

  /** Position i is a blank line exactly if the rest, n + 2 further on, has one there or starts with CRLF at n + 2. */
  predicate BlankShift(s: Bytes, rest: Bytes, n: nat, i: nat) {
    BlankLineAt(s, i) <==> (i == n && CrlfAt(rest, 0)) || (i >= n + 2 && BlankLineAt(rest, i - n - 2))
  }

  lemma BlankAfterLine(line: Bytes, rest: Bytes, i: nat)
    requires Plain(line)
    ensures BlankShift(line + CRLF + rest, rest, |line|, i)
  {
    CrlfAfterLine(line, rest, i);
    CrlfAfterLine(line, rest, i + 2);
  }

  lemma CrlfAfterLine(line: Bytes, rest: Bytes, i: nat)
    requires Plain(line)
    ensures CrlfAt(line + CRLF + rest, i) <==> i == |line| || (i >= |line| + 2 && CrlfAt(rest, i - |line| - 2))
  {
    assert !CrlfAt(line, i);
  }

  /** Lines of which only the first may be empty frame a head: its end is the end of the text. */
  lemma {:induction false} FramedEnd(lines: seq<Bytes>)
    requires forall l :: l in lines ==> Plain(l)
    requires forall i :: 1 <= i < |lines| ==> lines[i] != []
    ensures var out := Unlines(lines) + CRLF;
      FindHeaderEnd(out) == if lines == [] then None else Some(|out| - 4)
  {
    if lines != [] {
      var rest := Unlines(lines[1..]) + CRLF;
      Reassociate(lines[0] + CRLF, Unlines(lines[1..]), CRLF);
      FramedEnd(lines[1..]);
      HeaderEndStep(lines[0], rest);
      if |lines| > 1 {
        assert lines[1] in lines;
        LinesStart(lines[1..]);
      }
    }
  }

  /** Text that starts with a non-empty CRLF-free line does not start with CRLF. */
  lemma LinesStart(lines: seq<Bytes>)
    requires lines != [] && lines[0] != [] && Plain(lines[0])
    ensures !CrlfAt(Unlines(lines) + CRLF, 0)
  {
    var line := lines[0];
    assert !CrlfAt(line, 0);
    Reassociate(line + CRLF, Unlines(lines[1..]), CRLF);
    Reassociate(line, CRLF, Unlines(lines[1..]) + CRLF);
  }

  /** A head cut at its first CRLFCRLF has no blank line after its first line. */
  lemma {:induction false} CutHeadLines(raw: Bytes)
    requires FindHeaderEnd(raw + CRLF + CRLF) == Some(|raw|)
    ensures forall i :: 1 <= i < |SplitLines(raw)| ==> SplitLines(raw)[i] != []
    decreases |raw|
  {
    var r := FindCrlf(raw);
    if r.Some? {
      var p := r.value;
      var line, rest := raw[..p], raw[p + 2..];
      assert raw + CRLF + CRLF == line + CRLF + (rest + CRLF + CRLF);
      assert Plain(line) by {
        assert forall i: nat :: CrlfAt(line, i) ==> CrlfAt(raw, i);
      }
      HeaderEndStep(line, rest + CRLF + CRLF);
      CutHeadLines(rest);
      if SplitLines(rest)[0] == [] {
        assert CrlfAt(rest + CRLF + CRLF, 0);
      }
    }
  }

  /**
   * The output of a head cut at its first CRLFCRLF has its own first CRLFCRLF at its very end if and
   * only if some line is left to frame: a surviving header line or the official ticket.
   */
  lemma FramingKept(raw: Bytes, name: Bytes, ticket: Option<Bytes>)
    requires FindHeaderEnd(raw + CRLF + CRLF) == Some(|raw|) && PlainTicket(name, ticket)
    ensures var out := Unlines(Rewritten(raw, name, ticket)) + CRLF;
      |out| >= 4 && FindHeaderEnd(out) == Some(|out| - 4) <==>
      ticket.Some? || exists l :: l in HeaderLines(raw) && !HasKey(l, name)
  {
    CutHeadLines(raw);
    RewrittenPlain(raw, name, ticket);
    var kept := Without(HeaderLines(raw), name);
    WithoutMembers(HeaderLines(raw), name);
    TailsNonEmpty(HeaderLines(raw), name);
    FramedEnd(Rewritten(raw, name, ticket));
    if kept != [] {
      assert kept[0] in kept;
    }
  }

  lemma TailsNonEmpty(lines: seq<Bytes>, name: Bytes)
    requires forall i :: 1 <= i < |lines| ==> lines[i] != []
    ensures forall i :: 1 <= i < |Without(lines, name)| ==> Without(lines, name)[i] != []
  {
    if lines != [] {
      WithoutMembers(lines[1..], name);
      forall l | l in Without(lines[1..], name)
        ensures l != []
      {
        assert l in lines[1..];
      }
      var rest := Without(lines[1..], name);
      assert forall j :: 0 <= j < |rest| ==> rest[j] in rest;
    }
  }

  /** In particular a request line that is not itself a ticket header keeps the framing. */
  lemma RequestLineKeepsFraming(raw: Bytes, name: Bytes, ticket: Option<Bytes>)
    requires FindHeaderEnd(raw + CRLF + CRLF) == Some(|raw|) && PlainTicket(name, ticket)
    requires SplitLines(raw)[0] != [] && !HasKey(SplitLines(raw)[0], name)
    ensures var out := Unlines(Rewritten(raw, name, ticket)) + CRLF;
      |out| >= 4 && FindHeaderEnd(out) == Some(|out| - 4)
  {
    assert HeaderLines(raw)[0] == SplitLines(raw)[0];
    assert HeaderLines(raw)[0] in HeaderLines(raw);
    FramingKept(raw, name, ticket);
  }

  /** A head that holds only a ticket header, with no official ticket to put in, loses its framing. */
  lemma TicketOnlyLosesFraming(raw: Bytes, name: Bytes)
    requires Plain(raw) && HasKey(raw, name) && PlainTicket(name, None)
    ensures FindHeaderEnd(raw + CRLF + CRLF) == Some(|raw|)
    ensures var out := Unlines(Rewritten(raw, name, None)) + CRLF; out == CRLF && FindHeaderEnd(out) == None
  {
    HeaderEndStep(raw, CRLF);
    OnlyLine(raw, name);
    assert Rewritten(raw, name, None) == [];
  }

  /** Such a head: "x:" for the header name "X". */
  lemma SmallestTicketHead()
    ensures Plain([120, 58]) && HasKey([120, 58], [88]) && PlainTicket([88], None)
  {
    var t: Bytes := [120, 58];
    assert TrimFront(t) == t && TrimBack(t) == t;
    assert FindColon(t) == Some(1);
    assert t[..1] == [120] && Trimmed([120]) == [120];
  }
}
