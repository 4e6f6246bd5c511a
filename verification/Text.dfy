// String helpers with the meaning of Rust's str methods, and the label view of host names.

module Text {
  predicate IsSpace(c: char) {
    '\U{9}' <= c <= '\U{D}' || c == ' ' || c == '\U{85}' || c == '\U{A0}' || c == '\U{1680}'
    || '\U{2000}' <= c <= '\U{200A}' || c == '\U{2028}' || c == '\U{2029}' || c == '\U{202F}'
    || c == '\U{205F}' || c == '\U{3000}'
  }

  function TrimStart(s: string): string {
    if s != [] && IsSpace(s[0]) then TrimStart(s[1..]) else s
  }

  function TrimEnd(s: string): string {
    if s != [] && IsSpace(s[|s| - 1]) then TrimEnd(s[..|s| - 1]) else s
  }

  function Trim(s: string): string { TrimEnd(TrimStart(s)) }

  function TrimEndDots(s: string): string {
    if s != [] && s[|s| - 1] == '.' then TrimEndDots(s[..|s| - 1]) else s
  }

  function LowerChar(c: char): char {
    if 'A' <= c <= 'Z' then (c as int - 'A' as int + 'a' as int) as char else c
  }

  function Lower(s: string): string {
    seq(|s|, i requires 0 <= i < |s| => LowerChar(s[i]))
  }

  predicate StartsWith(s: string, p: string) { |p| <= |s| && s[..|p|] == p }

  predicate EndsWith(s: string, e: string) { |e| <= |s| && s[|s| - |e|..] == e }

  predicate Contains(s: string, needle: string) {
    StartsWith(s, needle) || (s != [] && Contains(s[1..], needle))
  }

  /** The text holds the needle somewhere. */
  ghost predicate Holds(s: string, needle: string) { exists a: string, b: string :: s == a + needle + b }

  lemma {:induction false} ContainsIffHolds(s: string, needle: string)
    ensures Contains(s, needle) <==> Holds(s, needle)
  {
    if StartsWith(s, needle) {
      assert s == [] + needle + s[|needle|..];
    } else if s != [] {
      ContainsIffHolds(s[1..], needle);
      if Holds(s[1..], needle) {
        HeldEarlier(s, needle);
      }
      if Holds(s, needle) {
        HeldFurther(s, needle);
      }
    } else {
      HoldsSize(s, needle);
    }
  }

  lemma HoldsSize(s: string, needle: string)
    ensures Holds(s, needle) ==> |needle| <= |s|
  {
  }

  lemma HeldEarlier(s: string, needle: string)
    requires s != [] && Holds(s[1..], needle)
    ensures Holds(s, needle)
  {
    var a: string, b: string :| s[1..] == a + needle + b;
    assert s == ([s[0]] + a) + needle + b;
  }

  lemma HeldFurther(s: string, needle: string)
    requires s != [] && Holds(s, needle) && !StartsWith(s, needle)
    ensures Holds(s[1..], needle)
  {
    var a: string, b: string :| s == a + needle + b;
    assert (a + needle + b)[|a|..|a| + |needle|] == needle;
    assert a != [];
    assert s[1..] == a[1..] + needle + b;
  }

  /** ASCII capitals become small letters; every other character stays. */
  lemma LowerMeaning(s: string, i: nat)
    requires i < |s|
    ensures |Lower(s)| == |s|
    ensures 'A' <= s[i] <= 'Z' ==> Lower(s)[i] as int == s[i] as int + 32
    ensures s[i] < 'A' || s[i] > 'Z' ==> Lower(s)[i] == s[i]
  {
  }

  /** Trimming removes only white space, and all of it at both ends. */
  lemma TrimMeaning(s: string) returns (p: string, q: string)
    ensures s == p + Trim(s) + q && (forall i :: 0 <= i < |p| ==> IsSpace(p[i])) && (forall i :: 0 <= i < |q| ==> IsSpace(q[i]))
    ensures Trim(s) != [] ==> !IsSpace(Trim(s)[0]) && !IsSpace(Trim(s)[|Trim(s)| - 1])
  {
    p := FrontSpaces(s);
    q := BackSpaces(TrimStart(s));
    assert Trim(s) != [] ==> TrimStart(s)[0] == Trim(s)[0];
  }

  lemma {:induction false} FrontSpaces(s: string) returns (p: string)
    ensures s == p + TrimStart(s) && forall i :: 0 <= i < |p| ==> IsSpace(p[i])
    ensures TrimStart(s) != [] ==> !IsSpace(TrimStart(s)[0])
  {
    p := [];
    if s != [] && IsSpace(s[0]) {
      p := FrontSpaces(s[1..]);
      p := [s[0]] + p;
    }
  }

  lemma {:induction false} BackSpaces(s: string) returns (q: string)
    ensures s == TrimEnd(s) + q && forall i :: 0 <= i < |q| ==> IsSpace(q[i])
    ensures TrimEnd(s) != [] ==> !IsSpace(TrimEnd(s)[|TrimEnd(s)| - 1])
  {
    q := [];
    if s != [] && IsSpace(s[|s| - 1]) {
      q := BackSpaces(s[..|s| - 1]);
      q := q + [s[|s| - 1]];
    }
  }

  /** The white space characters, by code point: Unicode's White_Space property. */
  lemma SpaceFacts(c: char)
    ensures IsSpace(c) <==> (9 <= c as int <= 13 || 8192 <= c as int <= 8202 || c as int in {32, 133, 160, 5760, 8232, 8233, 8239, 8287, 12288})
  {
  }

  /** Trailing dots go, and nothing else. */
  lemma {:induction false} DotsMeaning(s: string) returns (q: string)
    ensures s == TrimEndDots(s) + q && (forall i :: 0 <= i < |q| ==> q[i] == '.')
    ensures TrimEndDots(s) != [] ==> TrimEndDots(s)[|TrimEndDots(s)| - 1] != '.'
  {
    q := [];
    if s != [] && s[|s| - 1] == '.' {
      q := DotsMeaning(s[..|s| - 1]);
      q := q + [s[|s| - 1]];
    }
  }

  /** The dot-boundary suffix test: the host is the entry, or ends with '.' + entry. */
  predicate DotSuffix(host: string, entry: string) {
    entry != [] && EndsWith(host, entry) &&
    var rest := host[..|host| - |entry|];
    rest == [] || rest[|rest| - 1] == '.'
  }

  function Prepend(c: char, parts: seq<string>, sep: char): (r: seq<string>)
    requires |parts| >= 1
    ensures |r| >= 1
  {
    if c == sep then [[]] + parts else [[c] + parts[0]] + parts[1..]
  }

  function Split(s: string, sep: char): (parts: seq<string>)
    ensures |parts| >= 1
  {
    if s == [] then [[]] else Prepend(s[0], Split(s[1..], sep), sep)
  }

  function Join(parts: seq<string>, sep: char): string {
    if parts == [] then []
    else if |parts| == 1 then parts[0]
    else parts[0] + [sep] + Join(parts[1..], sep)
  }

  function Labels(host: string): seq<string> { Split(host, '.') }

  lemma {:induction false} JoinSplit(s: string, sep: char)
    ensures Join(Split(s, sep), sep) == s
  {
    if s != [] {
      JoinSplit(s[1..], sep);
      var parts := Split(s[1..], sep);
      if s[0] == sep {
        assert ([[]] + parts)[1..] == parts;
      } else if |parts| > 1 {
        assert ([[s[0]] + parts[0]] + parts[1..])[1..] == parts[1..];
      }
    }
  }

  lemma PrependConcat(c: char, a: seq<string>, b: seq<string>, sep: char)
    requires |a| >= 1
    ensures Prepend(c, a + b, sep) == Prepend(c, a, sep) + b
  {
    assert (a + b)[1..] == a[1..] + b;
  }

  lemma {:induction false} SplitConcat(x: string, y: string, sep: char)
    ensures Split(x + [sep] + y, sep) == Split(x, sep) + Split(y, sep)
  {
    if x == [] {
      assert (x + [sep] + y)[1..] == y;
    } else {
      var tail := x[1..] + [sep] + y;
      assert x + [sep] + y == [x[0]] + tail;
      calc {
        Split(x + [sep] + y, sep);
        Split([x[0]] + tail, sep);
        { assert ([x[0]] + tail)[1..] == tail; }
        Prepend(x[0], Split(tail, sep), sep);
        { SplitConcat(x[1..], y, sep); }
        Prepend(x[0], Split(x[1..], sep) + Split(y, sep), sep);
        { PrependConcat(x[0], Split(x[1..], sep), Split(y, sep), sep); }
        Prepend(x[0], Split(x[1..], sep), sep) + Split(y, sep);
        Split(x, sep) + Split(y, sep);
      }
    }
  }

  lemma {:induction false} JoinConcat(a: seq<string>, b: seq<string>, sep: char)
    requires a != [] && b != []
    ensures Join(a + b, sep) == Join(a, sep) + [sep] + Join(b, sep)
  {
    assert (a + b)[1..] == a[1..] + b;
    if |a| > 1 {
      JoinConcat(a[1..], b, sep);
    } else {
      assert a[1..] + b == b;
    }
  }

  /** A part of a split contains no separator, and joining separator-free parts is undone by splitting. */
  lemma {:induction false} SplitJoin(parts: seq<string>, sep: char)
    requires parts != [] && forall i :: 0 <= i < |parts| ==> sep !in parts[i]
    ensures Split(Join(parts, sep), sep) == parts
  {
    SplitPlain(parts[0], sep);
    if |parts| > 1 {
      SplitJoin(parts[1..], sep);
      SplitConcat(parts[0], Join(parts[1..], sep), sep);
      assert [parts[0]] + parts[1..] == parts;
    }
  }

  lemma {:induction false} SplitPlain(s: string, sep: char)
    requires sep !in s
    ensures Split(s, sep) == [s]
  {
    if s != [] {
      assert s[0] in s && forall c :: c in s[1..] ==> c in s;
      SplitPlain(s[1..], sep);
      assert [s[0]] + s[1..] == s;
    }
  }

  ghost predicate LabelSuffix(host: string, entry: string) {
    var h, e := Labels(host), Labels(entry);
    |e| <= |h| && h[|h| - |e|..] == e
  }

  /** The character-level suffix test decides exactly "the entry's labels are the host's last labels". */
  lemma DotSuffixIsLabelSuffix(host: string, entry: string)
    ensures DotSuffix(host, entry) <==> entry != [] && LabelSuffix(host, entry)
  {
    if DotSuffix(host, entry) {
      var rest := host[..|host| - |entry|];
      if rest == [] {
        assert host == entry;
      } else {
        var front := rest[..|rest| - 1];
        assert host == front + ['.'] + entry;
        SplitConcat(front, entry, '.');
      }
    }
    if entry != [] && LabelSuffix(host, entry) {
      var h, e := Labels(host), Labels(entry);
      var p := h[..|h| - |e|];
      assert h == p + e;
      JoinSplit(host, '.');
      JoinSplit(entry, '.');
      if p == [] {
        assert host == entry;
      } else {
        JoinConcat(p, e, '.');
        assert host == Join(p, '.') + ['.'] + entry;
      }
    }
  }
}
