// Endpoint classes, target-host classes and endpoint ordering (crates/transport/src/route.rs).

module Route {
  import opened Text
  import opened Ordering

  predicate IsNativeVps(url: string) {
    Contains(url, "searchxai") || Contains(url, "rn.") || Contains(url, "rn.example.com")
    || Contains(url, "192.210.231.8")
  }

  predicate IsVercel(url: string) {
    Contains(url, "vercel") || Contains(url, "vgate") || Contains(url, "/api/ws")
  }

  function Classify(url: string): Egress {
    if IsNativeVps(url) then NativeVps else if IsVercel(url) then Vercel else Cf
  }

  /** The classes, by what the address holds: a VPS name decides first, then a Vercel one. */
  lemma EndpointClasses(url: string)
    ensures Classify(url) == NativeVps <==> IsNativeVps(url)
    ensures IsNativeVps(url) <==> Holds(url, "searchxai") || Holds(url, "rn.") || Holds(url, "192.210.231.8")
    ensures IsVercel(url) <==> Holds(url, "vercel") || Holds(url, "vgate") || Holds(url, "/api/ws")
    ensures Classify(url) == Vercel <==> IsVercel(url) && !IsNativeVps(url)
  {
    VpsNames(url);
    VercelNames(url);
  }

  lemma VpsNames(url: string)
    ensures IsNativeVps(url) <==> Holds(url, "searchxai") || Holds(url, "rn.") || Holds(url, "192.210.231.8")
  {
    ContainsIffHolds(url, "searchxai");
    ContainsIffHolds(url, "rn.");
    ContainsIffHolds(url, "rn.example.com");
    ContainsIffHolds(url, "192.210.231.8");
    HoldsPart(url, "rn.", "example.com");
    assert "rn." + "example.com" == "rn.example.com";
  }

  /** What holds a longer name holds its beginning. */
  lemma HoldsPart(s: string, a: string, b: string)
    ensures Holds(s, a + b) ==> Holds(s, a)
  {
    if Holds(s, a + b) {
      var x: string, y: string :| s == x + (a + b) + y;
      assert s == x + a + (b + y);
    }
  }

  lemma VercelNames(url: string)
    ensures IsVercel(url) <==> Holds(url, "vercel") || Holds(url, "vgate") || Holds(url, "/api/ws")
  {
    ContainsIffHolds(url, "vercel");
    ContainsIffHolds(url, "vgate");
    ContainsIffHolds(url, "/api/ws");
  }

  // ---- target hosts ----

  const GOOGLE_BASE: seq<string> := [
    "googleapis.com", "gstatic.com", "googleusercontent.com", "deepmind.google",
    "antigravity.google", "labs.google", "g.co", "goog"]

  const AI_TARGETS: seq<string> := [
    "openai.com", "chatgpt.com", "oaistatic.com", "oaiusercontent.com", "anthropic.com", "claude.ai"]

  const COMPLIANT: seq<string> := [
    "daily-cloudcode-pa.googleapis.com", "cloudcode-pa.googleapis.com", "cloudaicompanion.googleapis.com"]

  const YOUTUBE: seq<string> := [
    "youtube.com", "googlevideo.com", "ytimg.com", "youtu.be", "youtube-nocookie.com", "ggpht.com"]

  predicate AnySuffix(h: string, entries: seq<string>) {
    exists i :: 0 <= i < |entries| && DotSuffix(h, entries[i])
  }

  function Canonical(host: string): string { TrimEndDots(Lower(Trim(host))) }

  predicate IsYoutube(host: string) {
    Canonical(host) != [] && AnySuffix(Canonical(host), YOUTUBE)
  }

  predicate RequiresCompliantEgress(host: string) {
    Canonical(host) != [] && AnySuffix(Canonical(host), COMPLIANT)
  }

  predicate IsStrictAi(host: string) { AnySuffix(Lower(Trim(host)), AI_TARGETS) }

  predicate IsGoogleOrAi(host: string) {
    var h := Lower(Trim(host));
    || AnySuffix(h, GOOGLE_BASE)
    || h == "google.com" || EndsWith(h, ".google.com") || StartsWith(h, "google.") || Contains(h, ".google.")
    || AnySuffix(h, AI_TARGETS)
  }

  predicate VercelPreferred(host: string, conserveVercel: bool) {
    RequiresCompliantEgress(host) || (if conserveVercel then IsStrictAi(host) else IsGoogleOrAi(host))
  }

  /** The compliant-egress hosts are those whose labels end in those of one of three names. */
  lemma CompliantHosts(host: string)
    ensures RequiresCompliantEgress(host) <==> (
      var h := Canonical(host);
      h != [] && (LabelSuffix(h, "daily-cloudcode-pa.googleapis.com") || LabelSuffix(h, "cloudcode-pa.googleapis.com")
                  || LabelSuffix(h, "cloudaicompanion.googleapis.com")))
  {
    Suffixes3(Canonical(host), "daily-cloudcode-pa.googleapis.com", "cloudcode-pa.googleapis.com", "cloudaicompanion.googleapis.com");
  }

  lemma YoutubeHosts(host: string)
    ensures IsYoutube(host) <==> (
      var h := Canonical(host);
      h != [] && (LabelSuffix(h, "youtube.com") || LabelSuffix(h, "googlevideo.com") || LabelSuffix(h, "ytimg.com")
                  || LabelSuffix(h, "youtu.be") || LabelSuffix(h, "youtube-nocookie.com") || LabelSuffix(h, "ggpht.com")))
  {
    Suffixes6(Canonical(host), "youtube.com", "googlevideo.com", "ytimg.com", "youtu.be", "youtube-nocookie.com", "ggpht.com");
  }

  lemma StrictAiHosts(host: string)
    ensures IsStrictAi(host) <==> (
      var h := Lower(Trim(host));
      LabelSuffix(h, "openai.com") || LabelSuffix(h, "chatgpt.com") || LabelSuffix(h, "oaistatic.com")
      || LabelSuffix(h, "oaiusercontent.com") || LabelSuffix(h, "anthropic.com") || LabelSuffix(h, "claude.ai"))
  {
    Suffixes6(Lower(Trim(host)), "openai.com", "chatgpt.com", "oaistatic.com", "oaiusercontent.com", "anthropic.com", "claude.ai");
  }

  lemma Suffixes3(h: string, a: string, b: string, c: string)
    requires a != [] && b != [] && c != []
    ensures AnySuffix(h, [a, b, c]) <==> LabelSuffix(h, a) || LabelSuffix(h, b) || LabelSuffix(h, c)
  {
    var l := [a, b, c];
    assert AnySuffix(h, l) <==> DotSuffix(h, l[0]) || DotSuffix(h, l[1]) || DotSuffix(h, l[2]);
    DotSuffixIsLabelSuffix(h, a);
    DotSuffixIsLabelSuffix(h, b);
    DotSuffixIsLabelSuffix(h, c);
  }

  lemma Suffixes6(h: string, a: string, b: string, c: string, d: string, e: string, f: string)
    requires a != [] && b != [] && c != [] && d != [] && e != [] && f != []
    ensures AnySuffix(h, [a, b, c, d, e, f]) <==>
      LabelSuffix(h, a) || LabelSuffix(h, b) || LabelSuffix(h, c) || LabelSuffix(h, d) || LabelSuffix(h, e) || LabelSuffix(h, f)
  {
    var x, y := [a, b, c], [d, e, f];
    SuffixConcat(h, x, y);
    assert [a, b, c, d, e, f] == x + y;
    Suffixes3(h, a, b, c);
    Suffixes3(h, d, e, f);
  }

  lemma SuffixConcat(h: string, x: seq<string>, y: seq<string>)
    ensures AnySuffix(h, x + y) <==> AnySuffix(h, x) || AnySuffix(h, y)
  {
    if AnySuffix(h, x) {
      var i :| 0 <= i < |x| && DotSuffix(h, x[i]);
      assert DotSuffix(h, (x + y)[i]);
    }
    if AnySuffix(h, y) {
      var i :| 0 <= i < |y| && DotSuffix(h, y[i]);
      assert DotSuffix(h, (x + y)[|x| + i]);
    }
  }

  /** The canonical host: no white space around, no capitals, no dots at the end. */
  lemma CanonicalMeaning(host: string) returns (p: string, core: string, dots: string, q: string)
    ensures host == p + core + dots + q
    ensures (forall i :: 0 <= i < |p| ==> IsSpace(p[i])) && (forall i :: 0 <= i < |q| ==> IsSpace(q[i]))
    ensures forall i :: 0 <= i < |dots| ==> dots[i] == '.'
    ensures Canonical(host) == Lower(core) && (core != [] ==> core[|core| - 1] != '.')
  {
    p, q := TrimMeaning(host);
    core, dots := DottedCore(Trim(host));
    assert p + (core + dots) + q == p + core + dots + q;
  }

  lemma DottedCore(t: string) returns (core: string, dots: string)
    ensures t == core + dots && (forall i :: 0 <= i < |dots| ==> dots[i] == '.')
    ensures TrimEndDots(Lower(t)) == Lower(core) && (core != [] ==> core[|core| - 1] != '.')
  {
    var low := DotsMeaning(Lower(t));
    var n := |TrimEndDots(Lower(t))|;
    core, dots := t[..n], t[n..];
    forall i | 0 <= i < |dots|
      ensures dots[i] == '.'
    {
      assert low[i] == Lower(t)[n + i];
      LowerMeaning(t, n + i);
    }
    assert Lower(core) == Lower(t)[..n];
  }

  /**
   * A compliant-egress host prefers Vercel whatever the saving mode, a strict AI host in either mode, and
   * saving never adds a preference; a host that is neither compliant nor Google nor AI never has one.
   */
  lemma PreferenceRules(host: string, conserve: bool)
    ensures RequiresCompliantEgress(host) || IsStrictAi(host) ==> VercelPreferred(host, conserve)
    ensures VercelPreferred(host, true) ==> VercelPreferred(host, false)
    ensures VercelPreferred(host, true) ==> RequiresCompliantEgress(host) || IsStrictAi(host)
    ensures VercelPreferred(host, false) <==> RequiresCompliantEgress(host) || IsGoogleOrAi(host)
  {
  }

  lemma SuffixTail(h: string, e: string, k: nat)
    requires EndsWith(h, e) && k < |e|
    ensures h[|h| - 1 - k] == e[|e| - 1 - k]
  {
    assert h[|h| - |e|..][|e| - 1 - k] == h[|h| - 1 - k];
  }

  /** The entry ends like "s.com": its last letter is m and its last but four is s. */
  predicate EndsSCom(e: string) { |e| >= 5 && e[|e| - 1] == 'm' && e[|e| - 5] == 's' }

  lemma CompliantEntry(i: nat)
    requires i < |COMPLIANT|
    ensures EndsSCom(COMPLIANT[i])
  {
    if i == 0 {
      assert COMPLIANT[i] == "daily-cloudcode-pa.googleapis.com";
    } else if i == 1 {
      assert COMPLIANT[i] == "cloudcode-pa.googleapis.com";
    } else {
      assert COMPLIANT[i] == "cloudaicompanion.googleapis.com";
    }
  }

  lemma YoutubeEntry(i: nat)
    requires i < |YOUTUBE|
    ensures |YOUTUBE[i]| >= 5 && !EndsSCom(YOUTUBE[i])
  {
  }

  /** No host is both a compliant-egress host and a YouTube host. */
  lemma CompliantIsNotYoutube(host: string)
    ensures !(RequiresCompliantEgress(host) && IsYoutube(host))
  {
    forall i: nat | i < |COMPLIANT|
      ensures EndsSCom(COMPLIANT[i])
    {
      CompliantEntry(i);
    }
    forall j: nat | j < |YOUTUBE|
      ensures |YOUTUBE[j]| >= 5 && !EndsSCom(YOUTUBE[j])
    {
      YoutubeEntry(j);
    }
    SuffixClash(Canonical(host), COMPLIANT, YOUTUBE);
  }

  lemma SuffixClash(h: string, cs: seq<string>, ys: seq<string>)
    requires forall i :: 0 <= i < |cs| ==> EndsSCom(cs[i])
    requires forall j :: 0 <= j < |ys| ==> |ys[j]| >= 5 && !EndsSCom(ys[j])
    ensures !(AnySuffix(h, cs) && AnySuffix(h, ys))
  {
    if AnySuffix(h, cs) {
      var i :| 0 <= i < |cs| && DotSuffix(h, cs[i]);
      forall j | 0 <= j < |ys|
        ensures !DotSuffix(h, ys[j])
      {
        TailsDiffer(h, cs[i], ys[j]);
      }
    }
  }

  lemma TailsDiffer(h: string, a: string, b: string)
    requires EndsWith(h, a) && EndsSCom(a) && |b| >= 5 && !EndsSCom(b)
    ensures !EndsWith(h, b)
  {
    if EndsWith(h, b) {
      SuffixTails(h, a, b);
    }
  }

  /** Two suffixes of one string agree wherever both reach. */
  lemma SuffixTails(h: string, a: string, b: string)
    requires EndsWith(h, a) && EndsWith(h, b) && |a| >= 5 && |b| >= 5
    ensures a[|a| - 1] == b[|b| - 1] && a[|a| - 5] == b[|b| - 5]
  {
    SuffixTail(h, a, 0);
    SuffixTail(h, a, 4);
    SuffixTail(h, b, 0);
    SuffixTail(h, b, 4);
  }

  // ---- ordering ----

  method OrderEndpointsWithOffset(urls: seq<string>, host: string, conserveVercel: bool, offset: nat)
    returns (list: seq<string>)
    ensures list == Ordered(urls, Classify, VercelPreferred(host, conserveVercel), offset)
  {
    list := OrderEndpoints(urls, Classify, VercelPreferred(host, conserveVercel), offset);
  }

  function NonEmpty(parts: seq<string>): seq<string> {
    if parts == [] then [] else (if parts[0] == [] then [] else [parts[0]]) + NonEmpty(parts[1..])
  }

  function TrimAll(parts: seq<string>): seq<string> {
    if parts == [] then [] else [Trim(parts[0])] + TrimAll(parts[1..])
  }

  function GateUrls(gateUrl: string): seq<string> { NonEmpty(TrimAll(Split(gateUrl, ','))) }

  /** The process-wide rotation counter. */
  class GateUrlCounter {
    var next: nat

    constructor ()
      ensures next == 0
    {
      next := 0;
    }

    method OrderedGateUrls(gateUrl: string, host: string, conserveVercel: bool) returns (list: seq<string>)
      modifies this
      ensures next == old(next) + 1
      ensures list == Ordered(GateUrls(gateUrl), Classify, VercelPreferred(host, conserveVercel), old(next))
    {
      var offset := next;
      next := next + 1;
      list := OrderEndpointsWithOffset(GateUrls(gateUrl), host, conserveVercel, offset);
    }
  }

  function CompliantEndpoints(ordered: seq<string>): (r: seq<string>)
    ensures |r| <= |ordered|
    ensures forall i :: 0 <= i < |r| ==> Classify(r[i]) != Cf && r[i] in ordered
  {
    WithoutCf(ordered, Classify)
  }
}
