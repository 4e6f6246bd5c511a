// Which targets may be dialled: the public-address test and target resolution
// (crates/gate-server/src/connect_proxy.rs, crates/gate-server/src/lib.rs).

module Target {
  import opened Common
  import opened Text
  import opened Ipv4Text

  // ---- IPv4 ----

  /** The source's test, octet by octet. */
  predicate IsPublicV4(a: nat) {
    var o0, o1, o2, o3 := Octet(a, 0), Octet(a, 1), Octet(a, 2), Octet(a, 3);
    !(IsLoopback(o0) || IsPrivate(o0, o1) || IsLinkLocal(o0, o1) || IsUnspecified(o0, o1, o2, o3)
      || IsBroadcast(o0, o1, o2, o3) || IsMulticast(o0) || IsDocumentation(o0, o1, o2))
    && o0 != 0
    && !(o0 == 100 && 64 <= o1 <= 127)
    && !(o0 == 198 && (o1 == 18 || o1 == 19))
    && !(o0 == 192 && o1 == 0 && o2 == 0)
    && !(o0 == 192 && o1 == 88 && o2 == 99)
    && !(o0 >= 240)
  }

  predicate IsLoopback(o0: nat) { o0 == 127 }

  predicate IsPrivate(o0: nat, o1: nat) { o0 == 10 || (o0 == 172 && 16 <= o1 <= 31) || (o0 == 192 && o1 == 168) }

  predicate IsLinkLocal(o0: nat, o1: nat) { o0 == 169 && o1 == 254 }

  predicate IsUnspecified(o0: nat, o1: nat, o2: nat, o3: nat) { o0 == 0 && o1 == 0 && o2 == 0 && o3 == 0 }

  predicate IsBroadcast(o0: nat, o1: nat, o2: nat, o3: nat) { o0 == 255 && o1 == 255 && o2 == 255 && o3 == 255 }

  predicate IsMulticast(o0: nat) { 224 <= o0 <= 239 }

  predicate IsDocumentation(o0: nat, o1: nat, o2: nat) {
    (o0 == 192 && o1 == 0 && o2 == 2) || (o0 == 198 && o1 == 51 && o2 == 100) || (o0 == 203 && o1 == 0 && o2 == 113)
  }

  /** The address block that starts at an address and has the given number of addresses. */
  predicate InBlock(v: nat, first: nat, size: nat) { first <= v < first + size }

  /** The blocks that are not public, as address ranges. */
  predicate Reserved4(a: nat) {
    InBlock(a, 0x0000_0000, 0x100_0000)       // 0.0.0.0/8
    || InBlock(a, 0x0A00_0000, 0x100_0000)    // 10.0.0.0/8
    || InBlock(a, 0x6440_0000, 0x40_0000)     // 100.64.0.0/10
    || InBlock(a, 0x7F00_0000, 0x100_0000)    // 127.0.0.0/8
    || InBlock(a, 0xA9FE_0000, 0x1_0000)      // 169.254.0.0/16
    || InBlock(a, 0xAC10_0000, 0x10_0000)     // 172.16.0.0/12
    || InBlock(a, 0xC000_0000, 0x100)         // 192.0.0.0/24
    || InBlock(a, 0xC000_0200, 0x100)         // 192.0.2.0/24
    || InBlock(a, 0xC058_6300, 0x100)         // 192.88.99.0/24
    || InBlock(a, 0xC0A8_0000, 0x1_0000)      // 192.168.0.0/16
    || InBlock(a, 0xC612_0000, 0x2_0000)      // 198.18.0.0/15
    || InBlock(a, 0xC633_6400, 0x100)         // 198.51.100.0/24
    || InBlock(a, 0xCB00_7100, 0x100)         // 203.0.113.0/24
    || InBlock(a, 0xE000_0000, 0x2000_0000)   // 224.0.0.0/4 and 240.0.0.0/4
  }

  /** The octet tests refuse exactly the addresses of the reserved blocks. */
  lemma PublicV4IffNotReserved(v: nat)
    requires v < U32
    ensures IsPublicV4(v) <==> !Reserved4(v)
  {
    var a, b, c, d := WordOf(v);
    WordOctets(a, b, c, d);
  }

  // ---- IPv6 ----

  /** Eight 16-bit segments. */
  ghost predicate Segments(s: seq<nat>) { |s| == 8 && forall i :: 0 <= i < 8 ==> s[i] < 0x1_0000 }

  /** The segment with its low bits cleared, as the masks of the source leave it. */
  function Masked(seg: nat, low: nat): nat
    requires low > 0
  {
    seg / low * low
  }

  function ToIpv4Mapped(s: seq<nat>): Option<nat>
    requires |s| == 8
  {
    if s[0] == 0 && s[1] == 0 && s[2] == 0 && s[3] == 0 && s[4] == 0 && s[5] == 0xFFFF then Some(s[6] * 0x1_0000 + s[7])
    else None
  }

  predicate IsPublicV6(s: seq<nat>)
    requires |s| == 8
  {
    match ToIpv4Mapped(s)
    case Some(v4) => IsPublicV4(v4)
    case None =>
      !(s == [0, 0, 0, 0, 0, 0, 0, 1] || s == [0, 0, 0, 0, 0, 0, 0, 0] || Masked(s[0], 0x100) == 0xFF00)
      && Masked(s[0], 0x200) != 0xFC00
      && Masked(s[0], 0x40) != 0xFE80
      && Masked(s[0], 0x40) != 0xFEC0
      && !(s[0] == 0x2001 && s[1] == 0x0DB8)
      && !(s[0] == 0x0064 && s[1] == 0xFF9B)
      && !(s[0] == 0 && s[1] == 0 && s[2] == 0 && s[3] == 0 && s[4] == 0 && s[5] == 0)
  }

  /** The 128-bit address, in three pieces so that comparisons stay within them. */
  function Top(s: seq<nat>): nat
    requires |s| == 8
  {
    s[0] * 0x1_0000 + s[1]
  }

  function Middle(s: seq<nat>): nat
    requires |s| == 8
  {
    ((s[2] * 0x1_0000 + s[3]) * 0x1_0000 + s[4]) * 0x1_0000 + s[5]
  }

  function Word6(s: seq<nat>): nat
    requires |s| == 8
  {
    (Top(s) * 0x1_0000_0000_0000_0000 + Middle(s)) * 0x1_0000_0000 + (s[6] * 0x1_0000 + s[7])
  }

  /** The reserved blocks of the 128-bit space, IPv4-mapped addresses aside. */
  predicate Reserved6(v: nat) {
    InBlock(v, 0, 0x1_0000_0000)                                                       // ::/96
    || InBlock(v, 0x0064_FF9B_0000_0000_0000_0000_0000_0000, 0x1_0000_0000_0000_0000_0000_0000) // 64:ff9b::/32
    || InBlock(v, 0x2001_0DB8_0000_0000_0000_0000_0000_0000, 0x1_0000_0000_0000_0000_0000_0000) // 2001:db8::/32
    || InBlock(v, 0xFC00_0000_0000_0000_0000_0000_0000_0000, 0x200_0000_0000_0000_0000_0000_0000_0000) // fc00::/7
    || InBlock(v, 0xFE80_0000_0000_0000_0000_0000_0000_0000, 0x40_0000_0000_0000_0000_0000_0000_0000)  // fe80::/10
    || InBlock(v, 0xFEC0_0000_0000_0000_0000_0000_0000_0000, 0x40_0000_0000_0000_0000_0000_0000_0000)  // fec0::/10
    || InBlock(v, 0xFF00_0000_0000_0000_0000_0000_0000_0000, 0x100_0000_0000_0000_0000_0000_0000_0000) // ff00::/8
  }

  /** ::ffff:0:0/96, the IPv4-mapped addresses. */
  const MAPPED: nat := 0xFFFF_0000_0000

  /**
   * A mapped address gets the verdict of its inner IPv4 address; any other is public exactly when it is
   * in no reserved block.
   */
  lemma PublicV6IffNotReserved(s: seq<nat>)
    requires Segments(s)
    ensures var v := Word6(s);
      IsPublicV6(s) <==> if InBlock(v, MAPPED, U32) then !Reserved4(v - MAPPED) else !Reserved6(v)
  {
    MappedBlock(s);
    if ToIpv4Mapped(s).Some? {
      PublicV4IffNotReserved(s[6] * 0x1_0000 + s[7]);
    } else {
      TopBlocks(s);
      LowBlock(s);
    }
  }

  lemma MappedBlock(s: seq<nat>)
    requires Segments(s)
    ensures ToIpv4Mapped(s).Some? <==> InBlock(Word6(s), MAPPED, U32)
    ensures ToIpv4Mapped(s).Some? ==> ToIpv4Mapped(s).value == Word6(s) - MAPPED
  {
    assert ToIpv4Mapped(s).Some? <==> Top(s) == 0 && Middle(s) == 0xFFFF;
  }

  lemma LowBlock(s: seq<nat>)
    requires Segments(s)
    ensures InBlock(Word6(s), 0, U32) <==> s[0] == 0 && s[1] == 0 && s[2] == 0 && s[3] == 0 && s[4] == 0 && s[5] == 0
  {
    assert Top(s) == 0 && Middle(s) == 0 <==>
      s[0] == 0 && s[1] == 0 && s[2] == 0 && s[3] == 0 && s[4] == 0 && s[5] == 0;
  }

  /** A block of at least 2^96 addresses is decided by the first two segments. */
  lemma TopBlock(s: seq<nat>, first: nat, size: nat)
    requires Segments(s)
    ensures InBlock(Word6(s), first * 0x1_0000_0000_0000_0000_0000_0000, size * 0x1_0000_0000_0000_0000_0000_0000)
      <==> InBlock(Top(s), first, size)
  {
    var low := Middle(s) * 0x1_0000_0000 + (s[6] * 0x1_0000 + s[7]);
    assert 0 <= low < 0x1_0000_0000_0000_0000_0000_0000;
    assert Word6(s) == Top(s) * 0x1_0000_0000_0000_0000_0000_0000 + low;
  }

  lemma TopBlocks(s: seq<nat>)
    requires Segments(s)
    ensures Reserved6(Word6(s)) <==>
      InBlock(Word6(s), 0, U32)
      || (s[0] == 0x0064 && s[1] == 0xFF9B)
      || (s[0] == 0x2001 && s[1] == 0x0DB8)
      || Masked(s[0], 0x200) == 0xFC00
      || Masked(s[0], 0x40) == 0xFE80
      || Masked(s[0], 0x40) == 0xFEC0
      || Masked(s[0], 0x100) == 0xFF00
  {
    TopBlock(s, 0x0064_FF9B, 1);
    TopBlock(s, 0x2001_0DB8, 1);
    TopBlock(s, 0xFC00_0000, 0x200_0000);
    TopBlock(s, 0xFE80_0000, 0x40_0000);
    TopBlock(s, 0xFEC0_0000, 0x40_0000);
    TopBlock(s, 0xFF00_0000, 0x100_0000);
  }

  // ---- literals ----

  datatype Ip = V4(a: nat) | V6(segs: seq<nat>)

  ghost predicate ValidIp(ip: Ip) { match ip case V4(a) => a < U32 case V6(s) => Segments(s) }

  predicate IsPublic(ip: Ip)
    requires ValidIp(ip)
  {
    match ip case V4(a) => IsPublicV4(a) case V6(s) => IsPublicV6(s)
  }

  /** The standard library's octet: at most three decimal digits, no leading zero, at most 255. */
  predicate StdOctet(p: string) {
    1 <= |p| <= 3 && Value(p, 10).Some? && Value(p, 10).value < 256 && (|p| > 1 ==> p[0] != '0')
  }

  /** The standard library's dotted quad. */
  function StdV4(s: string): Option<nat> {
    var parts := Split(s, '.');
    if |parts| == 4 && forall i :: 0 <= i < 4 ==> StdOctet(parts[i])
    then Some(Assembled(seq(4, i requires 0 <= i < 4 => Value(parts[i], 10).value)))
    else None
  }

  lemma {:induction false} ValueStart(p: string, base: nat)
    requires p != [] && base <= 16 && Value(p, base).Some?
    ensures DigitOf(p[0], base).Some?
  {
    if |p| > 1 {
      ValueStart(p[..|p| - 1], base);
    }
  }

  lemma StdOctetRead(p: string)
    requires StdOctet(p)
    ensures ParseU32Auto(p) == Value(p, 10)
  {
    ValueStart(p, 10);
    assert |p| > 1 ==> p[..2][0] != '0';
  }

  /** A standard dotted quad is one of the spellings of its address: the two parsers never disagree. */
  lemma StdIsSpelling(s: string)
    requires StdV4(s).Some?
    ensures Spells(s, StdV4(s).value)
  {
    var parts := Split(s, '.');
    var nums := seq(4, i requires 0 <= i < 4 => Value(parts[i], 10).value);
    forall i | 0 <= i < 4
      ensures ParseU32Auto(parts[i]) == Some(nums[i]) && nums[i] < 256
    {
      StdOctetRead(parts[i]);
    }
    var read := ParseParts(parts);
    assert forall i :: 0 <= i < 4 ==> Some(read.value[i]) == Some(nums[i]);
    assert read.value == nums;
    assert forall i :: 0 <= i < 4 ==> FieldFits(nums, i);
    PartsSpell(s, nums);
  }

  /** The literal of a host: std6 is what the standard IPv6 parser makes of it. */
  method ParseIpLiteral(host: string, std6: Option<seq<nat>>) returns (r: Option<Ip>)
    requires std6.Some? ==> ':' in host && Segments(std6.value)
    ensures r.Some? ==> ValidIp(r.value)
    ensures std6.Some? ==> r == Some(V6(std6.value))
    ensures forall a :: Spells(host, a) ==> r == Some(V4(a))
    ensures r.None? <==> std6.None? && forall a :: !Spells(host, a)
  {
    forall a: nat, b: nat | Spells(host, a) && Spells(host, b)
      ensures a == b && ':' !in host
    {
      SpellsUnique(host, a, b);
      SpelledParts(host, a);
    }
    if StdV4(host).Some? {
      StdIsSpelling(host);
      return Some(V4(StdV4(host).value));
    }
    if std6.Some? {
      return Some(V6(std6.value));
    }
    var legacy := ParseLegacyIpv4(host);
    r := if legacy.Some? then Some(V4(legacy.value)) else None;
  }

  // ---- domain names ----

  predicate DomainChar(c: char) {
    '0' <= c <= '9' || 'a' <= c <= 'z' || 'A' <= c <= 'Z' || c == '.' || c == '-'
  }

  predicate IsDomainHost(host: string) {
    host != [] && |host| <= 253 && forall i :: 0 <= i < |host| ==> DomainChar(host[i])
  }

  /** The second number of a host that starts with 172., if another dot follows it. */
  function SecondOctet(lower: string): Option<nat> {
    if !StartsWith(lower, "172.") then None
    else
      var parts := Split(lower[4..], '.');
      if |parts| < 2 then None
      else
        var num := Radix(parts[0], 10);
        if num.Some? && num.value < 256 then num else None
  }

  predicate IsValidHost(host: string) { host != [] && |host| <= 253 && !LooksLocal(Lower(TrimEndDots(host))) }

  predicate LooksLocal(lower: string) {
    || lower == "localhost" || EndsWith(lower, ".localhost")
    || StartsWith(lower, "10.") || StartsWith(lower, "127.") || StartsWith(lower, "169.254.")
    || StartsWith(lower, "192.168.") || StartsWith(lower, "0177.") || StartsWith(lower, "0x7f.")
    || lower == "::1" || lower == "[::1]"
    || (SecondOctet(lower).Some? && 16 <= SecondOctet(lower).value <= 31)
  }

  /** For a word without dots, "starts with the word and a dot" says that it is the first of several labels. */
  lemma FirstLabel(s: string, w: string)
    requires '.' !in w
    ensures StartsWith(s, w + ".") <==> |Labels(s)| >= 2 && Labels(s)[0] == w
  {
    SplitPlain(w, '.');
    if StartsWith(s, w + ".") {
      var rest := s[|w| + 1..];
      assert s == w + ['.'] + rest by {
        assert s == s[..|w| + 1] + rest && s[..|w| + 1] == w + ['.'];
      }
      SplitConcat(w, rest, '.');
    }
    if |Labels(s)| >= 2 && Labels(s)[0] == w {
      JoinSplit(s, '.');
      assert s == w + ['.'] + Join(Labels(s)[1..], '.');
      assert s[..|w| + 1] == w + ".";
    }
  }

  /** Likewise for two words. */
  lemma FirstTwoLabels(s: string, a: string, b: string)
    requires '.' !in a && '.' !in b
    ensures StartsWith(s, a + "." + b + ".") <==> |Labels(s)| >= 3 && Labels(s)[0] == a && Labels(s)[1] == b
  {
    FirstLabel(s, a);
    var head, tail := a + ".", b + ".";
    assert a + "." + b + "." == head + tail;
    if StartsWith(s, head) {
      LabelsAfter(s, a);
      var rest := s[|head|..];
      FirstLabel(rest, b);
      assert StartsWith(s, head + tail) <==> StartsWith(rest, tail) by {
        assert s == head + rest;
      }
    }
  }

  lemma LabelsAfter(s: string, w: string)
    requires '.' !in w && StartsWith(s, w + ".")
    ensures Labels(s) == [w] + Labels(s[|w| + 1..])
  {
    var rest := s[|w| + 1..];
    assert s == w + ['.'] + rest by {
      assert s == s[..|w| + 1] + rest && s[..|w| + 1] == w + ['.'];
    }
    SplitPlain(w, '.');
    SplitConcat(w, rest, '.');
  }

  /** A name equals a word or ends with a dot and the word exactly when the word is its last label. */
  lemma LastLabel(s: string, w: string)
    requires w != [] && '.' !in w
    ensures s == w || EndsWith(s, "." + w) <==> Labels(s)[|Labels(s)| - 1] == w
  {
    SplitPlain(w, '.');
    DotSuffixIsLabelSuffix(s, w);
    var h := Labels(s);
    assert h[|h| - 1..] == [h[|h| - 1]];
    DottedSuffix(s, w);
  }

  lemma DottedSuffix(s: string, w: string)
    requires w != []
    ensures DotSuffix(s, w) <==> s == w || EndsWith(s, "." + w)
  {
    var cut := |s| - |w|;
    if DotSuffix(s, w) {
      assert s[..cut] + s[cut..] == s;
      if cut > 0 {
        OneEarlier(s, cut);
      }
    }
    if EndsWith(s, "." + w) {
      OneEarlier(s, cut);
      assert s[cut - 1..][0] == '.' && s[cut - 1..][1..] == w;
    }
  }

  lemma OneEarlier(s: string, cut: nat)
    requires 0 < cut <= |s|
    ensures s[cut - 1..] == [s[cut - 1]] + s[cut..] && s[cut - 1..][1..] == s[cut..]
  {
  }

  /** What makes a name local, in terms of its labels. */
  ghost predicate LocalLabels(l: seq<string>)
    requires l != []
  {
    l[|l| - 1] == "localhost" || LocalWord(l) || LocalPair(l) || LocalRange(l)
  }

  predicate LocalWord(l: seq<string>) { |l| >= 2 && (l[0] == "10" || l[0] == "127" || l[0] == "0177" || l[0] == "0x7f") }

  predicate LocalPair(l: seq<string>) { |l| >= 3 && ((l[0] == "169" && l[1] == "254") || (l[0] == "192" && l[1] == "168")) }

  ghost predicate LocalRange(l: seq<string>) { |l| >= 3 && l[0] == "172" && exists v :: 16 <= v <= 31 && Radix(l[1], 10) == Some(v) }

  lemma LocalRangeIff(s: string, w: string)
    requires w == "172"
    ensures LocalRange(Labels(s)) <==> SecondOctet(s).Some? && 16 <= SecondOctet(s).value <= 31
  {
    assert w + "." == "172.";
    FirstLabel(s, w);
    if StartsWith(s, w + ".") {
      LabelsAfter(s, w);
    }
  }

  lemma LocalWordIff(s: string)
    ensures LocalWord(Labels(s)) <==> StartsWith(s, "10.") || StartsWith(s, "127.") || StartsWith(s, "0177.") || StartsWith(s, "0x7f.")
  {
    FirstLabel(s, "10");
    assert "10" + "." == "10.";
    FirstLabel(s, "127");
    assert "127" + "." == "127.";
    FirstLabel(s, "0177");
    assert "0177" + "." == "0177.";
    FirstLabel(s, "0x7f");
    assert "0x7f" + "." == "0x7f.";
  }

  lemma LocalPairIff(s: string)
    ensures LocalPair(Labels(s)) <==> StartsWith(s, "169.254.") || StartsWith(s, "192.168.")
  {
    FirstTwoLabels(s, "169", "254");
    assert "169" + "." + "254" + "." == "169.254.";
    FirstTwoLabels(s, "192", "168");
    assert "192" + "." + "168" + "." == "192.168.";
  }

  lemma LocalNameIff(s: string, w: string)
    requires w == "localhost"
    ensures Labels(s)[|Labels(s)| - 1] == w <==> s == w || EndsWith(s, ".localhost")
  {
    LastLabel(s, w);
    assert "." + w == ".localhost";
  }

  lemma LooksLocalIff(s: string)
    ensures LooksLocal(s) <==> s == "::1" || s == "[::1]" || LocalLabels(Labels(s))
  {
    LocalNameIff(s, "localhost");
    LocalWordIff(s);
    LocalPairIff(s);
    LocalRangeIff(s, "172");
  }

  /** A name is allowed exactly when its length is right and its labels are not those of a local name. */
  lemma NameAllowedIff(host: string)
    ensures var lower := Lower(TrimEndDots(host));
      IsValidHost(host) <==> 1 <= |host| < 254 && lower != "::1" && lower != "[::1]" && !LocalLabels(Labels(lower))
  {
    LooksLocalIff(Lower(TrimEndDots(host)));
  }

  /** The letters, digits, dots and hyphens of a host, by code point. */
  lemma DomainHostIff(host: string)
    ensures IsDomainHost(host) <==>
      1 <= |host| < 254 && forall i :: 0 <= i < |host| ==>
        (var n := host[i] as int; 48 <= n <= 57 || 65 <= n <= 90 || 97 <= n <= 122 || n == 45 || n == 46)
  {
  }

  // ---- resolution ----

  datatype Resolved = Ok(ip: Ip) | AclDenied | Unreachable

  function Admit(ip: Ip): Resolved
    requires ValidIp(ip)
  {
    if IsPublic(ip) then Ok(ip) else AclDenied
  }

  /**
   * An address comes back only if it is public, and for a name only if every resolved address is. Every
   * spelling of an IPv4 address gets that address's verdict. The lookup is None on failure or timeout.
   */
  method ResolveTarget(host: string, std6: Option<seq<nat>>, lookup: Option<seq<Ip>>) returns (r: Resolved)
    requires std6.Some? ==> ':' in host && Segments(std6.value)
    requires lookup.Some? ==> forall i :: 0 <= i < |lookup.value| ==> ValidIp(lookup.value[i])
    ensures r.Ok? ==> ValidIp(r.ip) && IsPublic(r.ip)
    ensures forall a :: Spells(host, a) ==> r == if Reserved4(a) then AclDenied else Ok(V4(a))
    ensures std6.Some? ==> r == Admit(V6(std6.value))
    ensures std6.None? && (forall a :: !Spells(host, a)) ==> (
        var named := IsDomainHost(host) && IsValidHost(host);
        var found := lookup.Some? && lookup.value != [];
        var clean := found && forall i :: 0 <= i < |lookup.value| ==> IsPublic(lookup.value[i]);
        && (r.Ok? <==> named && clean)
        && (r.Ok? ==> r.ip == lookup.value[0])
        && (r.Unreachable? <==> named && !found))
  {
    var literal := ParseIpLiteral(host, std6);
    if literal.Some? {
      forall a: nat | Spells(host, a)
        ensures a < U32 && (IsPublicV4(a) <==> !Reserved4(a))
      {
        PublicV4IffNotReserved(a);
      }
      return Admit(literal.value);
    }
    if !IsDomainHost(host) || !IsValidHost(host) {
      return AclDenied;
    }
    if lookup.None? || lookup.value == [] {
      return Unreachable;
    }
    var addrs := lookup.value;
    if exists i :: 0 <= i < |addrs| && !IsPublic(addrs[i]) {
      return AclDenied;
    }
    r := Ok(addrs[0]);
  }
}
