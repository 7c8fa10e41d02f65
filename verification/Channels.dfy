/** Channel comparison and the Secret fingerprint (internal/config/channels.go).
  SHA-256 in hex is a parameter; where its shape matters, a lemma asks for HexDigest. */
module Channels {
  import opened Sorting
  import opened Text
  import opened ConfigTree

  type Sha = string -> string

  const DIGEST_LENGTH := 64

  /** The hex form of a 256-bit digest. */
  predicate IsDigest(s: string) {
    |s| == DIGEST_LENGTH && forall c :: c in s ==> '0' <= c <= '9' || 'a' <= c <= 'f'
  }

  ghost predicate HexDigest(sha: Sha) { forall x :: IsDigest(sha(x)) }

  const DEFAULT_PSK: string := ['\U{01}']

  const EXPANDED_DEFAULT_PSK: string := [
    '\U{d4}', '\U{f1}', '\U{bb}', '\U{3a}', '\U{20}', '\U{29}', '\U{07}', '\U{59}',
    '\U{f0}', '\U{bc}', '\U{ff}', '\U{ab}', '\U{cd}', '\U{4e}', '\U{69}', '\U{01}']

  predicate IsDefaultPsk(raw: string) { raw == DEFAULT_PSK || raw == EXPANDED_DEFAULT_PSK }

  predicate ValidChannelPsk(raw: string) { IsDefaultPsk(raw) || |raw| == 16 || |raw| == 32 }

  function NormalizePsk(raw: string): string { if IsDefaultPsk(raw) then DEFAULT_PSK else raw }

  function RawPskHash(sha: Sha, raw: string): string { if raw == "" then "" else sha(raw) }

  function PskHash(sha: Sha, raw: string): string { RawPskHash(sha, NormalizePsk(raw)) }

  function NormalizeLivePskHash(sha: Sha, h: string): string {
    if h == RawPskHash(sha, EXPANDED_DEFAULT_PSK) then RawPskHash(sha, DEFAULT_PSK) else h
  }

  /** SHA-256 hex of the MQTT password in a desired tree, "" when it has none. */
  function WriteOnlyPasswordHash(sha: Sha, desired: Config): string { RawPskHash(sha, Password(desired)) }

  predicate IndexLe(a: ChannelState, b: ChannelState) { a.index <= b.index }

  function SortByIndex(s: seq<ChannelState>): (r: seq<ChannelState>)
    ensures multiset(r) == multiset(s) && |r| == |s| && Sorted(IndexLe, r)
  {
    Sort(IndexLe, s)
  }

  predicate DistinctIndices(s: seq<ChannelState>) {
    forall i, j :: 0 <= i < j < |s| ==> s[i].index != s[j].index
  }

  // ----- Live channels and their drift

  predicate ChannelSetPresent(exported: Config) {
    "channels" in exported && exported["channels"].ChannelList?
  }

  function NormalizeLive(sha: Sha, s: seq<ChannelState>): (r: seq<ChannelState>)
    ensures |r| == |s|
    ensures forall i :: 0 <= i < |s| ==> r[i] == s[i].(pskHash := NormalizeLivePskHash(sha, s[i].pskHash))
  {
    if s == [] then []
    else [s[0].(pskHash := NormalizeLivePskHash(sha, s[0].pskHash))] + NormalizeLive(sha, s[1..])
  }

  function LiveChannels(sha: Sha, exported: Config): seq<ChannelState> {
    if ChannelSetPresent(exported) then SortByIndex(NormalizeLive(sha, exported["channels"].list)) else []
  }

  method ReadLiveChannels(sha: Sha, exported: Config) returns (out: seq<ChannelState>)
    ensures out == LiveChannels(sha, exported)
  {
    if !ChannelSetPresent(exported) {
      return [];
    }
    out := ReadList(sha, exported["channels"].list);
    out := SortByIndex(out);
  }

  method ReadList(sha: Sha, raw: seq<ChannelState>) returns (out: seq<ChannelState>)
    ensures out == NormalizeLive(sha, raw)
  {
    hide *;
    out := [];
    for i := 0 to |raw|
      invariant |out| == i
      invariant forall j :: 0 <= j < i ==> out[j] == raw[j].(pskHash := NormalizeLivePskHash(sha, raw[j].pskHash))
    {
      var h := NormalizeLivePskHash(sha, raw[i].pskHash);
      out := out + [raw[i].(pskHash := h)];
    }
    assert out == NormalizeLive(sha, raw);
  }

  /** The last live channel in a slot: later entries of the index map overwrite earlier ones. */
  function Slot(live: seq<ChannelState>, index: int): (r: Option<ChannelState>)
    ensures r.Some? ==> r.value in live && r.value.index == index
    ensures r.None? <==> forall c :: c in live ==> c.index != index
  {
    if live == [] then None
    else if live[|live| - 1].index == index then Some(live[|live| - 1])
    else
      assert live == live[..|live| - 1] + [live[|live| - 1]];
      Slot(live[..|live| - 1], index)
  }

  /** Entry `k` is `c`, and the last one listed for the slot. */
  predicate LastListed(live: seq<ChannelState>, index: int, k: int, c: ChannelState) {
    0 <= k < |live| && live[k] == c && c.index == index && forall j :: k < j < |live| ==> live[j].index != index
  }

  /** The live channel in a slot is the last one listed for it. */
  lemma {:induction false} SlotExact(live: seq<ChannelState>, index: int, c: ChannelState)
    ensures Slot(live, index) == Some(c) <==> exists k :: LastListed(live, index, k, c)
  {
    if live != [] {
      var n := |live| - 1;
      SlotExact(live[..n], index, c);
      SlotStep(live, index);
      hide *;
      LastListedStep(live, index, n, c);
      if k :| LastListed(live, index, k, c) { LastListedStep(live, index, k, c); }
      if k :| LastListed(live[..n], index, k, c) { LastListedStep(live, index, k, c); }
    } else {
      hide Slot;
    }
  }

  lemma SlotStep(live: seq<ChannelState>, index: int)
    requires live != []
    ensures var last := live[|live| - 1];
            Slot(live, index) == if last.index == index then Some(last) else Slot(live[..|live| - 1], index)
  {
  }

  lemma LastListedStep(live: seq<ChannelState>, index: int, k: int, c: ChannelState)
    requires live != []
    ensures LastListed(live, index, k, c) <==>
      if live[|live| - 1].index == index then k == |live| - 1 && c == live[k]
      else LastListed(live[..|live| - 1], index, k, c)
  {
  }

  function SlotPath(d: ChannelState): string { "channel[" + Decimal(d.index) + "]" }

  function SlotDrift(d: ChannelState, l: Option<ChannelState>): seq<string> {
    match l
    case None => [SlotPath(d)]
    case Some(c) =>
      (if d.name != c.name then [SlotPath(d) + "." + "name"] else [])
      + (if d.pskHash != c.pskHash then [SlotPath(d) + "." + "psk"] else [])
      + (if d.uplink != c.uplink then [SlotPath(d) + "." + "uplinkEnabled"] else [])
      + (if d.downlink != c.downlink then [SlotPath(d) + "." + "downlinkEnabled"] else [])
  }

  function SlotsDrift(desired: seq<ChannelState>, live: seq<ChannelState>): seq<string> {
    if desired == [] then []
    else SlotsDrift(desired[..|desired| - 1], live)
         + SlotDrift(desired[|desired| - 1], Slot(live, desired[|desired| - 1].index))
  }

  function ChannelDrift(desired: seq<ChannelState>, live: seq<ChannelState>): seq<string> {
    SortStrings(SlotsDrift(desired, live))
  }

  method CompareChannels(desired: seq<ChannelState>, live: seq<ChannelState>) returns (paths: seq<string>)
    ensures paths == ChannelDrift(desired, live)
  {
    var liveByIndex: map<int, ChannelState> := map[];
    for i := 0 to |live|
      invariant forall n :: n in liveByIndex <==> Slot(live[..i], n).Some?
      invariant forall n :: n in liveByIndex ==> Slot(live[..i], n) == Some(liveByIndex[n])
    {
      assert live[..i + 1][..i] == live[..i];
      liveByIndex := liveByIndex[live[i].index := live[i]];
    }
    assert live[..|live|] == live;
    paths := [];
    for i := 0 to |desired|
      invariant paths == SlotsDrift(desired[..i], live)
    {
      assert desired[..i + 1][..i] == desired[..i];
      var d := desired[i];
      if d.index !in liveByIndex {
        paths := paths + [SlotPath(d)];
      } else {
        paths := paths + SlotDrift(d, Some(liveByIndex[d.index]));
      }
    }
    assert desired[..|desired|] == desired;
    paths := SortStrings(paths);
  }

  /** No drift means every declared channel sits in its slot, equal in every field. */
  lemma {:induction false} ChannelDriftEmpty(desired: seq<ChannelState>, live: seq<ChannelState>)
    ensures ChannelDrift(desired, live) == [] <==> forall d :: d in desired ==> Slot(live, d.index) == Some(d)
  {
    SlotsDriftEmpty(desired, live);
    assert |ChannelDrift(desired, live)| == |SlotsDrift(desired, live)|;
  }

  lemma {:induction false} SlotsDriftEmpty(desired: seq<ChannelState>, live: seq<ChannelState>)
    ensures SlotsDrift(desired, live) == [] <==> forall d :: d in desired ==> Slot(live, d.index) == Some(d)
  {
    if desired != [] {
      var init, last := desired[..|desired| - 1], desired[|desired| - 1];
      assert desired == init + [last];
      SlotsDriftEmpty(init, live);
      assert SlotDrift(last, Slot(live, last.index)) == [] <==> Slot(live, last.index) == Some(last);
    }
  }

  /** One path is reported for a declared channel: that it is missing, or a field in which
      it differs from the live one. */
  predicate ChannelReport(d: ChannelState, l: Option<ChannelState>, p: string) {
    match l
    case None => p == "channel[" + Decimal(d.index) + "]"
    case Some(c) =>
      || (d.name != c.name && p == "channel[" + Decimal(d.index) + "]." + "name")
      || (d.pskHash != c.pskHash && p == "channel[" + Decimal(d.index) + "]." + "psk")
      || (d.uplink != c.uplink && p == "channel[" + Decimal(d.index) + "]." + "uplinkEnabled")
      || (d.downlink != c.downlink && p == "channel[" + Decimal(d.index) + "]." + "downlinkEnabled")
  }

  /** What is reported of the channels, exactly. */
  lemma ChannelDriftExact(desired: seq<ChannelState>, live: seq<ChannelState>, p: string)
    ensures p in ChannelDrift(desired, live) <==>
              exists d :: d in desired && ChannelReport(d, Slot(live, d.index), p)
  {
    SlotsDriftExact(desired, live, p);
    var s := SlotsDrift(desired, live);
    hide SlotsDrift, ChannelReport;
    assert p in SortStrings(s) <==> p in multiset(SortStrings(s));
    assert p in s <==> p in multiset(s);
  }

  lemma {:induction false} SlotsDriftExact(desired: seq<ChannelState>, live: seq<ChannelState>, p: string)
    ensures p in SlotsDrift(desired, live) <==>
              exists d :: d in desired && ChannelReport(d, Slot(live, d.index), p)
  {
    if desired != [] {
      var init, last := desired[..|desired| - 1], desired[|desired| - 1];
      assert desired == init + [last];
      SlotsDriftExact(init, live, p);
      SlotDriftExact(last, Slot(live, last.index), p);
      hide SlotDrift, ChannelReport, Slot;
    }
  }

  lemma SlotDriftExact(d: ChannelState, l: Option<ChannelState>, p: string)
    ensures p in SlotDrift(d, l) <==> ChannelReport(d, l, p)
  {
    hide Decimal;
    DottedField(d, "name");
    DottedField(d, "psk");
    DottedField(d, "uplinkEnabled");
    DottedField(d, "downlinkEnabled");
    if l.Some? {
      var c, at := l.value, SlotPath(d);
      AnyOf(d.name != c.name, at + "." + "name", d.pskHash != c.pskHash, at + "." + "psk", d.uplink != c.uplink,
            at + "." + "uplinkEnabled", d.downlink != c.downlink, at + "." + "downlinkEnabled", p);
    }
    hide SlotPath;
  }

  lemma DottedField(d: ChannelState, field: string)
    ensures SlotPath(d) + "." + field == "channel[" + Decimal(d.index) + "]." + field
  {
    hide Decimal;
    assert "]." == "]" + ".";
  }

  lemma AnyOf<T>(a: bool, w: T, b: bool, x: T, c: bool, y: T, d: bool, z: T, p: T)
    ensures p in (if a then [w] else []) + (if b then [x] else []) + (if c then [y] else []) + (if d then [z] else [])
       <==> (a && p == w) || (b && p == x) || (c && p == y) || (d && p == z)
  {
  }

  /** The keys a Secret may hold, byte by byte: the public default, short or written out,
      and anything of 16 or 32 bytes. */
  lemma KeysExact(raw: string)
    ensures IsDefaultPsk(raw) <==>
      || raw == ['\U{01}']
      || raw == ['\U{d4}', '\U{f1}', '\U{bb}', '\U{3a}', '\U{20}', '\U{29}', '\U{07}', '\U{59}',
                 '\U{f0}', '\U{bc}', '\U{ff}', '\U{ab}', '\U{cd}', '\U{4e}', '\U{69}', '\U{01}']
    ensures ValidChannelPsk(raw) <==> raw == ['\U{01}'] || |raw| == 16 || |raw| == 32
  {
    assert |EXPANDED_DEFAULT_PSK| == 16;
  }

  /** What a live export's channels are read as: each entry with its hash, that of the
      written-out default read as that of the short one. */
  lemma LiveExact(sha: Sha, exported: Config, c: ChannelState)
    ensures c in LiveChannels(sha, exported) <==>
      && "channels" in exported && exported["channels"].ChannelList?
      && exists e :: e in exported["channels"].list && ReadsAs(sha, e, c)
  {
    if ChannelSetPresent(exported) {
      var list := exported["channels"].list;
      var read := NormalizeLive(sha, list);
      NormalizedExact(sha, list, c);
      hide NormalizeLive, SortByIndex, ReadsAs;
      assert c in SortByIndex(read) <==> c in multiset(SortByIndex(read));
      assert c in read <==> c in multiset(read);
    }
  }

  lemma {:induction false} NormalizedExact(sha: Sha, list: seq<ChannelState>, c: ChannelState)
    ensures c in NormalizeLive(sha, list) <==> exists e :: e in list && ReadsAs(sha, e, c)
  {
    if list != [] {
      NormalizedExact(sha, list[1..], c);
      var first := list[0].(pskHash := NormalizeLivePskHash(sha, list[0].pskHash));
      assert NormalizeLive(sha, list) == [first] + NormalizeLive(sha, list[1..]);
      assert c == first <==> ReadsAs(sha, list[0], c);
      hide NormalizeLive, ReadsAs, NormalizeLivePskHash;
      assert forall e :: e in list <==> e == list[0] || e in list[1..];
    }
  }

  predicate ReadsAs(sha: Sha, e: ChannelState, c: ChannelState) {
    && c.index == e.index && c.name == e.name && c.uplink == e.uplink && c.downlink == e.downlink
    && c.pskHash == if e.pskHash == sha(EXPANDED_DEFAULT_PSK) then sha(['\U{01}']) else e.pskHash
  }

  // ----- The fingerprint of the Secret-backed desired state

  function ChannelLines(c: ChannelState): (r: seq<string>)
    ensures |r| == 5
  {
    [Decimal(c.index), c.name, c.pskHash, Bool(c.uplink), Bool(c.downlink)]
  }

  function AllLines(s: seq<ChannelState>): (r: seq<string>)
    ensures |r| == 5 * |s|
  {
    if s == [] then [] else ChannelLines(s[0]) + AllLines(s[1..])
  }

  /** Each line followed by a newline. */
  function Lines(ls: seq<string>): (r: string)
    ensures r == "" <==> ls == []
  {
    if ls == [] then "" else ls[0] + (['\n'] + Lines(ls[1..]))
  }

  /** What SecretsFingerprint hashes. */
  function FingerprintText(passwordHash: string, chans: seq<ChannelState>): string {
    passwordHash + (['\0'] + Lines(AllLines(SortByIndex(chans))))
  }

  function SecretsFingerprint(sha: Sha, passwordHash: string, chans: seq<ChannelState>): string {
    sha(FingerprintText(passwordHash, chans))
  }

  /** Key hashes hold no newline and are at least `n` long, and a name that holds one is
      at most `n` long. With n = 0 no name holds a newline; with n the length of a digest
      every name up to that length is allowed, newlines and all. */
  predicate LineSafe(s: seq<ChannelState>, n: nat) { forall c :: c in s ==> SafeChannel(c, n) }

  predicate SafeChannel(c: ChannelState, n: nat) {
    '\n' !in c.pskHash && n <= |c.pskHash| && ('\n' in c.name ==> |c.name| <= n)
  }

  /** A separator absent from both heads splits a text in one way only. */
  lemma SplitUnique(a: string, r: string, b: string, s: string, sep: char)
    requires sep !in a && sep !in b
    requires a + ([sep] + r) == b + ([sep] + s)
    ensures a == b && r == s
  {
    var t, u := a + ([sep] + r), b + ([sep] + s);
    assert t[|a|] == sep && u[|b|] == sep;
    assert forall i :: 0 <= i < |a| ==> t[i] == a[i] != sep;
    assert forall i :: 0 <= i < |b| ==> u[i] == b[i] != sep;
    assert |a| == |b|;
    assert a == t[..|a|] && b == u[..|b|];
    assert r == t[|a| + 1..] && s == u[|b| + 1..];
  }

  /** Of two names whose hashes follow them, the shorter one does not end inside the
      longer: the longer one's newline would fall inside the other's hash. */
  lemma NameEnds(x: string, hx: string, rx: string, y: string, hy: string, ry: string, n: nat)
    requires '\n' !in hx && n <= |hx| && ('\n' in y ==> |y| <= n)
    requires x + (['\n'] + (hx + (['\n'] + rx))) == y + (['\n'] + (hy + (['\n'] + ry)))
    ensures |y| <= |x|
  {
    var t := x + (['\n'] + (hx + (['\n'] + rx)));
    assert t[|y|] == '\n' && t[|x|] == '\n';
    assert forall i :: 0 <= i < |y| ==> t[i] == y[i];
    assert forall i :: |x| < i <= |x| + |hx| ==> t[i] == hx[i - |x| - 1] != '\n';
  }

  lemma NameAndHashUnique(c: ChannelState, rx: string, d: ChannelState, ry: string, n: nat)
    requires SafeChannel(c, n) && SafeChannel(d, n)
    requires c.name + (['\n'] + (c.pskHash + (['\n'] + rx))) == d.name + (['\n'] + (d.pskHash + (['\n'] + ry)))
    ensures c.name == d.name && c.pskHash == d.pskHash && rx == ry
  {
    NameEnds(c.name, c.pskHash, rx, d.name, d.pskHash, ry, n);
    NameEnds(d.name, d.pskHash, ry, c.name, c.pskHash, rx, n);
    var t := c.name + (['\n'] + (c.pskHash + (['\n'] + rx)));
    assert c.name == t[..|c.name|] == d.name;
    assert t[|c.name| + 1..] == c.pskHash + (['\n'] + rx);
    assert t[|d.name| + 1..] == d.pskHash + (['\n'] + ry);
    SplitUnique(c.pskHash, rx, d.pskHash, ry, '\n');
  }

  /** The two flags, each on its line. */
  function FlagLines(c: ChannelState): seq<string> { [Bool(c.uplink), Bool(c.downlink)] }

  lemma LinesFirst(l: string, rest: seq<string>)
    ensures Lines([l] + rest) == l + (['\n'] + Lines(rest))
  {
    assert ([l] + rest)[1..] == rest;
  }

  lemma ChannelText(c: ChannelState, rest: seq<string>)
    ensures Lines(ChannelLines(c) + rest)
         == Decimal(c.index) + (['\n'] + (c.name + (['\n'] + (c.pskHash + (['\n'] + Lines(FlagLines(c) + rest))))))
  {
    Regrouped(Decimal(c.index), c.name, c.pskHash, Bool(c.uplink), Bool(c.downlink), rest);
    assert ChannelLines(c) == [Decimal(c.index), c.name, c.pskHash, Bool(c.uplink), Bool(c.downlink)];
    assert FlagLines(c) == [Bool(c.uplink), Bool(c.downlink)];
    hide *;
    ThreeLines(Decimal(c.index), c.name, c.pskHash, FlagLines(c) + rest);
  }

  lemma Regrouped<T>(a: T, b: T, c: T, d: T, e: T, rest: seq<T>)
    ensures [a, b, c, d, e] + rest == [a] + ([b] + ([c] + ([d, e] + rest)))
  {
  }

  lemma ThreeLines(a: string, b: string, c: string, rest: seq<string>)
    ensures Lines([a] + ([b] + ([c] + rest))) == a + (['\n'] + (b + (['\n'] + (c + (['\n'] + Lines(rest))))))
  {
    hide *;
    LinesFirst(a, [b] + ([c] + rest));
    LinesFirst(b, [c] + rest);
    LinesFirst(c, rest);
  }

  lemma FlagText(c: ChannelState, rest: seq<string>)
    ensures Lines(FlagLines(c) + rest)
         == Bool(c.uplink) + (['\n'] + (Bool(c.downlink) + (['\n'] + Lines(rest))))
  {
    assert FlagLines(c) + rest == [Bool(c.uplink)] + ([Bool(c.downlink)] + rest);
    LinesFirst(Bool(c.uplink), [Bool(c.downlink)] + rest);
    LinesFirst(Bool(c.downlink), rest);
  }

  lemma BoolLine(b: bool)
    ensures '\n' !in Bool(b) && |Bool(true)| != |Bool(false)|
  {
  }

  /** A channel's lines can be read back in one way, whatever follows them. */
  lemma ChannelUnique(c: ChannelState, r: seq<string>, d: ChannelState, s: seq<string>, n: nat)
    requires SafeChannel(c, n) && SafeChannel(d, n)
    requires Lines(ChannelLines(c) + r) == Lines(ChannelLines(d) + s)
    ensures c == d && Lines(r) == Lines(s)
  {
    ChannelText(c, r);
    ChannelText(d, s);
    var x, y := Lines(FlagLines(c) + r), Lines(FlagLines(d) + s);
    hide Lines, ChannelLines, SafeChannel, Bool, Decimal;
    DecimalHasNoNewline(c.index);
    DecimalHasNoNewline(d.index);
    SplitUnique(Decimal(c.index), c.name + (['\n'] + (c.pskHash + (['\n'] + x))),
                Decimal(d.index), d.name + (['\n'] + (d.pskHash + (['\n'] + y))), '\n');
    DecimalInjective(c.index, d.index);
    NameAndHashUnique(c, x, d, y, n);
    FlagsUnique(c, r, d, s);
  }

  lemma FlagsUnique(c: ChannelState, r: seq<string>, d: ChannelState, s: seq<string>)
    requires Lines(FlagLines(c) + r) == Lines(FlagLines(d) + s)
    ensures c.uplink == d.uplink && c.downlink == d.downlink && Lines(r) == Lines(s)
  {
    FlagText(c, r);
    FlagText(d, s);
    hide Lines, FlagLines, Bool;
    BoolLine(c.uplink);
    BoolLine(d.uplink);
    BoolLine(c.downlink);
    BoolLine(d.downlink);
    SplitUnique(Bool(c.uplink), Bool(c.downlink) + (['\n'] + Lines(r)),
                Bool(d.uplink), Bool(d.downlink) + (['\n'] + Lines(s)), '\n');
    SplitUnique(Bool(c.downlink), Lines(r), Bool(d.downlink), Lines(s), '\n');
  }

  lemma {:induction false} AllLinesUnique(a: seq<ChannelState>, b: seq<ChannelState>, n: nat)
    requires LineSafe(a, n) && LineSafe(b, n) && Lines(AllLines(a)) == Lines(AllLines(b))
    ensures a == b
  {
    assert AllLines(a) == [] <==> a == [];
    assert AllLines(b) == [] <==> b == [];
    if a != [] {
      hide Lines, ChannelLines;
      assert a[0] in a && b[0] in b;
      ChannelUnique(a[0], AllLines(a[1..]), b[0], AllLines(b[1..]), n);
      AllLinesUnique(a[1..], b[1..], n);
      assert a == [a[0]] + a[1..] && b == [b[0]] + b[1..];
    }
  }

  lemma LineSafePermuted(s: seq<ChannelState>, r: seq<ChannelState>, n: nat)
    requires LineSafe(s, n) && multiset(r) == multiset(s)
    ensures LineSafe(r, n)
  {
    forall c | c in r ensures c in s {
      assert c in multiset(r);
    }
  }

  lemma FingerprintReadable(p: string, a: seq<ChannelState>, q: string, b: seq<ChannelState>, n: nat)
    requires LineSafe(a, n) && LineSafe(b, n) && '\0' !in p && '\0' !in q
    requires FingerprintText(p, a) == FingerprintText(q, b)
    ensures p == q && multiset(a) == multiset(b)
  {
    hide SortByIndex, Lines, AllLines, LineSafe;
    var sa, sb := SortByIndex(a), SortByIndex(b);
    SplitUnique(p, Lines(AllLines(sa)), q, Lines(AllLines(sb)), '\0');
    LineSafePermuted(a, sa, n);
    LineSafePermuted(b, sb, n);
    AllLinesUnique(sa, sb, n);
  }

  lemma IndexSeparates(s: seq<ChannelState>, r: seq<ChannelState>)
    requires DistinctIndices(s) && multiset(r) == multiset(s)
    ensures Separates(IndexLe, r)
  {
    forall i, j | 0 <= i < |s| && 0 <= j < |s| && IndexLe(s[i], s[j]) && IndexLe(s[j], s[i]) ensures s[i] == s[j] {
      assert i == j || i < j || j < i;
    }
    SeparatesPermuted(IndexLe, s, r);
  }

  /** Sorting by distinct indices forgets the declaration order. */
  lemma SortByIndexCanonical(a: seq<ChannelState>, b: seq<ChannelState>)
    requires DistinctIndices(a) && multiset(a) == multiset(b)
    ensures SortByIndex(a) == SortByIndex(b)
  {
    IndexSeparates(a, SortByIndex(a));
    SortedUnique(IndexLe, SortByIndex(a), SortByIndex(b));
  }

  predicate Ascending(list: seq<ChannelState>) {
    forall i, j :: 0 <= i < j < |list| ==> list[i].index < list[j].index
  }

  lemma SortByIndexAscending(list: seq<ChannelState>)
    requires Ascending(list)
    ensures SortByIndex(list) == list && DistinctIndices(list)
  {
    IndexSeparates(list, list);
    SortedUnique(IndexLe, list, SortByIndex(list));
  }

  /** The hashed text is independent of the order channels are declared in, and is
      uniquely readable: the fingerprint tells apart exactly the password hash and
      the channel set. */
  lemma FingerprintFaithful(sha: Sha, p: string, a: seq<ChannelState>, q: string, b: seq<ChannelState>, n: nat)
    requires DistinctIndices(a) && DistinctIndices(b) && LineSafe(a, n) && LineSafe(b, n)
    requires '\0' !in p && '\0' !in q
    requires sha(FingerprintText(p, a)) == sha(FingerprintText(q, b)) ==> FingerprintText(p, a) == FingerprintText(q, b)
    ensures SecretsFingerprint(sha, p, a) == SecretsFingerprint(sha, q, b) <==> p == q && multiset(a) == multiset(b)
  {
    hide SortByIndex, Lines, AllLines, LineSafe;
    if SecretsFingerprint(sha, p, a) == SecretsFingerprint(sha, q, b) {
      FingerprintReadable(p, a, q, b, n);
    }
    if multiset(a) == multiset(b) {
      SortByIndexCanonical(a, b);
    }
  }
}
