/** Lowering a communication intent to node specs (internal/intent/compile.go), and what
  a device reported Ready for such a spec was seen to hold. */
module Intent {
  import opened Text
  import opened ConfigTree
  import opened ConfigDrift
  import opened Channels
  import opened Reconcile
  import opened Airtime
  import opened Desired

  datatype NodeTarget = NodeTarget(name: string, connection: string, owner: Option<Owner>)

  datatype Traffic = Traffic(messagesPerMinutePerNode: int, payloadBytes: int)

  datatype IntentSpec = IntentSpec(region: string, approvedPresets: seq<string>, role: string,
                                   channels: seq<ChannelSpec>, traffic: Option<Traffic>, nodes: seq<NodeTarget>)

  datatype ProposedNode = ProposedNode(name: string, spec: NodeSpec)

  datatype CompileReason = Renderable | NoTargetNodes | DuplicateNode | NoApprovedSet | UnknownPreset

  datatype AirtimeReason = WithinBudget | OverBudget | NotEvaluated

  datatype AirtimeResult = AirtimeResult(evaluated: bool, withinBudget: bool, predictedPercent: int,
                                         reason: AirtimeReason)

  datatype CompileResult = CompileResult(feasible: bool, reason: CompileReason, selectedPreset: string,
                                         proposed: seq<ProposedNode>, airtime: AirtimeResult)

  const UNEVALUATED := AirtimeResult(false, false, 0, NotEvaluated)

  function Infeasible(reason: CompileReason): CompileResult {
    CompileResult(false, reason, "", [], AirtimeResult(false, false, 0, NotEvaluated))
  }

  predicate DistinctNames(nodes: seq<NodeTarget>) {
    forall i, j :: 0 <= i < j < |nodes| ==> nodes[i].name != nodes[j].name
  }

  predicate Known(preset: string) { PresetTimeOnAir(preset, 1).Some? }

  /** The approved preset at `k` is known, and none before it is. */
  predicate FirstKnown(approved: seq<string>, k: int) {
    0 <= k < |approved| && Known(approved[k]) && forall j :: 0 <= j < k ==> !Known(approved[j])
  }

  function Render(spec: IntentSpec, preset: string, n: NodeTarget): ProposedNode {
    ProposedNode(n.name, NodeSpec(n.connection, spec.region, preset, spec.role, n.owner, spec.channels, None))
  }

  /** Half away from zero, as math.Round on a percentage that is never negative. */
  function Round(x: real): int { (x + 0.5).Floor }

  function EffectivePayload(t: Traffic): int {
    if t.payloadBytes <= 0 then REPRESENTATIVE_FRAME_PAYLOAD_BYTES else t.payloadBytes
  }

  function EvaluateAirtime(traffic: Option<Traffic>, preset: string, nodeCount: int): AirtimeResult {
    match traffic
    case None => UNEVALUATED
    case Some(t) =>
      if t.messagesPerMinutePerNode <= 0 then UNEVALUATED
      else
        match FleetChannelUtilizationPercent(preset, nodeCount, t.messagesPerMinutePerNode, EffectivePayload(t))
        case None => UNEVALUATED
        case Some(percent) =>
          var within := WithinChannelBudget(percent);
          AirtimeResult(true, within, Round(percent), if within then WithinBudget else OverBudget)
  }

  /** Which verdict is given, and what is rendered, for every intent. */
  method Compile(spec: IntentSpec) returns (r: CompileResult)
    ensures r.feasible <==>
              spec.nodes != [] && DistinctNames(spec.nodes) && exists k :: FirstKnown(spec.approvedPresets, k)
    ensures r.feasible ==>
      && r.reason == Renderable
      && (exists k :: FirstKnown(spec.approvedPresets, k) && r.selectedPreset == spec.approvedPresets[k])
      && |r.proposed| == |spec.nodes|
      && (forall i :: 0 <= i < |spec.nodes| ==>
            var n := spec.nodes[i];
            r.proposed[i] == ProposedNode(n.name, NodeSpec(n.connection, spec.region, r.selectedPreset, spec.role,
                                                           n.owner, spec.channels, None)))
      && r.airtime == EvaluateAirtime(spec.traffic, r.selectedPreset, |spec.nodes|)
    ensures !r.feasible ==> r == Infeasible(
      if spec.nodes == [] then NoTargetNodes
      else if !DistinctNames(spec.nodes) then DuplicateNode
      else if spec.approvedPresets == [] then NoApprovedSet
      else UnknownPreset)
  {
    hide Known, EvaluateAirtime;
    if |spec.nodes| == 0 {
      return Infeasible(NoTargetNodes);
    }
    var duplicate := HasDuplicate(spec.nodes);
    if duplicate {
      return Infeasible(DuplicateNode);
    }
    if |spec.approvedPresets| == 0 {
      assert forall k :: !FirstKnown(spec.approvedPresets, k);
      return Infeasible(NoApprovedSet);
    }
    var selected := SelectPreset(spec.approvedPresets);
    if selected == "" {
      return Infeasible(UnknownPreset);
    }
    var proposed: seq<ProposedNode> := [];
    for i := 0 to |spec.nodes|
      invariant |proposed| == i
      invariant forall j :: 0 <= j < i ==> proposed[j] == Render(spec, selected, spec.nodes[j])
    {
      proposed := proposed + [Render(spec, selected, spec.nodes[i])];
    }
    r := CompileResult(true, Renderable, selected, proposed, EvaluateAirtime(spec.traffic, selected, |proposed|));
  }

  method HasDuplicate(nodes: seq<NodeTarget>) returns (found: bool)
    ensures found <==> !DistinctNames(nodes)
  {
    var seen: set<string> := {};
    for i := 0 to |nodes|
      invariant DistinctNames(nodes[..i])
      invariant forall s :: s in seen <==> exists j :: 0 <= j < i && nodes[j].name == s
    {
      if nodes[i].name in seen {
        return true;
      }
      seen := seen + {nodes[i].name};
    }
    assert nodes[..|nodes|] == nodes;
    return false;
  }

  method SelectPreset(approved: seq<string>) returns (selected: string)
    ensures selected != "" ==> exists k :: FirstKnown(approved, k) && selected == approved[k]
    ensures selected == "" ==> !exists k :: FirstKnown(approved, k)
  {
    EmptyUnknown();
    hide Known;
    selected := "";
    for i := 0 to |approved|
      invariant selected == "" && forall j :: 0 <= j < i ==> !Known(approved[j])
    {
      if Known(approved[i]) {
        selected := approved[i];
        assert FirstKnown(approved, i);
        break;
      }
    }
  }

  lemma EmptyUnknown()
    ensures !Known("")
  {
  }

  // ----- Airtime verdicts

  /** The verdict in whole numbers: the fleet is within budget exactly when its frames,
      header included, take at most a quarter of a minute, and the percentage reported is
      the nearest to what they take, halves rounded up. */
  lemma AirtimeExact(t: Traffic, preset: string, nodes: int)
    requires Known(preset) && t.messagesPerMinutePerNode > 0 && nodes > 0
    ensures var payload := if t.payloadBytes <= 0 then 40 else t.payloadBytes;
      var r, toa := EvaluateAirtime(Some(t), preset, nodes), PresetTimeOnAir(preset, payload + 16);
      && toa.Some? && r.evaluated
      && var airtime := nodes * t.messagesPerMinutePerNode * toa.value;
         && (r.withinBudget <==> 4 * airtime <= 60000000000)
         && r.reason == (if r.withinBudget then WithinBudget else OverBudget)
         && (2 * r.predictedPercent - 1) * 60000000000 <= 200 * airtime < (2 * r.predictedPercent + 1) * 60000000000
  {
    var payload := if t.payloadBytes <= 0 then 40 else t.payloadBytes;
    var toa := PresetTimeOnAir(preset, payload + 16).value;
    LoadExact(nodes, t.messagesPerMinutePerNode, toa);
    hide PresetTimeOnAir, Load;
    var airtime := nodes * t.messagesPerMinutePerNode * toa;
    Rounded(Load(nodes, t.messagesPerMinutePerNode, toa), airtime);
  }

  lemma Rounded(percent: real, airtime: int)
    requires percent * 60000000000.0 == airtime as real * 100.0
    ensures WithinChannelBudget(percent) <==> 4 * airtime <= 60000000000
    ensures var p := Round(percent);
            (2 * p - 1) * 60000000000 <= 200 * airtime < (2 * p + 1) * 60000000000
  {
    var p := Round(percent);
    assert p as real <= percent + 0.5 < p as real + 1.0;
    assert (2 * p - 1) as real * 60000000000.0 <= 2.0 * percent * 60000000000.0;
  }

  /** No traffic declared, none that makes sense, or a preset nobody knows: no verdict. */
  lemma NotEvaluatedExact(traffic: Option<Traffic>, preset: string, nodes: int)
    ensures EvaluateAirtime(traffic, preset, nodes) == AirtimeResult(false, false, 0, NotEvaluated)
        <==> traffic.None? || traffic.value.messagesPerMinutePerNode <= 0 || !Known(preset)
  {
    if traffic.Some? {
      KnownForAll(preset, EffectivePayload(traffic.value) + 16);
      hide FrameTime, Load;
    }
  }

  lemma KnownForAll(preset: string, bytes: int)
    ensures Known(preset) <==> PresetTimeOnAir(preset, bytes).Some?
  {
    hide FrameTime;
  }

  /** An over-budget verdict is authoritative: no growth of the fleet, of its message
      rate or of a declared payload takes it back. */
  lemma OverBudgetStays(preset: string, t: Traffic, nodes: int, t': Traffic, nodes': int)
    requires nodes <= nodes' && t.messagesPerMinutePerNode <= t'.messagesPerMinutePerNode
    requires 0 < t.payloadBytes <= t'.payloadBytes
    requires EvaluateAirtime(Some(t), preset, nodes).reason == OverBudget
    ensures EvaluateAirtime(Some(t'), preset, nodes').reason == OverBudget
    ensures EvaluateAirtime(Some(t'), preset, nodes').predictedPercent
          >= EvaluateAirtime(Some(t), preset, nodes).predictedPercent
  {
    FleetMonotone(preset, nodes, t.messagesPerMinutePerNode, t.payloadBytes, nodes', t'.messagesPerMinutePerNode,
        t'.payloadBytes);
    hide FleetChannelUtilizationPercent;
  }

  /** A faster preset never turns a fitting fleet into one over budget. */
  lemma FasterPresetFits(i: nat, j: nat, t: Traffic, nodes: int)
    requires i <= j < 8
    requires EvaluateAirtime(Some(t), BY_SPEED[j], nodes).reason == WithinBudget
    ensures EvaluateAirtime(Some(t), BY_SPEED[i], nodes).reason == WithinBudget
  {
    var bytes, rate := PhyBytes(EffectivePayload(t)), t.messagesPerMinutePerNode;
    if i < j {
      PresetsOrdered(bytes, i, j);
      PresetsValid();
      hide PRESETS, TimeOnAir, Load, BY_SPEED;
      var a, b := PresetTimeOnAir(BY_SPEED[i], bytes).value, PresetTimeOnAir(BY_SPEED[j], bytes).value;
      TimeOnAirMonotone(PRESETS[BY_SPEED[i]], bytes, bytes, PREAMBLE, true, true);
      if nodes > 0 && rate > 0 { LoadMonotone(nodes, rate, a, nodes, rate, b); }
    }
  }

  // ----- Intent to radio

  /** End to end: when a device is reported Ready for a node rendered from a feasible
      intent, its export holds the intent's region and the first known approved preset,
      and every declared channel sits in its slot with its name, key hash and flags. */
  lemma IntentReachesRadio(sha: Sha, spec: IntentSpec, k: int, n: NodeTarget, store: SecretStore,
                           prior: State, a: Answers, drift: seq<string>, r: StepResult)
    requires FirstKnown(spec.approvedPresets, k) && spec.region != ""
    requires ResolveChannels(sha, spec.channels, store).Accepted?
    requires r == Step(sha, DesiredConfig(Render(spec, spec.approvedPresets[k], n).spec, "", ""),
                       ResolveChannels(sha, spec.channels, store).chans, prior, a, drift)
    requires r.Stepped? && r.outcome.ready
    requires a.exported.Answer? ==>
      DriftVerdict(ForComparison(DesiredConfig(Render(spec, spec.approvedPresets[k], n).spec, "", "")),
          a.exported.value, drift)
    ensures a.exported.Answer?
    ensures Holds(a.exported.value, LORA + ["region"], spec.region)
    ensures IsName(spec.region) ==> HoldsName(a.exported.value, LORA + ["region"], spec.region)
    ensures HoldsName(a.exported.value, LORA + ["modemPreset"], spec.approvedPresets[k])
    ensures var node := Render(spec, spec.approvedPresets[k], n).spec;
            forall path, text :: path != [] && Declared(node, "", "", path) == Some(text) ==>
              Holds(a.exported.value, path, text)
    ensures forall c :: c in spec.channels ==>
      Slot(LiveChannels(sha, a.exported.value), c.index)
        == Some(ChannelState(c.index, c.name, PskHash(sha, KeyOf(c, store)), c.uplink, c.downlink))
  {
    var node := Render(spec, spec.approvedPresets[k], n).spec;
    var chans := ResolveChannels(sha, spec.channels, store).chans;
    var preset := spec.approvedPresets[k];
    assert node.region == spec.region && node.modemPreset == preset && Known(preset);
    hide *;
    ReadyMeansSeen(sha, DesiredConfig(node, "", ""), chans, prior, a, drift, r);
    KnownIsName(preset);
    RadioSeen(node, a.exported.value);
    DeclaredIsHeld(node, "", "", a.exported.value);
    ChannelsSeen(sha, spec.channels, store, LiveChannels(sha, a.exported.value));
    if IsName(spec.region) { NameHeld(a.exported.value, LORA + ["region"], spec.region); }
    NameHeld(a.exported.value, LORA + ["modemPreset"], preset);
  }

  lemma KnownIsName(preset: string)
    requires Known(preset)
    ensures preset != "" && IsName(preset)
  {
    PresetNames();
    hide IsName, FrameTime;
  }

  lemma PresetNames()
    ensures forall name :: name in PRESETS ==> name != "" && IsName(name)
  {
    ShortNames();
    OtherNames();
    hide IsName;
  }

  lemma ShortNames()
    ensures IsName("SHORT_TURBO") && IsName("SHORT_FAST") && IsName("SHORT_SLOW")
  {
  }

  lemma OtherNames()
    ensures IsName("MEDIUM_FAST") && IsName("MEDIUM_SLOW")
    ensures IsName("LONG_FAST") && IsName("LONG_MODERATE") && IsName("LONG_SLOW")
  {
  }

  lemma RadioSeen(node: NodeSpec, live: Config)
    requires Covered(ForComparison(DesiredConfig(node, "", "")), live)
    ensures node.region != "" ==> Holds(live, LORA + ["region"], node.region)
    ensures node.modemPreset != "" ==> Holds(live, LORA + ["modemPreset"], node.modemPreset)
  {
    hide DesiredConfig, ForComparison, Covered, Holds, At;
    RadioDeclared(node, "", "");
    var d := ForComparison(DesiredConfig(node, "", ""));
    if node.region != "" { CoveredHolds(d, live, LORA + ["region"], node.region); }
    if node.modemPreset != "" { CoveredHolds(d, live, LORA + ["modemPreset"], node.modemPreset); }
  }

  lemma ChannelsSeen(sha: Sha, channels: seq<ChannelSpec>, store: SecretStore, live: seq<ChannelState>)
    requires ResolveChannels(sha, channels, store).Accepted?
    requires forall d :: d in ResolveChannels(sha, channels, store).chans.compare ==> Slot(live, d.index) == Some(d)
    ensures forall c :: c in channels ==>
      Slot(live, c.index) == Some(ChannelState(c.index, c.name, PskHash(sha, KeyOf(c, store)), c.uplink, c.downlink))
  {
    hide ResolveChannels, Slot, KeyOf, PskHash, ResolveKey;
    ResolvedChannels(sha, channels, store);
    var chans := ResolveChannels(sha, channels, store).chans;
    forall c | c in channels ensures
      Slot(live, c.index) == Some(ChannelState(c.index, c.name, PskHash(sha, KeyOf(c, store)), c.uplink, c.downlink))
    {
      var i :| 0 <= i < |channels| && channels[i] == c;
      ComparedIs(sha, c, store);
      assert chans.compare[i] in chans.compare;
    }
  }

  /** The key a channel is meant to carry: its Secret's bytes, or the public default. */
  function KeyOf(c: ChannelSpec, store: SecretStore): string {
    if c.psk.Some? && store(c.psk.value).Some? && store(c.psk.value).value.Some?
    then store(c.psk.value).value.value else DEFAULT_PSK
  }

  lemma ComparedIs(sha: Sha, c: ChannelSpec, store: SecretStore)
    requires ResolveKey(c, store).Key?
    ensures Compared(sha, c, ResolveKey(c, store).key)
         == ChannelState(c.index, c.name, PskHash(sha, KeyOf(c, store)), c.uplink, c.downlink)
  {
    assert NormalizePsk(EXPANDED_DEFAULT_PSK) == NormalizePsk(DEFAULT_PSK);
  }
}
