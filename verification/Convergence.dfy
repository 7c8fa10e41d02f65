/** Whole runs of the convergence loop against the repository's device model: when it
  reaches Ready, in how many steps and writes, and when it never does. */
module Convergence {
  import opened Text
  import opened ConfigTree
  import opened ConfigDrift
  import opened ConfigMerge
  import opened Channels
  import opened Device
  import opened Reconcile

  // ----- The device model under the calls of a step

  ghost function Perform(sha: Sha, f: FakeState, c: Call): FakeState {
    match c
    case ExportCall => AfterExport(f)
    case InfoCall => Ticked(f)
    case ApplyCall(desired) => AfterApply(f, desired)
    case ApplyChannelsCall(writes) => AfterApplyChannels(sha, f, writes)
    case RebootCall => AfterReboot(f)
  }

  ghost function PerformAll(sha: Sha, f: FakeState, calls: seq<Call>): FakeState {
    if calls == [] then f else Perform(sha, PerformAll(sha, f, calls[..|calls| - 1]), calls[|calls| - 1])
  }

  /** The answers the model has ready for one step. */
  function FakeAnswers(f: FakeState): Answers {
    var f1 := AfterExport(f);
    var f2 := if ExportedNodeId(Exported(f.config)) == "" then Ticked(f1) else f1;
    Answers(Reached(f, Exported(f.config)), Reached(f1, f.nodeId), Reached(f2, ()),
            Reached(f.(unreachableFor := f.rebootWindow), ()))
  }

  /** A reply to one call. */
  datatype Heard = ConfigHeard(config: Reply<Config>) | IdHeard(id: Reply<string>) | DoneHeard(done: Reply<()>)

  /** What the model in state `f` replies to call `c`. */
  function FakeReply(f: FakeState, c: Call): Heard {
    match c
    case ExportCall => ConfigHeard(Reached(f, Exported(f.config)))
    case InfoCall => IdHeard(Reached(f, f.nodeId))
    case _ => DoneHeard(Reached(f, ()))
  }

  /** What `a` has ready for call `c`. */
  function AnswerTo(c: Call, a: Answers): Heard {
    match c
    case ExportCall => ConfigHeard(a.exported)
    case InfoCall => IdHeard(a.info)
    case RebootCall => DoneHeard(a.reboot)
    case _ => DoneHeard(a.write)
  }

  /** What one run of the loop is after: the declared tree and channels. Where live keys
      collide Go's map order decides what Drift says, so what it said of the k-th export
      is part of the run. */
  datatype Goal = Goal(sha: Sha, desired: Config, chans: DesiredChannels, drift: (nat, Config) -> seq<string>)

  /** Whatever Drift is taken to have said, it may have said. */
  ghost predicate HonestDrift(g: Goal) {
    forall k: nat, l: Config :: DriftVerdict(ForComparison(g.desired), l, g.drift(k, l))
  }

  /** The device, and what the loop remembers of the last step. */
  datatype World = World(device: FakeState, prior: State)

  ghost function DriftSeen(g: Goal, w: World): seq<string> {
    g.drift(w.device.exports, Exported(w.device.config))
  }

  ghost function CallsMade(g: Goal, w: World): seq<Call> {
    Calls(g.sha, g.desired, g.chans, w.prior, FakeAnswers(w.device), DriftSeen(g, w))
  }

  ghost function Result(g: Goal, w: World): StepResult {
    Step(g.sha, g.desired, g.chans, w.prior, FakeAnswers(w.device), DriftSeen(g, w))
  }

  ghost function Next(g: Goal, w: World): World {
    var r := Result(g, w);
    World(PerformAll(g.sha, w.device, CallsMade(g, w)), if r.Stepped? then NextState(r.outcome) else w.prior)
  }

  ghost function After(g: Goal, w: World, n: nat): World
    decreases n
  {
    if n == 0 then w else After(g, Next(g, w), n - 1)
  }

  ghost predicate ReadyAt(g: Goal, w: World, n: nat) {
    var r := Result(g, After(g, w, n));
    r.Stepped? && r.outcome.ready
  }

  // ----- Hypotheses on the setup

  /** The channels to write are those compared, each keyed so that the device will
      store the hash that is compared. */
  predicate Coherent(sha: Sha, chans: DesiredChannels) {
    && |chans.compare| == |chans.write|
    && DistinctWrites(chans.write)
    && forall i :: 0 <= i < |chans.write| ==>
         chans.compare[i] == Readback(sha, StoredChannel(sha, chans.write[i]))
  }

  function Readback(sha: Sha, c: ChannelState): ChannelState {
    c.(pskHash := NormalizeLivePskHash(sha, c.pskHash))
  }

  /** No top-level key of the declared tree is a spelling of the channel list. */
  predicate NamesNoChannels(desired: Config) { forall k :: k in desired ==> NormKey(k) != NormKey("channels") }

  /** The channels written are read back as compared, the channel list is the device's own
      and the device has an identity. */
  ghost predicate Coupled(g: Goal, w: World) {
    && Coherent(g.sha, g.chans) && NamesNoChannels(g.desired) && w.device.nodeId != ""
    && ("channels" in w.device.config ==> w.device.config["channels"].ChannelList?)
  }

  ghost predicate ScalarsHeld(g: Goal, w: World) {
    && MayBeClean(ForComparison(g.desired), Exported(w.device.config))
    && !WriteOnlyDrift(g.sha, g.desired, w.prior)
  }

  /** The comparison does not hang on the order colliding keys are ranged over: not now if
      the declared tree is held, and not after it is written if it is not. */
  ghost predicate Decisive(g: Goal, w: World) {
    AlwaysClean(ForComparison(g.desired),
                Exported(if ScalarsHeld(g, w) then w.device.config else Merge(w.device.config, g.desired)))
  }

  /** Without colliding keys it never does. */
  lemma UnambiguousIsDecisive(g: Goal, w: World)
    requires Unambiguous(Exported(w.device.config)) && Unambiguous(Exported(Merge(w.device.config, g.desired)))
    ensures Decisive(g, w)
  {
    var config := w.device.config;
    var d, e, e' := ForComparison(g.desired), Exported(config), Exported(Merge(config, g.desired));
    ExportCovers(config, g.desired);
    hide ForComparison, Exported, Merge, AlwaysClean, SurelyCovered, Covered, Unambiguous, WriteOnlyDrift, MayBeClean;
    CoveredIsSure(d, e');
    CleanIsSure(d, e');
    if MayBeClean(d, e) {
      MaybeIsCovered(d, e);
      CoveredIsSure(d, e);
      CleanIsSure(d, e);
    }
  }

  ghost predicate Sound(g: Goal, w: World) { Coupled(g, w) && Decisive(g, w) && HonestDrift(g) }

  ghost predicate ChannelsHeld(g: Goal, w: World) {
    forall c :: c in g.chans.compare ==> Slot(LiveChannels(g.sha, Exported(w.device.config)), c.index) == Some(c)
  }

  /** How many writes the device still needs. */
  ghost function Need(g: Goal, w: World): nat {
    (if ScalarsHeld(g, w) then 0 else 1) + (if ChannelsHeld(g, w) then 0 else 1)
  }

  // ----- One step

  lemma StepUnreachable(g: Goal, w: World)
    requires w.device.unreachableFor > 0
    ensures Result(g, w) == Stepped(UnreachableOutcome(w.prior))
    ensures Next(g, w) == World(AfterExport(w.device), w.prior)
  {
    hide Decide, Exported, ForComparison;
    var a := FakeAnswers(w.device);
    assert a.exported == Error(Unreachable);
    assert ActionOf(g.sha, g.desired, g.chans, w.prior, a, DriftSeen(g, w)) == NoContact;
    assert CallsMade(g, w) == [ExportCall];
    PerformOne(g.sha, w.device, ExportCall);
  }

  lemma PerformOne(sha: Sha, f: FakeState, c: Call)
    ensures PerformAll(sha, f, [c]) == Perform(sha, f, c)
  {
    assert [c][..0] == [];
  }

  lemma ReachableDecision(g: Goal, w: World)
    requires Sound(g, w)
    ensures Decide(g.sha, g.desired, g.chans, w.prior, Exported(w.device.config), DriftSeen(g, w)) ==
      if ScalarsHeld(g, w) && ChannelsHeld(g, w) then ReportReady
      else if w.prior.applyAttempts >= MAX_APPLY_ATTEMPTS then GiveUp
      else if !ScalarsHeld(g, w) then WriteConfig
      else WriteChannels
  {
    VerdictDecided(g, w);
    ExportedChannels(w.device.config);
    hide LiveChannels, ChannelDrift, Covered, ForComparison, Slot, WriteOnlyPasswordHash, Merge, Exported,
         DriftSeen, Decisive, HonestDrift, Coherent, Decide, NamesNoChannels;
    ChannelDriftEmpty(g.chans.compare, LiveChannels(g.sha, Exported(w.device.config)));
    DecisionOf(g.sha, g.desired, g.chans, w.prior, Exported(w.device.config), DriftSeen(g, w));
  }

  /** What a step does about an export that carries a channel set. */
  lemma DecisionOf(sha: Sha, desired: Config, chans: DesiredChannels, prior: State, live: Config, drift: seq<string>)
    requires ChannelSetPresent(live)
    ensures var scalars := drift == [] && !WriteOnlyDrift(sha, desired, prior);
            var channels := ChannelDrift(chans.compare, LiveChannels(sha, live)) == [];
            Decide(sha, desired, chans, prior, live, drift) ==
              if scalars && channels then ReportReady
              else if prior.applyAttempts >= MAX_APPLY_ATTEMPTS then GiveUp
              else if !scalars then WriteConfig
              else WriteChannels
  {
    hide LiveChannels, ChannelDrift, WriteOnlyPasswordHash, ChannelSetPresent;
  }

  lemma VerdictDecided(g: Goal, w: World)
    requires HonestDrift(g) && Decisive(g, w)
    ensures DriftSeen(g, w) == [] && !WriteOnlyDrift(g.sha, g.desired, w.prior) <==> ScalarsHeld(g, w)
  {
    var d, e := ForComparison(g.desired), Exported(w.device.config);
    hide DriftVerdict, AlwaysClean, MayBeClean, ForComparison, Exported, Merge, WriteOnlyDrift, Covered, Unambiguous;
    assert DriftVerdict(d, e, DriftSeen(g, w));
    VerdictMeans(d, e, DriftSeen(g, w));
  }

  lemma ExportedChannels(config: Config)
    requires "channels" in config ==> config["channels"].ChannelList?
    ensures ChannelSetPresent(Exported(config))
    ensures Exported(config)["channels"] == if "channels" in config then config["channels"] else ChannelList([])
  {
    assert "channels" != "module_config" by { assert |"channels"| != |"module_config"|; }
  }

  /** A reachable model loses nothing between the export and the write: a step leaves
      the world that its decision calls for. */
  lemma StepReachable(g: Goal, w: World, action: Action)
    requires w.device.unreachableFor == 0 && w.device.nodeId != "" && !action.NoContact?
    requires action == Decide(g.sha, g.desired, g.chans, w.prior, Exported(w.device.config), DriftSeen(g, w))
    ensures Result(g, w).Stepped? && (Result(g, w).outcome.ready <==> action.ReportReady?)
    ensures Result(g, w).outcome.degraded <==> action.GiveUp?
    ensures Next(g, w) == World(WrittenDevice(g, w.device, action), PriorAfter(g, w.prior, action))
  {
    hide Decide, Exported, ForComparison, ExportedNodeId, SeenResult, Merge, StoreChannels, PriorAfter, WrittenDevice;
    var f, live := w.device, Exported(w.device.config);
    var a := FakeAnswers(f);
    var id := if ExportedNodeId(live) != "" then ExportedNodeId(live) else f.nodeId;
    assert Identity(live, a.info) == Answer(id);
    var info := if ExportedNodeId(live) == "" then [InfoCall] else [];
    assert CallsMade(g, w) == [ExportCall] + info + WriteCalls(g.desired, g.chans, a, action);
    var s := Sight(live, id, DriftSeen(g, w));
    assert Result(g, w) == SeenResult(g.sha, g.desired, g.chans, w.prior, s, Answer(()), action);
    SeenPrior(g, w.prior, s, action);
    PerformInfo(g.sha, f, info);
    PerformWrite(g, f, a, action, [ExportCall] + info);
  }

  ghost function PriorAfter(g: Goal, prior: State, action: Action): State {
    match action
    case ReportReady => State(false, 0, WriteOnlyPasswordHash(g.sha, g.desired))
    case WriteConfig => State(true, prior.applyAttempts + 1, WriteOnlyPasswordHash(g.sha, g.desired))
    case WriteChannels => State(true, prior.applyAttempts + 1, prior.passwordHash)
    case _ => State(false, prior.applyAttempts, prior.passwordHash)
  }

  lemma SeenPrior(g: Goal, prior: State, s: Sight, action: Action)
    requires s.id != "" && !action.NoContact?
    ensures var r := SeenResult(g.sha, g.desired, g.chans, prior, s, Answer(()), action);
            && r.Stepped? && (r.outcome.ready <==> action.ReportReady?) && (r.outcome.degraded <==> action.GiveUp?)
            && NextState(r.outcome) == PriorAfter(g, prior, action)
  {
    hide LiveChannels, AllDrift, ChannelsUnknown, WriteOnlyPasswordHash;
  }

  /** The device after a step that decided on `action`. */
  ghost function WrittenDevice(g: Goal, f: FakeState, action: Action): FakeState {
    var f1 := AfterExport(f);
    match action
    case WriteConfig => AfterReboot(AfterApply(f1, g.desired))
    case WriteChannels => AfterReboot(AfterApplyChannels(g.sha, f1, g.chans.write))
    case _ => f1
  }

  lemma PerformInfo(sha: Sha, f: FakeState, info: seq<Call>)
    requires f.unreachableFor == 0 && (info == [] || info == [InfoCall])
    ensures PerformAll(sha, f, [ExportCall] + info) == AfterExport(f)
  {
    assert [ExportCall][..0] == [];
    assert PerformAll(sha, f, [ExportCall]) == AfterExport(f);
    if info != [] {
      assert ([ExportCall] + info)[..1] == [ExportCall];
    } else {
      assert [ExportCall] + info == [ExportCall];
    }
  }

  lemma PerformWrite(g: Goal, f: FakeState, a: Answers, action: Action, before: seq<Call>)
    requires a.write.Answer? && PerformAll(g.sha, f, before) == AfterExport(f)
    ensures PerformAll(g.sha, f, before + WriteCalls(g.desired, g.chans, a, action)) == WrittenDevice(g, f, action)
  {
    hide AfterApply, AfterApplyChannels, AfterReboot;
    var calls := WriteCalls(g.desired, g.chans, a, action);
    if Writes(action) {
      assert (before + calls)[..|before| + 1] == before + [calls[0]];
      assert (before + [calls[0]])[..|before|] == before;
    } else {
      assert before + calls == before;
    }
  }

  // ----- What a write does to what is held

  lemma ApplyHolds(g: Goal, w: World, w': World)
    requires Coupled(g, w)
    requires w'.device.config == Merge(w.device.config, g.desired) && w'.device.nodeId == w.device.nodeId
    requires w'.prior.passwordHash == WriteOnlyPasswordHash(g.sha, g.desired)
    ensures Coupled(g, w') && (ChannelsHeld(g, w') <==> ChannelsHeld(g, w))
    ensures Covered(ForComparison(g.desired), Exported(w'.device.config))
    ensures Unambiguous(ForComparison(g.desired)) ==> ScalarsHeld(g, w')
    ensures Decisive(g, w) && !ScalarsHeld(g, w) ==> Decisive(g, w') && ScalarsHeld(g, w')
  {
    ApplyKeepsChannels(g, w, w');
    var d, e := ForComparison(g.desired), Exported(w'.device.config);
    hide AlwaysClean, MayBeClean, Unambiguous, Covered, ForComparison, Merge, WriteOnlyPasswordHash, Exported, Coupled,
         ChannelsHeld;
    ExportCovers(w.device.config, g.desired);
    if Unambiguous(d) { CoveredIsMaybe(d, e); }
    CleanIsMaybe(d, e);
  }

  lemma ApplyKeepsChannels(g: Goal, w: World, w': World)
    requires Coupled(g, w)
    requires w'.device.config == Merge(w.device.config, g.desired) && w'.device.nodeId == w.device.nodeId
    ensures Coupled(g, w') && (ChannelsHeld(g, w') <==> ChannelsHeld(g, w))
  {
    var config := w.device.config;
    MergeKeepsChannels(config, g.desired);
    ExportedChannels(config);
    ExportedChannels(w'.device.config);
    assert LiveChannels(g.sha, Exported(config)) == LiveChannels(g.sha, Exported(w'.device.config)) by {
      hide NormalizeLive, SortByIndex, Exported, Merge;
    }
    hide LiveChannels, Slot, Merge, Exported, Coherent, NamesNoChannels;
  }

  lemma MergeKeepsChannels(config: Config, desired: Config)
    requires NamesNoChannels(desired)
    ensures "channels" in Merge(config, desired) <==> "channels" in config
    ensures "channels" in config ==> Merge(config, desired)["channels"] == config["channels"]
  {
  }

  lemma ExportCovers(config: Config, desired: Config)
    ensures Covered(ForComparison(desired), Exported(Merge(config, desired)))
  {
    WriteThenRead(config, desired);
    var m := Merge(config, desired);
    hide Merge, ForComparison, StripWriteOnly, CoveredValue, NormKey, Unambiguous, DriftPaths;
    CoveredGrows(ForComparison(desired), StripWriteOnly(m), Exported(m));
  }

  lemma CoveredGrows(d: Config, l: Config, l': Config)
    requires Covered(d, l) && forall k :: k in l ==> k in l' && l'[k] == l[k]
    ensures Covered(d, l')
  {
    hide CoveredValue, NormKey;
    forall k | k in d ensures KeyCovered(d, k, l') {
      assert KeyCovered(d, k, l);
    }
  }

  lemma ChannelWriteHolds(g: Goal, w: World, w': World)
    requires Coupled(g, w)
    requires w'.device.config == StoreChannels(g.sha, w.device.config, g.chans.write)
          && w'.device.nodeId == w.device.nodeId
    requires w'.prior.passwordHash == w.prior.passwordHash
    ensures Coupled(g, w') && ChannelsHeld(g, w') && (ScalarsHeld(g, w) <==> ScalarsHeld(g, w'))
    ensures Decisive(g, w) <==> Decisive(g, w')
  {
    hide AlwaysClean, NamesNoChannels, ForComparison, LiveChannels, Slot, Merge, WriteOnlyPasswordHash,
         Covered, Listing, Overlay, BySlot, Exported;
    var config, list := w.device.config, Listing(Overlay(g.sha, BySlot(StoredList(w.device.config)), g.chans.write));
    StoredChannelsHeld(g, config);
    MergeRelisted(g.desired, config, list);
    hide Coherent;
    RelistSame(g.desired, config, list);
    RelistSame(g.desired, Merge(config, g.desired), list);
  }

  lemma StoredChannelsHeld(g: Goal, config: Config)
    requires Coherent(g.sha, g.chans)
    ensures var live := LiveChannels(g.sha, Exported(StoreChannels(g.sha, config, g.chans.write)));
            forall c :: c in g.chans.compare ==> Slot(live, c.index) == Some(c)
  {
    var before := BySlot(StoredList(config));
    StoredLive(g.sha, config, g.chans.write);
    hide *;
    var live := LiveChannels(g.sha, Exported(StoreChannels(g.sha, config, g.chans.write)));
    forall c | c in g.chans.compare ensures Slot(live, c.index) == Some(c) {
      var i :| 0 <= i < |g.chans.compare| && g.chans.compare[i] == c;
      StoredChannelHeld(g, before, live, i);
    }
  }

  lemma StoredLive(sha: Sha, config: Config, writes: seq<ChannelWrite>)
    ensures LiveChannels(sha, Exported(StoreChannels(sha, config, writes)))
         == SortByIndex(NormalizeLive(sha, Listing(Overlay(sha, BySlot(StoredList(config)), writes))))
  {
    hide SortByIndex, NormalizeLive, Listing, Overlay, BySlot, Exported;
    ExportedChannels(StoreChannels(sha, config, writes));
  }

  lemma StoredChannelHeld(g: Goal, before: map<int, ChannelState>, live: seq<ChannelState>, i: nat)
    requires Coherent(g.sha, g.chans) && i < |g.chans.compare| && Keyed(before)
    requires live == SortByIndex(NormalizeLive(g.sha, Listing(Overlay(g.sha, before, g.chans.write))))
    ensures Slot(live, g.chans.compare[i].index) == Some(g.chans.compare[i])
  {
    hide SortByIndex, NormalizeLive, Listing, Overlay, Slot, NormalizeLivePskHash, FakeChannelPskHash;
    OverlayHolds(g.sha, before, g.chans.write, i);
    ListingSlot(g.sha, Overlay(g.sha, before, g.chans.write), g.chans.compare[i].index);
  }

  /** Merging leaves an entry the written tree does not name. */
  lemma MergeElsewhere(desired: Config, config: Config, key: string, v: Tree)
    requires key !in desired
    ensures Merge(config[key := v], desired) == Merge(config, desired)[key := v]
  {
    var was, now := config, config[key := v];
    var a, b := Merge(now, desired), Merge(was, desired)[key := v];
    MergedEntries(now, desired);
    MergedEntries(was, desired);
    hide *;
    assert a.Keys == b.Keys;
    forall k | k in a ensures a[k] == b[k] {
      if k in desired { assert Entry(now, k) == Entry(was, k) by { SameEntry(now, was, k); } }
    }
  }

  lemma SameEntry(a: Config, b: Config, k: string)
    requires k in a <==> k in b
    requires k in a ==> a[k] == b[k]
    ensures Entry(a, k) == Entry(b, k)
  {
  }

  lemma MergedEntries(config: Config, desired: Config)
    ensures Merge(config, desired).Keys == config.Keys + desired.Keys
    ensures forall k :: k in desired ==> Merge(config, desired)[k] == MergeValue(Entry(config, k), desired[k])
    ensures forall k :: k in config && k !in desired ==> Merge(config, desired)[k] == config[k]
  {
    hide MergeValue;
  }

  lemma MergeRelisted(desired: Config, config: Config, list: seq<ChannelState>)
    requires NamesNoChannels(desired)
    ensures Merge(config["channels" := ChannelList(list)], desired)
         == Merge(config, desired)["channels" := ChannelList(list)]
  {
    assert "channels" !in desired;
    hide *;
    MergeElsewhere(desired, config, "channels", ChannelList(list));
  }

  lemma ExportedRelisted(config: Config, list: seq<ChannelState>)
    ensures Exported(config["channels" := ChannelList(list)]) == Exported(config)["channels" := ChannelList(list)]
    ensures "channels" in Exported(config)
  {
    assert "channels" != "module_config" by { assert |"channels"| != |"module_config"|; }
    var config' := config["channels" := ChannelList(list)];
    assert StripWriteOnly(config') == StripWriteOnly(config)["channels" := ChannelList(list)];
  }

  /** Relisting the channels changes neither comparison of the declared tree. */
  lemma RelistSame(desired: Config, config: Config, list: seq<ChannelState>)
    requires NamesNoChannels(desired)
    ensures var d, e, e' := ForComparison(desired), Exported(config), Exported(config["channels" := ChannelList(list)]);
            && (MayBeClean(d, e) <==> MayBeClean(d, e'))
            && (AlwaysClean(d, e) <==> AlwaysClean(d, e'))
  {
    ComparedNames(desired);
    ExportedRelisted(config, list);
    hide *;
    Relisted(ForComparison(desired), Exported(config), ChannelList(list));
  }

  lemma ComparedNames(desired: Config)
    requires NamesNoChannels(desired)
    ensures NamesNoChannels(ForComparison(desired))
  {
    assert ForComparison(desired).Keys <= desired.Keys;
    hide NormKey, ForComparison;
  }

  lemma Relisted(d: Config, e: Config, v: Tree)
    requires NamesNoChannels(d) && "channels" in e
    ensures MayBeClean(d, e) <==> MayBeClean(d, e["channels" := v])
    ensures AlwaysClean(d, e) <==> AlwaysClean(d, e["channels" := v])
  {
    hide *;
    Elsewhere(d, e, v);
    Elsewhere(d, e["channels" := v], e["channels"]);
    Restored(e, "channels", v);
  }

  lemma Restored(e: Config, key: string, v: Tree)
    requires key in e
    ensures e[key := v][key := e[key]] == e
  {
  }

  lemma Elsewhere(d: Config, e: Config, v: Tree)
    requires NamesNoChannels(d)
    ensures MayBeClean(d, e) ==> MayBeClean(d, e["channels" := v])
    ensures AlwaysClean(d, e) ==> AlwaysClean(d, e["channels" := v])
  {
    MaybeElsewhere(d, e, "channels", v);
    SurelyElsewhere(d, e, "channels", v);
    hide *;
    CleanIsSure(d, e);
    CleanIsSure(d, e["channels" := v]);
  }

  lemma MaybeElsewhere(d: Config, e: Config, key: string, v: Tree)
    requires forall k :: k in d ==> NormKey(k) != NormKey(key)
    ensures MayBeClean(d, e) ==> MayBeClean(d, e[key := v])
  {
    hide *;
    if MayBeClean(d, e) {
      var index := CleanOrder(d, e);
      IndexElsewhere(index, e, key, v);
      CleanElsewhere(d, index, NormKey(key), v);
      OrderIsClean(d, e[key := v], index[NormKey(key) := v]);
    }
  }

  lemma CleanElsewhere(d: Config, index: Config, n: string, v: Tree)
    requires AllMayBeClean(d, index) && forall k :: k in d ==> NormKey(k) != n
    ensures AllMayBeClean(d, index[n := v])
  {
    hide NormKey, ValueMayBeClean;
    forall k | k in d ensures KeyMayBeClean(d, k, index[n := v]) {
      assert KeyMayBeClean(d, k, index);
    }
  }

  lemma IndexElsewhere(index: Config, e: Config, key: string, v: Tree)
    requires IndexOf(index, e, e.Keys)
    ensures IndexOf(index[NormKey(key) := v], e[key := v], e[key := v].Keys)
  {
    var index', e' := index[NormKey(key) := v], e[key := v];
    hide NormKey;
    forall n | n in index' ensures exists m :: m in e'.Keys && m in e' && NormKey(m) == n && index'[n] == e'[m] {
      if n == NormKey(key) {
        assert key in e' && e'[key] == v;
      } else {
        var m :| m in e && NormKey(m) == n && index[n] == e[m];
        assert m in e' && e'[m] == e[m];
      }
    }
  }

  lemma SurelyElsewhere(d: Config, e: Config, key: string, v: Tree)
    requires forall k :: k in d ==> NormKey(k) != NormKey(key)
    ensures SurelyCovered(d, e) ==> SurelyCovered(d, e[key := v])
  {
    hide NormKey, SurelyValue;
    var e' := e[key := v];
    if SurelyCovered(d, e) {
      forall k | k in d ensures SurelyKeyCovered(d, k, e') {
        assert SurelyKeyCovered(d, k, e);
        var m :| m in e && NormKey(m) == NormKey(k);
        assert m in e';
        forall j | j in e' && NormKey(j) == NormKey(k) ensures SurelyValue(d[k], e'[j]) {
          assert j != key && j in e && e'[j] == e[j];
        }
      }
    }
  }

  // ----- Runs

  lemma {:induction false} AfterComposes(g: Goal, w: World, m: nat, n: nat)
    ensures After(g, After(g, w, m), n) == After(g, w, m + n)
    ensures ReadyAt(g, After(g, w, m), n) == ReadyAt(g, w, m + n)
    decreases m
  {
    hide Next, Result;
    if m > 0 { AfterComposes(g, Next(g, w), m - 1, n); }
  }

  /** While the device is away the loop waits and forgets nothing. */
  lemma {:induction false} Waiting(g: Goal, w: World, n: nat)
    requires n <= w.device.unreachableFor
    ensures After(g, w, n) ==
      World(w.device.(unreachableFor := w.device.unreachableFor - n, exports := w.device.exports + n), w.prior)
    ensures n < w.device.unreachableFor ==> !ReadyAt(g, w, n)
    decreases n
  {
    hide Next, Result;
    if n > 0 {
      StepUnreachable(g, w);
      Waiting(g, Next(g, w), n - 1);
    } else if w.device.unreachableFor > 0 {
      StepUnreachable(g, w);
    }
  }

  /** What the loop keeps about a device that needs nothing. */
  ghost predicate Settled(g: Goal, w: World) {
    Sound(g, w) && w.device.unreachableFor == 0 && ScalarsHeld(g, w) && ChannelsHeld(g, w)
  }

  lemma SettledNow(g: Goal, w: World)
    requires Sound(g, w) && w.device.unreachableFor == 0 && Need(g, w) == 0
    ensures Settled(g, w)
  {
  }

  lemma SettledStep(g: Goal, w: World)
    requires Settled(g, w)
    ensures Result(g, w).Stepped? && Result(g, w).outcome.ready
    ensures Next(g, w).device == AfterExport(w.device) && Settled(g, Next(g, w))
  {
    hide Decide, Exported, ForComparison, DriftSeen, HonestDrift, MayBeClean, LiveChannels, Slot, WriteOnlyPasswordHash,
         Next, Result, Coherent, NamesNoChannels, AlwaysClean, Merge;
    ReachableDecision(g, w);
    StepReachable(g, w, ReportReady);
  }

  lemma {:induction false} SettledStays(g: Goal, w: World, n: nat)
    requires Settled(g, w)
    ensures ReadyAt(g, w, n) && Settled(g, After(g, w, n))
    ensures After(g, w, n).device == w.device.(exports := w.device.exports + n)
    decreases n
  {
    hide *;
    SettledOnce(g, w);
    if n > 0 {
      ReadyLater(g, w, n);
      SettledStays(g, Next(g, w), n - 1);
    }
  }

  lemma ReadyNow(g: Goal, w: World)
    ensures After(g, w, 0) == w
    ensures ReadyAt(g, w, 0) <==> Result(g, w).Stepped? && Result(g, w).outcome.ready
  {
    hide Result;
  }

  lemma SilentTick(f: FakeState)
    requires f.unreachableFor == 0
    ensures AfterExport(f) == f.(exports := f.exports + 1)
  {
  }

  lemma SettledOnce(g: Goal, w: World)
    requires Settled(g, w)
    ensures ReadyAt(g, w, 0) && After(g, w, 0) == w && Settled(g, Next(g, w))
    ensures Next(g, w).device == w.device.(exports := w.device.exports + 1)
  {
    SettledStep(g, w);
    assert w.device.unreachableFor == 0;
    hide *;
    ReadyNow(g, w);
    SilentTick(w.device);
  }

  /** A step that writes: one write fewer is needed, one more attempt is counted, and
      the device is away for its reboot window. */
  lemma WritingStep(g: Goal, w: World)
    requires Sound(g, w) && w.device.unreachableFor == 0
    requires Need(g, w) > 0 && w.prior.applyAttempts < MAX_APPLY_ATTEMPTS
    ensures Result(g, w).Stepped? && !Result(g, w).outcome.ready
    ensures var w' := Next(g, w);
            && Sound(g, w') && Need(g, w') == Need(g, w) - 1
            && w'.prior.applyAttempts == w.prior.applyAttempts + 1
            && w'.device.unreachableFor == w'.device.rebootWindow == w.device.rebootWindow
            && w'.device.applies + (if ScalarsHeld(g, w') then 0 else 1)
                 == w.device.applies + (if ScalarsHeld(g, w) then 0 else 1)
            && w'.device.channelApplies + (if ChannelsHeld(g, w') then 0 else 1)
               == w.device.channelApplies + (if ChannelsHeld(g, w) then 0 else 1)
  {
    hide Decide, Exported, ForComparison, DriftSeen, HonestDrift, WriteOnlyPasswordHash, Next, Result, Merge,
         StoreChannels, ScalarsHeld, ChannelsHeld;
    ReachableDecision(g, w);
    if !ChannelsHeld(g, w) { WritesNotEmpty(g, w); }
    hide Coupled, Decisive;
    if !ScalarsHeld(g, w) {
      StepReachable(g, w, WriteConfig);
      ApplyHolds(g, w, Next(g, w));
    } else {
      StepReachable(g, w, WriteChannels);
      ChannelWriteHolds(g, w, Next(g, w));
    }
  }

  lemma WritesNotEmpty(g: Goal, w: World)
    requires Sound(g, w) && !ChannelsHeld(g, w)
    ensures g.chans.write != []
  {
  }

  /** The step at which Ready is first reported. */
  ghost function ReadyStep(g: Goal, w: World): nat {
    StepsFor(w.device.unreachableFor, Need(g, w), w.device.rebootWindow)
  }

  /** Waiting out an absence, then a reboot window after each write. */
  function StepsFor(u: nat, need: nat, window: nat): nat { u + need * (window + 1) }

  /** Bounded convergence: with enough attempts left for the writes still needed, the
      loop is Ready from step `ReadyStep` on, never before, having written each surface
      that had drifted exactly once. */
  lemma {:induction false} Converges(g: Goal, w: World, n: nat)
    requires Sound(g, w)
    requires w.prior.applyAttempts + Need(g, w) <= MAX_APPLY_ATTEMPTS
    ensures ReadyAt(g, w, n) <==> n >= ReadyStep(g, w)
    ensures n >= ReadyStep(g, w) ==>
      var f := After(g, w, n).device;
      && f.applies == w.device.applies + (if ScalarsHeld(g, w) then 0 else 1)
      && f.channelApplies == w.device.channelApplies + (if ChannelsHeld(g, w) then 0 else 1)
    decreases Need(g, w)
  {
    var u, need := w.device.unreachableFor, Need(g, w);
    WritesNeeded(g, w);
    hide Need, ScalarsHeld, ChannelsHeld, Sound, Next, Result, ReadyAt;
    if n < u {
      Waiting(g, w, n);
    } else {
      Waiting(g, w, u);
      AfterComposes(g, w, u, n - u);
      var w0 := After(g, w, u);
      WaitedSame(g, w, w0);
      if need == 0 {
        SettledNow(g, w0);
        SettledStays(g, w0, n - u);
      } else {
        WritingStep(g, w0);
        if n == u {
          NotReadyYet(g, w0);
        } else {
          AfterComposes(g, w0, 1, n - u - 1);
          assert After(g, w0, 1) == Next(g, w0);
          Converges(g, Next(g, w0), n - u - 1);
          WritesNeeded(g, Next(g, w0));
        }
        assert need * (w.device.rebootWindow + 1)
            == (need - 1) * (w.device.rebootWindow + 1) + w.device.rebootWindow + 1;
      }
    }
  }

  lemma NotReadyYet(g: Goal, w: World)
    requires Result(g, w).Stepped? && !Result(g, w).outcome.ready
    ensures !ReadyAt(g, w, 0)
  {
  }

  lemma WritesNeeded(g: Goal, w: World)
    ensures Need(g, w) == (if ScalarsHeld(g, w) then 0 else 1) + (if ChannelsHeld(g, w) then 0 else 1)
  {
  }

  lemma WaitedSame(g: Goal, w: World, w0: World)
    requires w0.device == w.device.(unreachableFor := w0.device.unreachableFor, exports := w0.device.exports)
          && w0.prior == w.prior
    ensures Sound(g, w) == Sound(g, w0) && ScalarsHeld(g, w) == ScalarsHeld(g, w0)
          && ChannelsHeld(g, w) == ChannelsHeld(g, w0)
    ensures Need(g, w) == Need(g, w0)
  {
  }

  /** Drift is found whenever some order of the colliding keys finds it. */
  ghost predicate Unlucky(g: Goal) {
    forall k: nat, l: Config :: g.drift(k, l) == UnluckyVerdict(ForComparison(g.desired), l)
  }

  lemma UnluckyIsHonest(g: Goal)
    requires Unlucky(g)
    ensures HonestDrift(g)
  {
    hide DriftVerdict, UnluckyVerdict, AlwaysClean;
  }

  /** Some order finds drift now, and after the declared tree is written. */
  ghost predicate Stale(g: Goal, config: Config) {
    && !AlwaysClean(ForComparison(g.desired), Exported(config))
    && !AlwaysClean(ForComparison(g.desired), Exported(Merge(config, g.desired)))
  }

  /** Where a stale spelling survives the write, an unlucky order keeps the loop from ever
      being Ready. */
  lemma {:induction false} StaleNeverReady(g: Goal, w: World, n: nat)
    requires Unlucky(g) && Stale(g, w.device.config) && w.device.nodeId != ""
    ensures !ReadyAt(g, w, n)
    decreases n
  {
    hide *;
    StaleStep(g, w);
    if n > 0 {
      ReadyLater(g, w, n);
      StaleNeverReady(g, Next(g, w), n - 1);
    }
  }

  lemma ReadyLater(g: Goal, w: World, n: nat)
    requires n > 0
    ensures After(g, w, n) == After(g, Next(g, w), n - 1)
    ensures ReadyAt(g, w, n) == ReadyAt(g, Next(g, w), n - 1)
  {
    hide Next, Result;
  }

  lemma UnluckySees(g: Goal, w: World)
    requires Unlucky(g)
    ensures DriftSeen(g, w) == [] <==> AlwaysClean(ForComparison(g.desired), Exported(w.device.config))
  {
    hide AlwaysClean, UnluckyVerdict, ForComparison, Exported, DriftVerdict;
  }

  lemma StaleStep(g: Goal, w: World)
    requires Unlucky(g) && Stale(g, w.device.config) && w.device.nodeId != ""
    ensures !ReadyAt(g, w, 0)
    ensures Stale(g, Next(g, w).device.config) && Next(g, w).device.nodeId != ""
  {
    UnluckySees(g, w);
    MergeIdempotent(w.device.config, g.desired);
    hide AlwaysClean, ForComparison, Exported, Merge, Result, Next, DriftSeen, Unlucky;
    DriftyStep(g, w);
  }

  /** A step that has something to write for does not report Ready, and leaves the device's
      configuration as it was or with the declared tree written. */
  lemma DriftyStep(g: Goal, w: World)
    requires DriftSeen(g, w) != [] || WriteOnlyDrift(g.sha, g.desired, w.prior)
    requires w.device.nodeId != ""
    ensures !ReadyAt(g, w, 0) && Next(g, w).device.nodeId != ""
    ensures Next(g, w).device.config == w.device.config
         || Next(g, w).device.config == Merge(w.device.config, g.desired)
    ensures w.device.unreachableFor == 0 && w.prior.applyAttempts < MAX_APPLY_ATTEMPTS ==>
              Next(g, w).device.config == Merge(w.device.config, g.desired)
    ensures w.device.unreachableFor > 0 ==>
              Next(g, w) == World(AfterExport(w.device), w.prior)
  {
    hide Exported, Merge, Result, Next, DriftSeen, WriteOnlyDrift;
    assert After(g, w, 0) == w;
    if w.device.unreachableFor > 0 {
      StepUnreachable(g, w);
    } else {
      var action := Decide(g.sha, g.desired, g.chans, w.prior, Exported(w.device.config), DriftSeen(g, w));
      DriftIsActedOn(g, w, action);
      hide Decide;
      StepReachable(g, w, action);
    }
  }

  lemma DriftIsActedOn(g: Goal, w: World, action: Action)
    requires DriftSeen(g, w) != [] || WriteOnlyDrift(g.sha, g.desired, w.prior)
    requires action == Decide(g.sha, g.desired, g.chans, w.prior, Exported(w.device.config), DriftSeen(g, w))
    ensures action == if w.prior.applyAttempts >= MAX_APPLY_ATTEMPTS then GiveUp else WriteConfig
  {
    hide DriftSeen, Exported, WriteOnlyPasswordHash, ChannelDrift, LiveChannels;
  }

  /** With too few attempts left the loop is never Ready: the bound is exact. */
  lemma {:induction false} NeverReady(g: Goal, w: World, n: nat)
    requires Sound(g, w)
    requires Need(g, w) > 0 && w.prior.applyAttempts + Need(g, w) > MAX_APPLY_ATTEMPTS
    ensures !ReadyAt(g, w, n)
    decreases n
  {
    hide *;
    HopelessStep(g, w);
    if n > 0 {
      ReadyLater(g, w, n);
      NeverReady(g, Next(g, w), n - 1);
    }
  }

  lemma HopelessStep(g: Goal, w: World)
    requires Sound(g, w)
    requires Need(g, w) > 0 && w.prior.applyAttempts + Need(g, w) > MAX_APPLY_ATTEMPTS
    ensures !ReadyAt(g, w, 0)
    ensures var w' := Next(g, w);
            Sound(g, w') && Need(g, w') > 0 && w'.prior.applyAttempts + Need(g, w') > MAX_APPLY_ATTEMPTS
  {
    hide Sound, Need, Next, Result;
    if w.device.unreachableFor > 0 {
      StepUnreachable(g, w);
      WaitedSame(g, w, Next(g, w));
    } else if w.prior.applyAttempts < MAX_APPLY_ATTEMPTS {
      WritingStep(g, w);
    } else {
      GivenUpStep(g, w);
    }
  }

  lemma GivenUpStep(g: Goal, w: World)
    requires Sound(g, w) && w.device.unreachableFor == 0
    requires Need(g, w) > 0 && w.prior.applyAttempts >= MAX_APPLY_ATTEMPTS
    ensures Result(g, w).Stepped? && !Result(g, w).outcome.ready && Result(g, w).outcome.degraded
    ensures Sound(g, Next(g, w)) && Need(g, Next(g, w)) == Need(g, w)
    ensures Next(g, w).prior.applyAttempts == w.prior.applyAttempts
    ensures Next(g, w).device == AfterExport(w.device)
  {
    hide Decide, Exported, ForComparison, DriftSeen, HonestDrift, MayBeClean, LiveChannels, Slot, WriteOnlyPasswordHash,
         Next, Result, Coherent, NamesNoChannels, AlwaysClean, Merge;
    ReachableDecision(g, w);
    StepReachable(g, w, GiveUp);
  }

  /** From any start with at most three attempts counted, Ready comes within
      u + 2w + 3 steps, with at most one config write and one channel write, and stays. */
  lemma ReadyWithinBound(g: Goal, w: World, n: nat)
    requires Sound(g, w) && w.prior.applyAttempts <= 3
    requires n + 1 >= w.device.unreachableFor + 2 * w.device.rebootWindow + 3
    ensures ReadyAt(g, w, n)
    ensures After(g, w, n).device.applies <= w.device.applies + 1
    ensures After(g, w, n).device.channelApplies <= w.device.channelApplies + 1
  {
    hide ScalarsHeld, ChannelsHeld, Sound, ReadyAt, After;
    var k, t := Need(g, w), w.device.rebootWindow + 1;
    assert k * t <= 2 * t;
    Converges(g, w, n);
  }

  // ----- Exactly when colliding keys do no harm

  /** Drift is found whenever it may be, but from the k-th export on only. */
  ghost predicate Teasing(g: Goal, k: nat) {
    forall j: nat, l: Config :: g.drift(j, l) ==
      if j < k && MayBeClean(ForComparison(g.desired), l) then [] else UnluckyVerdict(ForComparison(g.desired), l)
  }

  lemma TeasingIsHonest(g: Goal, k: nat)
    requires Teasing(g, k)
    ensures HonestDrift(g)
  {
    var d := ForComparison(g.desired);
    hide DriftVerdict, UnluckyVerdict, ForComparison, MayBeClean, AlwaysClean;
    forall j: nat, l: Config ensures DriftVerdict(d, l, g.drift(j, l)) {
      CleanVerdict(d, l);
    }
  }

  /** The declared tree is held in one order and not in another. */
  ghost predicate Torn(g: Goal, w: World) {
    && ScalarsHeld(g, w) && NamesNoChannels(g.desired) && w.device.nodeId != ""
    && !AlwaysClean(ForComparison(g.desired), Exported(w.device.config))
  }

  lemma TornStep(g: Goal, w: World)
    requires Torn(g, w) && DriftSeen(g, w) == []
    ensures Torn(g, Next(g, w)) && Next(g, w).device.exports == w.device.exports + 1
  {
    hide MayBeClean, AlwaysClean, ForComparison, Exported, Next, DriftSeen, NamesNoChannels, WriteOnlyDrift;
    var list := HeldStep(g, w);
    RelistSame(g.desired, w.device.config, list);
  }

  /** A step with no scalar to write leaves the configuration, but for the channel list. */
  lemma HeldStep(g: Goal, w: World) returns (list: seq<ChannelState>)
    requires DriftSeen(g, w) == [] && !WriteOnlyDrift(g.sha, g.desired, w.prior) && w.device.nodeId != ""
    ensures var w' := Next(g, w);
            && w'.device.exports == w.device.exports + 1 && w'.device.nodeId == w.device.nodeId
            && !WriteOnlyDrift(g.sha, g.desired, w'.prior)
            && (w'.device.config == w.device.config
                || w'.device.config == w.device.config["channels" := ChannelList(list)])
  {
    list := Listing(Overlay(g.sha, BySlot(StoredList(w.device.config)), g.chans.write));
    if w.device.unreachableFor > 0 {
      hide Next, WriteOnlyDrift, DriftSeen, Listing, Overlay, BySlot, StoredList;
      StepUnreachable(g, w);
    } else {
      var action := Decide(g.sha, g.desired, g.chans, w.prior, Exported(w.device.config), DriftSeen(g, w));
      HeldIsKept(g, w, action);
      KeepingAction(g, w, action, list);
      hide *;
      StepReachable(g, w, action);
    }
  }

  lemma KeepingAction(g: Goal, w: World, action: Action, list: seq<ChannelState>)
    requires !action.WriteConfig? && w.device.unreachableFor == 0 && !WriteOnlyDrift(g.sha, g.desired, w.prior)
    requires list == Listing(Overlay(g.sha, BySlot(StoredList(w.device.config)), g.chans.write))
    ensures var f := WrittenDevice(g, w.device, action);
            && f.exports == w.device.exports + 1 && f.nodeId == w.device.nodeId
            && (f.config == w.device.config || f.config == w.device.config["channels" := ChannelList(list)])
    ensures !WriteOnlyDrift(g.sha, g.desired, PriorAfter(g, w.prior, action))
  {
    hide Listing, Overlay, BySlot, StoredList, WriteOnlyPasswordHash, Merge;
  }

  lemma HeldIsKept(g: Goal, w: World, action: Action)
    requires DriftSeen(g, w) == [] && !WriteOnlyDrift(g.sha, g.desired, w.prior)
    requires action == Decide(g.sha, g.desired, g.chans, w.prior, Exported(w.device.config), DriftSeen(g, w))
    ensures !action.WriteConfig? && !action.NoContact?
  {
    hide DriftSeen, Exported, WriteOnlyPasswordHash, ChannelDrift, LiveChannels;
  }

  lemma TeasedSees(g: Goal, w: World, k: nat)
    requires Teasing(g, k) && Torn(g, w)
    ensures DriftSeen(g, w) == [] <==> w.device.exports < k
  {
    hide AlwaysClean, UnluckyVerdict, ForComparison, Exported, MayBeClean, WriteOnlyDrift, NamesNoChannels,
         DriftVerdict;
  }

  lemma {:induction false} TeasedNotReady(g: Goal, w: World, n: nat, k: nat)
    requires Teasing(g, k) && Torn(g, w) && w.device.exports + n == k
    ensures !ReadyAt(g, w, n)
    decreases n
  {
    hide *;
    TeasedSees(g, w, k);
    if n == 0 {
      TornNotReady(g, w);
    } else {
      TornStep(g, w);
      ReadyLater(g, w, n);
      TeasedNotReady(g, Next(g, w), n - 1, k);
    }
  }

  lemma TornNotReady(g: Goal, w: World)
    requires Torn(g, w) && DriftSeen(g, w) != []
    ensures !ReadyAt(g, w, 0)
  {
    assert w.device.nodeId != "";
    hide *;
    DriftyStep(g, w);
  }

  /** What has to be written does not read back in every order. */
  ghost predicate WritesStale(g: Goal, w: World) {
    && !ScalarsHeld(g, w) && w.device.nodeId != "" && w.prior.applyAttempts < MAX_APPLY_ATTEMPTS
    && !AlwaysClean(ForComparison(g.desired), Exported(Merge(w.device.config, g.desired)))
  }

  lemma WritesStaleStep(g: Goal, w: World)
    requires Unlucky(g) && WritesStale(g, w)
    ensures !ReadyAt(g, w, 0) && Next(g, w).device.nodeId != ""
    ensures WritesStale(g, Next(g, w)) || Stale(g, Next(g, w).device.config)
  {
    hide *;
    UnheldDrifts(g, w);
    DriftyStep(g, w);
    if w.device.unreachableFor > 0 {
      AwayStaysStale(g, w);
    } else {
      WrittenIsStale(g, w);
    }
  }

  lemma UnheldDrifts(g: Goal, w: World)
    requires Unlucky(g) && WritesStale(g, w)
    ensures DriftSeen(g, w) != [] || WriteOnlyDrift(g.sha, g.desired, w.prior)
    ensures w.device.nodeId != "" && w.prior.applyAttempts < MAX_APPLY_ATTEMPTS
  {
    hide AlwaysClean, MayBeClean, ForComparison, Exported, Merge, WriteOnlyDrift, DriftSeen, Unlucky;
    UnluckySees(g, w);
    CleanIsMaybe(ForComparison(g.desired), Exported(w.device.config));
  }

  lemma AwayStaysStale(g: Goal, w: World)
    requires WritesStale(g, w)
    ensures WritesStale(g, World(AfterExport(w.device), w.prior))
  {
    hide AlwaysClean, MayBeClean, ForComparison, Exported, Merge, WriteOnlyDrift;
  }

  lemma WrittenIsStale(g: Goal, w: World)
    requires WritesStale(g, w)
    ensures Stale(g, Merge(w.device.config, g.desired))
  {
    hide AlwaysClean, ForComparison, Exported, Merge;
    MergeIdempotent(w.device.config, g.desired);
  }

  lemma {:induction false} WritesStaleNotReady(g: Goal, w: World, n: nat)
    requires Unlucky(g) && WritesStale(g, w)
    ensures !ReadyAt(g, w, n)
    decreases n
  {
    hide *;
    WritesStaleStep(g, w);
    if n > 0 {
      ReadyLater(g, w, n);
      if WritesStale(g, Next(g, w)) {
        WritesStaleNotReady(g, Next(g, w), n - 1);
      } else {
        StaleNeverReady(g, Next(g, w), n - 1);
      }
    }
  }

  /** The run in which Drift says of the k-th export what `drift` says. */
  function With(g: Goal, drift: (nat, Config) -> seq<string>): Goal { Goal(g.sha, g.desired, g.chans, drift) }

  ghost predicate InTime(w: World, n: nat) { n + 1 >= w.device.unreachableFor + 2 * w.device.rebootWindow + 3 }

  /** Whatever Drift may say, the loop is Ready in time and stays Ready. */
  ghost predicate SettlesInTime(g: Goal, w: World) {
    forall drift, n: nat :: HonestDrift(With(g, drift)) && InTime(w, n) ==> ReadyAt(With(g, drift), w, n)
  }

  /** Bounded convergence, exactly: the loop settles in time whatever order colliding keys
      are ranged over in, if and only if the comparison is decisive. */
  lemma ConvergesExactly(g: Goal, w: World)
    requires Coupled(g, w) && w.prior.applyAttempts <= 3
    ensures SettlesInTime(g, w) <==> Decisive(g, w)
  {
    hide HonestDrift, ReadyAt;
    if Decisive(g, w) {
      forall drift, n: nat | HonestDrift(With(g, drift)) && InTime(w, n) ensures ReadyAt(With(g, drift), w, n) {
        SettledInTime(g, w, drift, n);
      }
    } else {
      var drift, n := Unsettled(g, w);
      assert HonestDrift(With(g, drift)) && !ReadyAt(With(g, drift), w, n);
    }
  }

  lemma SettledInTime(g: Goal, w: World, drift: (nat, Config) -> seq<string>, n: nat)
    requires Coupled(g, w) && Decisive(g, w) && w.prior.applyAttempts <= 3
    requires HonestDrift(With(g, drift)) && InTime(w, n)
    ensures ReadyAt(With(g, drift), w, n)
  {
    hide HonestDrift, ReadyAt, AlwaysClean, MayBeClean, ForComparison, Exported, Merge, WriteOnlyDrift, Coherent,
         NamesNoChannels;
    ReadyWithinBound(With(g, drift), w, n);
  }

  lemma Unsettled(g: Goal, w: World) returns (drift: (nat, Config) -> seq<string>, n: nat)
    requires Coupled(g, w) && !Decisive(g, w) && w.prior.applyAttempts <= 3
    ensures HonestDrift(With(g, drift)) && InTime(w, n) && !ReadyAt(With(g, drift), w, n)
  {
    hide AlwaysClean, MayBeClean, ForComparison, Exported, Merge, WriteOnlyDrift, Coherent, NamesNoChannels, ReadyAt,
         HonestDrift, Teasing, Unlucky, ScalarsHeld;
    n := w.device.unreachableFor + 2 * w.device.rebootWindow + 2;
    assert InTime(w, n);
    var k := w.device.exports + n;
    if ScalarsHeld(g, w) {
      drift := Teaser(g, k);
      TornOrStale(g, w, drift);
      hide *;
      TeasedNotReady(With(g, drift), w, n, k);
    } else {
      drift := Pessimist(g);
      TornOrStale(g, w, drift);
      hide *;
      WritesStaleNotReady(With(g, drift), w, n);
    }
  }

  lemma TornOrStale(g: Goal, w: World, drift: (nat, Config) -> seq<string>)
    requires Coupled(g, w) && !Decisive(g, w) && w.prior.applyAttempts <= 3
    ensures if ScalarsHeld(g, w) then Torn(With(g, drift), w) else WritesStale(With(g, drift), w)
  {
    hide AlwaysClean, MayBeClean, ForComparison, Exported, Merge, WriteOnlyDrift, Coherent, NamesNoChannels;
  }

  lemma Teaser(g: Goal, k: nat) returns (drift: (nat, Config) -> seq<string>)
    ensures Teasing(With(g, drift), k) && HonestDrift(With(g, drift))
  {
    var d := ForComparison(g.desired);
    drift := (j: nat, l: Config) => if j < k && MayBeClean(d, l) then [] else UnluckyVerdict(d, l);
    hide HonestDrift, MayBeClean, AlwaysClean, ForComparison, UnluckyVerdict, DriftVerdict;
    TeasingIsHonest(With(g, drift), k);
  }

  lemma Pessimist(g: Goal) returns (drift: (nat, Config) -> seq<string>)
    ensures Unlucky(With(g, drift)) && HonestDrift(With(g, drift))
  {
    var d := ForComparison(g.desired);
    drift := (j: nat, l: Config) => UnluckyVerdict(d, l);
    hide HonestDrift, ForComparison, UnluckyVerdict, DriftVerdict, AlwaysClean;
    UnluckyIsHonest(With(g, drift));
  }

  // ----- The answers used above are the model's own

  /** Every call of a step finds the model replying as the step was computed from. */
  lemma AnswersAreTheModels(g: Goal, w: World, i: nat)
    requires (g.chans.compare != [] ==> g.chans.write != []) && i < |CallsMade(g, w)|
    ensures FakeReply(PerformAll(g.sha, w.device, CallsMade(g, w)[..i]), CallsMade(g, w)[i])
         == AnswerTo(CallsMade(g, w)[i], FakeAnswers(w.device))
  {
    hide Decide, Exported, ForComparison, ExportedNodeId, Merge, StoreChannels;
    var f, calls, a := w.device, CallsMade(g, w), FakeAnswers(w.device);
    var live := Exported(f.config);
    assert calls[..0] == [];
    if i > 0 {
      assert f.unreachableFor == 0;
      var info := if ExportedNodeId(live) == "" then [InfoCall] else [];
      var action := ActionOf(g.sha, g.desired, g.chans, w.prior, a, DriftSeen(g, w));
      assert calls == [ExportCall] + info + WriteCalls(g.desired, g.chans, a, action);
      PerformInfo(g.sha, f, []);
      PerformInfo(g.sha, f, info);
      if i <= |info| {
        assert calls[..i] == [ExportCall] + [];
      } else if i == 1 + |info| {
        assert calls[..i] == [ExportCall] + info;
      } else {
        assert i == 2 + |info| && calls[i] == RebootCall;
        assert calls[..i][..i - 1] == [ExportCall] + info;
        assert PerformAll(g.sha, f, calls[..i]) == Perform(g.sha, AfterExport(f), calls[i - 1]);
        if action.WriteChannels? {
          ChannelsWritten(g, w, a);
        }
      }
    }
  }

  lemma ChannelsWritten(g: Goal, w: World, a: Answers)
    requires ActionOf(g.sha, g.desired, g.chans, w.prior, a, DriftSeen(g, w)).WriteChannels?
    ensures g.chans.compare != []
  {
    hide DriftSeen, ExportedNodeId, WriteOnlyPasswordHash, LiveChannels, ChannelDrift;
    ChannelDriftEmpty([], LiveChannels(g.sha, a.exported.value));
  }

  /** The calls of a step, made on the model itself, and its replies. */
  method Replay(sha: Sha, dev: Fake, calls: seq<Call>) returns (heard: seq<Heard>)
    modifies dev
    ensures dev.State() == PerformAll(sha, old(dev.State()), calls)
    ensures |heard| == |calls|
    ensures forall i :: 0 <= i < |calls| ==>
          heard[i] == FakeReply(PerformAll(sha, old(dev.State()), calls[..i]), calls[i])
  {
    hide Perform, FakeReply;
    heard := [];
    for i := 0 to |calls|
      invariant dev.State() == PerformAll(sha, old(dev.State()), calls[..i])
      invariant |heard| == i
      invariant forall j :: 0 <= j < i ==>
            heard[j] == FakeReply(PerformAll(sha, old(dev.State()), calls[..j]), calls[j])
    {
      assert calls[..i + 1][..i] == calls[..i];
      var reply := CallFake(sha, dev, calls[i]);
      heard := heard + [reply];
    }
    assert calls[..|calls|] == calls;
  }

  method CallFake(sha: Sha, dev: Fake, c: Call) returns (reply: Heard)
    modifies dev
    ensures dev.State() == Perform(sha, old(dev.State()), c)
    ensures reply == FakeReply(old(dev.State()), c)
  {
    match c {
      case ExportCall =>
        var r := dev.ExportConfig();
        reply := ConfigHeard(r);
      case InfoCall =>
        var r := dev.Info();
        reply := IdHeard(r);
      case ApplyCall(desired) =>
        var r := dev.Apply(desired);
        reply := DoneHeard(r);
      case ApplyChannelsCall(writes) =>
        var r := dev.ApplyChannels(sha, writes);
        reply := DoneHeard(r);
      case RebootCall =>
        var r := dev.Reboot();
        reply := DoneHeard(r);
    }
  }

  /** A step of a run: its result, its calls, and the device it leaves. */
  ghost predicate IsRunStep(g: Goal, w: World, r: StepResult, calls: seq<Call>, left: FakeState) {
    HonestDrift(g) && r == Result(g, w) && calls == CallsMade(g, w) && left == Next(g, w).device
  }

  /** One step of the loop against the model: Converge concludes `Result`, the model is
      left in `Next`, and every call was replied to as Converge was told. */
  method ConvergeOnFake(sha: Sha, dev: Fake, desired: Config, chans: DesiredChannels, prior: State)
    returns (r: StepResult, calls: seq<Call>, heard: seq<Heard>)
    requires chans.compare != [] ==> chans.write != []
    modifies dev
    ensures exists drift ::
      IsRunStep(Goal(sha, desired, chans, drift), World(old(dev.State()), prior), r, calls, dev.State())
    ensures |heard| == |calls|
    ensures forall i :: 0 <= i < |calls| ==> heard[i] == AnswerTo(calls[i], FakeAnswers(old(dev.State())))
  {
    hide Step, Calls, PerformAll, ForComparison, FakeAnswers, FakeReply, AnswerTo, IsRunStep;
    var f := FakeState(dev.config, dev.unreachableFor, dev.rebootWindow, dev.nodeId,
                       dev.applies, dev.reboots, dev.exports, dev.channelApplies);
    var client := new Client(FakeAnswers(f));
    r := Converge(sha, client, desired, chans, prior);
    calls := client.calls;
    ghost var said :| IsStep(sha, desired, chans, prior, client.answers, said, r, calls);
    ghost var g := OneStep(sha, f, desired, chans, prior, said, r, calls);
    heard := Replay(sha, dev, calls);
    assert IsRunStep(Goal(sha, desired, chans, g.drift), World(old(dev.State()), prior), r, calls, dev.State()) by {
      StepIsRun(g, World(f, prior), r, calls);
    }
    forall i | 0 <= i < |calls| ensures heard[i] == AnswerTo(calls[i], FakeAnswers(f)) {
      AnswersAreTheModels(g, World(f, prior), i);
    }
  }

  lemma StepIsRun(g: Goal, w: World, r: StepResult, calls: seq<Call>)
    requires HonestDrift(g) && r == Result(g, w) && calls == CallsMade(g, w)
    ensures IsRunStep(g, w, r, calls, PerformAll(g.sha, w.device, calls))
  {
    hide Result, CallsMade, PerformAll, HonestDrift;
  }

  /** What Drift said in one step is part of some honest run. */
  lemma OneStep(sha: Sha, f: FakeState, desired: Config, chans: DesiredChannels, prior: State, said: seq<string>,
                r: StepResult, calls: seq<Call>) returns (g: Goal)
    requires IsStep(sha, desired, chans, prior, FakeAnswers(f), said, r, calls)
    ensures g == Goal(sha, desired, chans, g.drift) && HonestDrift(g)
    ensures r == Result(g, World(f, prior)) && calls == CallsMade(g, World(f, prior))
  {
    var d, e := ForComparison(desired), Exported(f.config);
    var drift := (k: nat, l: Config) =>
      if k == f.exports && l == e && f.unreachableFor == 0 then said else UnluckyVerdict(d, l);
    g := Goal(sha, desired, chans, drift);
    hide DriftVerdict, UnluckyVerdict, Decide, Exported, ForComparison, SeenResult, WriteCalls, AlwaysClean;
    assert f.unreachableFor == 0 ==> DriftVerdict(d, e, said);
    forall k: nat, l: Config ensures DriftVerdict(d, l, g.drift(k, l)) {
      var unlucky := UnluckyVerdict(d, l);
    }
  }
}
