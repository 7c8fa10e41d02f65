/** One non-blocking convergence step (internal/reconcile/converge.go): export,
  compare, write at most one surface, reboot, report.

  `Step` says what a step concludes from whatever a device answers, so that claims
  about hostile devices quantify over `Answers`. The method `Converge` makes its calls on
  a client that may give any answers, and is proved to be `Step` on them. */
module Reconcile {
  import opened ConfigTree
  import opened ConfigDrift
  import opened Channels
  import opened Device

  const MAX_APPLY_ATTEMPTS := 5
  const RECONNECT_BACKOFF := 10
  const REBOOT_WAIT := 25
  const DRIFT_CHECK_INTERVAL := 300

  datatype Reason =
    | UnsupportedTransportReason | ConnectFailed | ConfigApplied | InSync | ChannelsUnobserved | ApplyFailed

  /** What the next step remembers of this one. */
  datatype State = State(rebootPending: bool, applyAttempts: int, passwordHash: string)

  datatype Outcome = Outcome(
    reachable: bool, configInSync: bool, rebootPending: bool, ready: bool, degraded: bool,
    reason: Reason, requeueSeconds: nat, applyAttempts: int, nodeId: string,
    liveChannels: seq<ChannelState>, drift: seq<string>, passwordHash: string, channelsUnobserved: bool)

  datatype StepResult = Stepped(outcome: Outcome) | Failed(error: DeviceError)

  datatype DesiredChannels = DesiredChannels(compare: seq<ChannelState>, write: seq<ChannelWrite>)

  /** The answers a device has ready for the calls a step may make. */
  datatype Answers = Answers(exported: Reply<Config>, info: Reply<string>, write: Reply<()>, reboot: Reply<()>)

  datatype Call = ExportCall | InfoCall | ApplyCall(desired: Config) | ApplyChannelsCall(writes: seq<ChannelWrite>)
    | RebootCall

  datatype Action = NoContact | ReportReady | ReportUnobserved | GiveUp | WriteConfig | WriteChannels

  function NextState(o: Outcome): State { State(o.rebootPending, o.applyAttempts, o.passwordHash) }

  predicate IsTransientDrop(e: DeviceError) { e.Unreachable? || e.DeadlineExceeded? }

  function DropReason(prior: State): Reason { if prior.rebootPending then ConfigApplied else ConnectFailed }

  function UnreachableOutcome(prior: State): Outcome {
    Outcome(false, false, prior.rebootPending, false, prior.applyAttempts >= MAX_APPLY_ATTEMPTS,
            DropReason(prior), RECONNECT_BACKOFF, prior.applyAttempts, "", [], [], prior.passwordHash, false)
  }

  function UnsupportedOutcome(prior: State): Outcome {
    Outcome(false, false, false, false, false, UnsupportedTransportReason, DRIFT_CHECK_INTERVAL,
            prior.applyAttempts, "", [], [], prior.passwordHash, false)
  }

  /** The node id the exporter put in its export, "" when it did not. */
  function ExportedNodeId(live: Config): string {
    if "nodeId" in live && live["nodeId"].Scalar? then live["nodeId"].text else ""
  }

  function Identity(live: Config, info: Reply<string>): Reply<string> {
    if ExportedNodeId(live) != "" then Answer(ExportedNodeId(live)) else info
  }

  // ----- What the step sees

  predicate WriteOnlyDrift(sha: Sha, desired: Config, prior: State) {
    WriteOnlyPasswordHash(sha, desired) != "" && WriteOnlyPasswordHash(sha, desired) != prior.passwordHash
  }

  function ScalarDrift(sha: Sha, desired: Config, prior: State, drift: seq<string>): seq<string> {
    drift + if WriteOnlyDrift(sha, desired, prior) then ["module_config.mqtt.password"] else []
  }

  predicate ChannelsUnknown(chans: DesiredChannels, live: Config) {
    chans.compare != [] && !ChannelSetPresent(live)
  }

  function ChannelDriftSeen(sha: Sha, chans: DesiredChannels, live: Config): seq<string> {
    if ChannelsUnknown(chans, live) then [] else ChannelDrift(chans.compare, LiveChannels(sha, live))
  }

  function Decide(sha: Sha, desired: Config, chans: DesiredChannels, prior: State, live: Config,
                  drift: seq<string>): Action {
    var scalarConverged := ScalarDrift(sha, desired, prior, drift) == [];
    var channelsConverged := !ChannelsUnknown(chans, live) && ChannelDriftSeen(sha, chans, live) == [];
    if scalarConverged && channelsConverged then ReportReady
    else if ChannelsUnknown(chans, live) && scalarConverged then ReportUnobserved
    else if prior.applyAttempts >= MAX_APPLY_ATTEMPTS then GiveUp
    else if !scalarConverged then WriteConfig
    else WriteChannels
  }

  /** What a step does, given the device's answers and what Drift said of the export. */
  function ActionOf(sha: Sha, desired: Config, chans: DesiredChannels, prior: State, a: Answers,
                    drift: seq<string>): Action {
    if a.exported.Error? || Identity(a.exported.value, a.info).Error? then NoContact
    else Decide(sha, desired, chans, prior, a.exported.value, drift)
  }

  predicate Writes(action: Action) { action.WriteConfig? || action.WriteChannels? }

  /** The calls a step makes, in order. */
  function Calls(sha: Sha, desired: Config, chans: DesiredChannels, prior: State, a: Answers,
                 drift: seq<string>): seq<Call> {
    [ExportCall]
    + (if a.exported.Answer? && ExportedNodeId(a.exported.value) == "" then [InfoCall] else [])
    + WriteCalls(desired, chans, a, ActionOf(sha, desired, chans, prior, a, drift))
  }

  function WriteCalls(desired: Config, chans: DesiredChannels, a: Answers, action: Action): seq<Call> {
    (if action.WriteConfig? then [ApplyCall(desired)]
     else if action.WriteChannels? then [ApplyChannelsCall(chans.write)]
     else [])
    + if Writes(action) && a.write.Answer? then [RebootCall] else []
  }

  // ----- What the step reports

  /** What was seen of the device this step. */
  datatype Sight = Sight(live: Config, id: string, drift: seq<string>)

  function AllDrift(sha: Sha, desired: Config, chans: DesiredChannels, prior: State, s: Sight): seq<string> {
    ScalarDrift(sha, desired, prior, s.drift) + ChannelDriftSeen(sha, chans, s.live)
  }

  function DroppedWriteOutcome(prior: State): Outcome {
    Outcome(false, false, true, false, false, ConfigApplied, REBOOT_WAIT, prior.applyAttempts + 1,
            "", [], [], prior.passwordHash, false)
  }

  function WrittenOutcome(sha: Sha, desired: Config, chans: DesiredChannels, prior: State, s: Sight,
                          action: Action): Outcome {
    Outcome(true, action.WriteChannels?, true, false, false, ConfigApplied, REBOOT_WAIT,
            prior.applyAttempts + 1, s.id, LiveChannels(sha, s.live), AllDrift(sha, desired, chans, prior, s),
            if action.WriteConfig? then WriteOnlyPasswordHash(sha, desired) else prior.passwordHash,
            ChannelsUnknown(chans, s.live))
  }

  function ReadyOutcome(sha: Sha, desired: Config, s: Sight): Outcome {
    Outcome(true, true, false, true, false, InSync, DRIFT_CHECK_INTERVAL, 0, s.id,
            LiveChannels(sha, s.live), [], WriteOnlyPasswordHash(sha, desired), false)
  }

  function UnobservedOutcome(sha: Sha, prior: State, s: Sight): Outcome {
    Outcome(true, true, false, false, false, ChannelsUnobserved, RECONNECT_BACKOFF, prior.applyAttempts, s.id,
            LiveChannels(sha, s.live), [], prior.passwordHash, true)
  }

  function GivenUpOutcome(sha: Sha, desired: Config, chans: DesiredChannels, prior: State, s: Sight): Outcome {
    Outcome(true, false, false, false, true, ApplyFailed, DRIFT_CHECK_INTERVAL, prior.applyAttempts, s.id,
            LiveChannels(sha, s.live), AllDrift(sha, desired, chans, prior, s), prior.passwordHash,
            ChannelsUnknown(chans, s.live))
  }

  function SeenResult(sha: Sha, desired: Config, chans: DesiredChannels, prior: State, s: Sight, write: Reply<()>,
                      action: Action): StepResult {
    match action
    case NoContact => Stepped(UnreachableOutcome(prior))
    case ReportReady => Stepped(if s.id == "" then UnreachableOutcome(prior) else ReadyOutcome(sha, desired, s))
    case ReportUnobserved => Stepped(UnobservedOutcome(sha, prior, s))
    case GiveUp => Stepped(GivenUpOutcome(sha, desired, chans, prior, s))
    case _ =>
      match write
      case Answer(_) => Stepped(WrittenOutcome(sha, desired, chans, prior, s, action))
      case Error(e) => if IsTransientDrop(e) then Stepped(DroppedWriteOutcome(prior)) else Failed(e)
  }

  function Refused(e: DeviceError, prior: State): StepResult {
    if IsTransientDrop(e) then Stepped(UnreachableOutcome(prior)) else Failed(e)
  }

  /** The result of one step. */
  function Step(sha: Sha, desired: Config, chans: DesiredChannels, prior: State, a: Answers,
                drift: seq<string>): StepResult {
    match a.exported
    case Error(e) => if e == UnsupportedTransport then Stepped(UnsupportedOutcome(prior)) else Refused(e, prior)
    case Answer(live) =>
      match Identity(live, a.info)
      case Error(e) => Refused(e, prior)
      case Answer(id) =>
        SeenResult(sha, desired, chans, prior, Sight(live, id, drift), a.write,
                   Decide(sha, desired, chans, prior, live, drift))
  }

  /** A write was attempted and reached the device, or may have: it was answered, or
      the session dropped. */
  predicate CountedWrite(action: Action, write: Reply<()>) {
    Writes(action) && (write.Answer? || write.error == Unreachable || write.error == DeadlineExceeded)
  }

  // ----- The step, case by case

  /** The step reports a device that did not answer, and forgets nothing. */
  predicate Waits(prior: State, r: StepResult) {
    && r.Stepped? && !r.outcome.reachable && !r.outcome.configInSync && !r.outcome.ready
    && r.outcome.rebootPending == prior.rebootPending && r.outcome.applyAttempts == prior.applyAttempts
    && r.outcome.passwordHash == prior.passwordHash && r.outcome.nodeId == "" && !r.outcome.channelsUnobserved
    && (r.outcome.degraded <==> prior.applyAttempts >= 5)
    && r.outcome.reason == (if prior.rebootPending then ConfigApplied else ConnectFailed)
    && r.outcome.requeueSeconds == 10
  }

  /** The export names the node. */
  predicate NamesNode(live: Config, id: string) { id != "" && "nodeId" in live && live["nodeId"] == Scalar(id) }

  /** An export that does not answer, error by error: a device that is away or too slow is
      waited for, one that cannot be spoken to at all is reported so, and anything else is
      an error. Nothing else is asked of the device. */
  lemma ExportErrors(sha: Sha, desired: Config, chans: DesiredChannels, prior: State, a: Answers, drift: seq<string>)
    requires a.exported.Error?
    ensures Calls(sha, desired, chans, prior, a, drift) == [ExportCall]
    ensures var r := Step(sha, desired, chans, prior, a, drift);
      match a.exported.error
      case Unreachable => Waits(prior, r)
      case DeadlineExceeded => Waits(prior, r)
      case UnsupportedTransport =>
        r == Stepped(Outcome(false, false, false, false, false, UnsupportedTransportReason, 300, prior.applyAttempts,
                             "", [], [], prior.passwordHash, false))
      case Other(_) => r == Failed(a.exported.error)
  {
    hide Decide, WriteOnlyPasswordHash;
  }

  /** The same for a node id that has to be asked for and does not come. */
  lemma InfoErrors(sha: Sha, desired: Config, chans: DesiredChannels, prior: State, a: Answers, drift: seq<string>)
    requires a.exported.Answer? && (forall id :: !NamesNode(a.exported.value, id)) && a.info.Error?
    ensures Calls(sha, desired, chans, prior, a, drift) == [ExportCall, InfoCall]
    ensures var r := Step(sha, desired, chans, prior, a, drift);
      match a.info.error
      case Unreachable => Waits(prior, r)
      case DeadlineExceeded => Waits(prior, r)
      case UnsupportedTransport => r == Failed(UnsupportedTransport)
      case Other(_) => r == Failed(a.info.error)
  {
    NodeIdExact(a.exported.value, "");
    hide Decide, WriteOnlyPasswordHash, ExportedNodeId;
  }

  lemma NodeIdExact(live: Config, id: string)
    ensures ExportedNodeId(live) == "" <==> forall i :: !NamesNode(live, i)
    ensures NamesNode(live, id) ==> ExportedNodeId(live) == id
  {
    if ExportedNodeId(live) != "" { assert NamesNode(live, ExportedNodeId(live)); }
  }

  /** The node id a step works with: the export's own, or else the one asked for. */
  ghost predicate KnownAs(a: Answers, id: string) {
    && a.exported.Answer?
    && (NamesNode(a.exported.value, id) || ((forall i :: !NamesNode(a.exported.value, i)) && a.info == Answer(id)))
  }

  /** The hash the declared password is recorded by. */
  function PasswordDigest(sha: Sha, desired: Config): string {
    if Password(desired) == "" then "" else sha(Password(desired))
  }

  predicate NewPassword(sha: Sha, desired: Config, prior: State) {
    PasswordDigest(sha, desired) != "" && PasswordDigest(sha, desired) != prior.passwordHash
  }

  /** No scalar to write: Drift found nothing, and the declared password, if any, is the
      recorded one. */
  predicate ScalarsMatch(sha: Sha, desired: Config, prior: State, drift: seq<string>) {
    drift == [] && !NewPassword(sha, desired, prior)
  }

  /** Every declared channel sits in its slot of the exported list. */
  predicate ChannelsMatch(sha: Sha, chans: DesiredChannels, live: Config) {
    chans.compare == [] ||
    ("channels" in live && live["channels"].ChannelList?
     && forall c :: c in chans.compare ==> Slot(LiveChannels(sha, live), c.index) == Some(c))
  }

  /** Channels are declared and the export lists none at all. */
  predicate ChannelsUnseen(chans: DesiredChannels, live: Config) {
    chans.compare != [] && !("channels" in live && live["channels"].ChannelList?)
  }

  /** There is something to write. */
  predicate NeedsWrite(sha: Sha, desired: Config, chans: DesiredChannels, prior: State, live: Config,
                       drift: seq<string>) {
    || !ScalarsMatch(sha, desired, prior, drift)
    || (!ChannelsMatch(sha, chans, live) && !ChannelsUnseen(chans, live))
  }

  lemma ChannelsDecided(sha: Sha, chans: DesiredChannels, live: Config)
    ensures ChannelsUnknown(chans, live) <==> ChannelsUnseen(chans, live)
    ensures ChannelsMatch(sha, chans, live)
          <==> !ChannelsUnknown(chans, live) && ChannelDriftSeen(sha, chans, live) == []
  {
    ChannelDriftEmpty(chans.compare, LiveChannels(sha, live));
    hide LiveChannels, ChannelDrift, Slot;
  }

  /** What a step decides from an export: the source's branches in its own terms. */
  lemma DecisionExact(sha: Sha, desired: Config, chans: DesiredChannels, prior: State, live: Config, drift: seq<string>)
    ensures Decide(sha, desired, chans, prior, live, drift) ==
      if NeedsWrite(sha, desired, chans, prior, live, drift) then
        if prior.applyAttempts >= 5 then GiveUp
        else if ScalarsMatch(sha, desired, prior, drift) then WriteChannels
        else WriteConfig
      else if ChannelsUnseen(chans, live) then ReportUnobserved
      else ReportReady
    ensures WriteOnlyPasswordHash(sha, desired) == PasswordDigest(sha, desired)
    ensures ChannelsUnknown(chans, live) <==> ChannelsUnseen(chans, live)
  {
    ChannelsDecided(sha, chans, live);
    hide LiveChannels, ChannelDrift, Slot, Password, ChannelsMatch, ChannelsUnseen, ChannelsUnknown, ChannelDriftSeen;
  }

  /** The calls made before anything is written. */
  ghost predicate AsksFirst(live: Config, calls: seq<Call>) {
    calls == if exists id :: NamesNode(live, id) then [ExportCall] else [ExportCall, InfoCall]
  }

  lemma FirstCalls(sha: Sha, desired: Config, chans: DesiredChannels, prior: State, a: Answers, drift: seq<string>,
                   id: string) returns (asked: seq<Call>)
    requires KnownAs(a, id)
    ensures AsksFirst(a.exported.value, asked)
    ensures var action := Decide(sha, desired, chans, prior, a.exported.value, drift);
      && Calls(sha, desired, chans, prior, a, drift) == asked + WriteCalls(desired, chans, a, action)
      && Step(sha, desired, chans, prior, a, drift) ==
           SeenResult(sha, desired, chans, prior, Sight(a.exported.value, id, drift), a.write, action)
  {
    var live := a.exported.value;
    NodeIdExact(live, id);
    asked := if ExportedNodeId(live) == "" then [ExportCall, InfoCall] else [ExportCall];
    hide Decide, SeenResult, WriteCalls, ExportedNodeId;
    assert [ExportCall] + [InfoCall] == [ExportCall, InfoCall];
    assert [ExportCall] + [] == [ExportCall];
  }

  lemma QuietResult(sha: Sha, desired: Config, chans: DesiredChannels, prior: State, s: Sight, write: Reply<()>)
    ensures SeenResult(sha, desired, chans, prior, s, write, ReportUnobserved) ==
      Stepped(Outcome(true, true, false, false, false, ChannelsUnobserved, 10, prior.applyAttempts, s.id,
                      LiveChannels(sha, s.live), [], prior.passwordHash, true))
    ensures s.id == "" ==> Waits(prior, SeenResult(sha, desired, chans, prior, s, write, ReportReady))
    ensures s.id != "" ==>
      SeenResult(sha, desired, chans, prior, s, write, ReportReady) ==
        Stepped(Outcome(true, true, false, true, false, InSync, 300, 0, s.id,
                        LiveChannels(sha, s.live), [], WriteOnlyPasswordHash(sha, desired), false))
    ensures SeenResult(sha, desired, chans, prior, s, write, GiveUp) ==
      Stepped(Outcome(true, false, false, false, true, ApplyFailed, 300, prior.applyAttempts, s.id,
                      LiveChannels(sha, s.live), AllDrift(sha, desired, chans, prior, s),
                      prior.passwordHash, ChannelsUnknown(chans, s.live)))
  {
    hide LiveChannels, AllDrift, WriteOnlyPasswordHash, ChannelsUnknown;
  }

  lemma QuietCalls(desired: Config, chans: DesiredChannels, a: Answers, asked: seq<Call>)
    ensures forall action :: !Writes(action) ==> asked + WriteCalls(desired, chans, a, action) == asked
    ensures !Writes(ReportReady) && !Writes(ReportUnobserved) && !Writes(GiveUp)
  {
  }

  lemma UnseenIsEmpty(sha: Sha, chans: DesiredChannels, live: Config)
    ensures ChannelsUnseen(chans, live) ==> LiveChannels(sha, live) == []
  {
    hide SortByIndex, NormalizeLive;
  }

  /** With nothing to write the step only looks: it reports Ready, unless the node has no
      name, in which case it waits, or its channels cannot be seen. */
  lemma NothingToWrite(sha: Sha, desired: Config, chans: DesiredChannels, prior: State, a: Answers, drift: seq<string>,
                       id: string)
    requires KnownAs(a, id) && !NeedsWrite(sha, desired, chans, prior, a.exported.value, drift)
    ensures AsksFirst(a.exported.value, Calls(sha, desired, chans, prior, a, drift))
    ensures var live, r := a.exported.value, Step(sha, desired, chans, prior, a, drift);
      if ChannelsUnseen(chans, live) then
        r == Stepped(Outcome(true, true, false, false, false, ChannelsUnobserved, 10, prior.applyAttempts, id,
                             [], [], prior.passwordHash, true))
      else if id == "" then Waits(prior, r)
      else
        r == Stepped(Outcome(true, true, false, true, false, InSync, 300, 0, id,
                             LiveChannels(sha, live), [], PasswordDigest(sha, desired), false))
  {
    var live := a.exported.value;
    var asked := FirstCalls(sha, desired, chans, prior, a, drift, id);
    DecisionExact(sha, desired, chans, prior, live, drift);
    QuietResult(sha, desired, chans, prior, Sight(live, id, drift), a.write);
    QuietCalls(desired, chans, a, asked);
    UnseenIsEmpty(sha, chans, live);
    hide *;
  }

  /** The drift a step reports, surface by surface. */
  function DriftReport(sha: Sha, desired: Config, chans: DesiredChannels, prior: State, live: Config,
                       drift: seq<string>): seq<string> {
    drift + (if NewPassword(sha, desired, prior) then ["module_config.mqtt.password"] else [])
    + if ChannelsUnseen(chans, live) then [] else ChannelDrift(chans.compare, LiveChannels(sha, live))
  }

  lemma ReportExact(sha: Sha, desired: Config, chans: DesiredChannels, prior: State, s: Sight)
    ensures AllDrift(sha, desired, chans, prior, s) == DriftReport(sha, desired, chans, prior, s.live, s.drift)
  {
    DecisionExact(sha, desired, chans, prior, s.live, s.drift);
    hide ChannelDrift, LiveChannels, WriteOnlyPasswordHash, PasswordDigest, ChannelsUnknown, ChannelsUnseen;
  }

  /** After five attempts a device that still needs a write is Degraded and left alone. */
  lemma TooManyAttempts(sha: Sha, desired: Config, chans: DesiredChannels, prior: State, a: Answers,
                        drift: seq<string>, id: string)
    requires KnownAs(a, id) && NeedsWrite(sha, desired, chans, prior, a.exported.value, drift)
    requires prior.applyAttempts >= 5
    ensures AsksFirst(a.exported.value, Calls(sha, desired, chans, prior, a, drift))
    ensures var live := a.exported.value;
      Step(sha, desired, chans, prior, a, drift) ==
        Stepped(Outcome(true, false, false, false, true, ApplyFailed, 300, prior.applyAttempts, id,
                        LiveChannels(sha, live), DriftReport(sha, desired, chans, prior, live, drift),
                        prior.passwordHash, ChannelsUnseen(chans, live)))
  {
    var live := a.exported.value;
    var asked := FirstCalls(sha, desired, chans, prior, a, drift, id);
    DecisionExact(sha, desired, chans, prior, live, drift);
    ReportExact(sha, desired, chans, prior, Sight(live, id, drift));
    QuietResult(sha, desired, chans, prior, Sight(live, id, drift), a.write);
    QuietCalls(desired, chans, a, asked);
    hide *;
  }

  lemma WriteResult(sha: Sha, desired: Config, chans: DesiredChannels, prior: State, s: Sight, write: Reply<()>,
                    action: Action)
    requires action == WriteConfig || action == WriteChannels
    ensures var r := SeenResult(sha, desired, chans, prior, s, write, action);
      var dropped := Stepped(Outcome(false, false, true, false, false, ConfigApplied, 25, prior.applyAttempts + 1,
                                     "", [], [], prior.passwordHash, false));
      match write
      case Answer(_) =>
        r == Stepped(Outcome(true, action == WriteChannels, true, false, false, ConfigApplied, 25,
                             prior.applyAttempts + 1, s.id, LiveChannels(sha, s.live),
                             AllDrift(sha, desired, chans, prior, s),
                             if action == WriteChannels then prior.passwordHash
                                 else WriteOnlyPasswordHash(sha, desired),
                             ChannelsUnknown(chans, s.live)))
      case Error(e) => r == if e == Unreachable || e == DeadlineExceeded then dropped else Failed(e)
  {
    hide LiveChannels, AllDrift, WriteOnlyPasswordHash, ChannelsUnknown;
  }

  lemma WrittenCalls(desired: Config, chans: DesiredChannels, a: Answers, action: Action, asked: seq<Call>)
    requires action == WriteConfig || action == WriteChannels
    ensures var write := if action == WriteChannels then ApplyChannelsCall(chans.write) else ApplyCall(desired);
      asked + WriteCalls(desired, chans, a, action) == asked + if a.write.Answer? then [write, RebootCall] else [write]
  {
  }

  /** Before that one surface is written, scalars first. An answered write is followed by a
      reboot; a write that found the device away or ran into its deadline may have landed,
      so it counts as an attempt too, but records no password; any other error is one. */
  lemma WriteOutcomes(sha: Sha, desired: Config, chans: DesiredChannels, prior: State, a: Answers, drift: seq<string>,
                      id: string) returns (asked: seq<Call>)
    requires KnownAs(a, id) && NeedsWrite(sha, desired, chans, prior, a.exported.value, drift)
    requires prior.applyAttempts < 5
    ensures AsksFirst(a.exported.value, asked)
    ensures var live, scalars := a.exported.value, ScalarsMatch(sha, desired, prior, drift);
      var calls, r := Calls(sha, desired, chans, prior, a, drift), Step(sha, desired, chans, prior, a, drift);
      var write := if scalars then ApplyChannelsCall(chans.write) else ApplyCall(desired);
      var dropped := Stepped(Outcome(false, false, true, false, false, ConfigApplied, 25, prior.applyAttempts + 1,
                                     "", [], [], prior.passwordHash, false));
      match a.write
      case Answer(_) =>
        && calls == asked + [write, RebootCall]
        && r == Stepped(Outcome(true, scalars, true, false, false, ConfigApplied, 25, prior.applyAttempts + 1, id,
                                LiveChannels(sha, live), DriftReport(sha, desired, chans, prior, live, drift),
                                if scalars then prior.passwordHash else PasswordDigest(sha, desired),
                                ChannelsUnseen(chans, live)))
      case Error(e) =>
        && calls == asked + [write]
        && match e
           case Unreachable => r == dropped
           case DeadlineExceeded => r == dropped
           case UnsupportedTransport => r == Failed(UnsupportedTransport)
           case Other(_) => r == Failed(e)
  {
    var live, scalars := a.exported.value, ScalarsMatch(sha, desired, prior, drift);
    asked := FirstCalls(sha, desired, chans, prior, a, drift, id);
    DecisionExact(sha, desired, chans, prior, live, drift);
    ReportExact(sha, desired, chans, prior, Sight(live, id, drift));
    var action := if scalars then WriteChannels else WriteConfig;
    WriteResult(sha, desired, chans, prior, Sight(live, id, drift), a.write, action);
    WrittenCalls(desired, chans, a, action, asked);
    hide *;
  }

  /** What counts as a write is what was called as one: an attempt is a write call that was
      answered, or ended in the device being away or the deadline passing. */
  lemma CountedIsCalled(sha: Sha, desired: Config, chans: DesiredChannels, prior: State, a: Answers, drift: seq<string>)
    ensures CountedWrite(ActionOf(sha, desired, chans, prior, a, drift), a.write) <==>
      && (a.write.Answer? || a.write.error == Unreachable || a.write.error == DeadlineExceeded)
      && exists c :: c in Calls(sha, desired, chans, prior, a, drift) && IsWrite(c)
  {
    var action := ActionOf(sha, desired, chans, prior, a, drift);
    hide ActionOf, ExportedNodeId;
    var calls := Calls(sha, desired, chans, prior, a, drift);
    if action.WriteConfig? { assert ApplyCall(desired) in calls; }
    if action.WriteChannels? { assert ApplyChannelsCall(chans.write) in calls; }
  }

  predicate IsWrite(c: Call) { c.ApplyCall? || c.ApplyChannelsCall? }

  // ----- The step itself, on any device

  /** A device client that gives the answers it was made with, whatever they are, and
      records the calls made on it. */
  class Client {
    const answers: Answers
    var calls: seq<Call>

    constructor (answers: Answers)
      ensures this.answers == answers && calls == []
    {
      this.answers, calls := answers, [];
    }

    method ExportConfig() returns (r: Reply<Config>)
      modifies this
      ensures calls == old(calls) + [ExportCall] && r == answers.exported
    {
      calls, r := calls + [ExportCall], answers.exported;
    }

    method Info() returns (r: Reply<string>)
      modifies this
      ensures calls == old(calls) + [InfoCall] && r == answers.info
    {
      calls, r := calls + [InfoCall], answers.info;
    }

    method Apply(desired: Config) returns (r: Reply<()>)
      modifies this
      ensures calls == old(calls) + [ApplyCall(desired)] && r == answers.write
    {
      calls, r := calls + [ApplyCall(desired)], answers.write;
    }

    method ApplyChannels(writes: seq<ChannelWrite>) returns (r: Reply<()>)
      modifies this
      ensures calls == old(calls) + [ApplyChannelsCall(writes)] && r == answers.write
    {
      calls, r := calls + [ApplyChannelsCall(writes)], answers.write;
    }

    method Reboot() returns (r: Reply<()>)
      modifies this
      ensures calls == old(calls) + [RebootCall] && r == answers.reboot
    {
      calls, r := calls + [RebootCall], answers.reboot;
    }
  }

  /** `r` is the result of a step, and `calls` are the calls it made, for one of the
      verdicts Drift may give on the export. */
  ghost predicate IsStep(sha: Sha, desired: Config, chans: DesiredChannels, prior: State, a: Answers,
                         drift: seq<string>, r: StepResult, calls: seq<Call>)
  {
    && (a.exported.Answer? ==> DriftVerdict(ForComparison(desired), a.exported.value, drift))
    && r == Step(sha, desired, chans, prior, a, drift)
    && calls == Calls(sha, desired, chans, prior, a, drift)
  }

  method Converge(sha: Sha, dev: Client, desired: Config, chans: DesiredChannels, prior: State) returns (r: StepResult)
    requires dev.calls == []
    modifies dev
    ensures exists drift :: IsStep(sha, desired, chans, prior, dev.answers, drift, r, dev.calls)
  {
    hide ChannelDrift, Decide, DriftVerdict, ExportedNodeId, ForComparison, Refused, UnsupportedOutcome, WriteCalls,
         SeenResult;
    var exported := dev.ExportConfig();
    if exported.Error? {
      r := if exported.error == UnsupportedTransport then Stepped(UnsupportedOutcome(prior))
          else Refused(exported.error, prior);
      NoWriteCalls(desired, chans, dev.answers, NoContact);
      assert IsStep(sha, desired, chans, prior, dev.answers, [], r, dev.calls);
      return;
    }
    var live := exported.value;
    var id := Identify(dev, live);
    var drift := Drift(ForComparison(desired), live);
    if id.Error? {
      NoWriteCalls(desired, chans, dev.answers, NoContact);
      r := Refused(id.error, prior);
    } else {
      r := ConvergeSeen(sha, dev, desired, chans, prior, Sight(live, id.value, drift));
    }
    assert IsStep(sha, desired, chans, prior, dev.answers, drift, r, dev.calls);
  }

  lemma NoWriteCalls(desired: Config, chans: DesiredChannels, a: Answers, action: Action)
    ensures !Writes(action) ==> WriteCalls(desired, chans, a, action) == []
  {
  }

  /** The node id from the export, or from the separate identity call. */
  method Identify(dev: Client, live: Config) returns (id: Reply<string>)
    modifies dev
    ensures id == Identity(live, dev.answers.info)
    ensures dev.calls == old(dev.calls) + if ExportedNodeId(live) == "" then [InfoCall] else []
  {
    id := Answer(ExportedNodeId(live));
    if id.value == "" {
      id := dev.Info();
    }
  }

  /** The second half of Converge: the device has answered its export and identity. */
  method ConvergeSeen(sha: Sha, dev: Client, desired: Config, chans: DesiredChannels, prior: State, s: Sight)
    returns (r: StepResult)
    modifies dev
    ensures var action := Decide(sha, desired, chans, prior, s.live, s.drift);
            && r == SeenResult(sha, desired, chans, prior, s, dev.answers.write, action)
            && dev.calls == old(dev.calls) + WriteCalls(desired, chans, dev.answers, action)
  {
    hide ChannelDrift, WriteOnlyPasswordHash, ChannelSetPresent, ScalarDrift, ChannelDriftSeen, UnreachableOutcome,
         LiveChannels;
    var scalarDrift := CompareScalars(sha, desired, prior, s);
    var liveChannels := ReadLiveChannels(sha, s.live);
    var channelsUnknown := |chans.compare| > 0 && !ChannelSetPresent(s.live);
    var channelDrift := CompareChannelSet(sha, chans, s.live, liveChannels);
    var scalarConverged := scalarDrift == [];
    var channelsConverged := !channelsUnknown && channelDrift == [];
    if scalarConverged && channelsConverged {
      if s.id == "" {
        return Stepped(UnreachableOutcome(prior));
      }
      return Stepped(Outcome(true, true, false, true, false, InSync, DRIFT_CHECK_INTERVAL, 0, s.id,
                             liveChannels, [], WriteOnlyPasswordHash(sha, desired), false));
    }
    if channelsUnknown && scalarConverged {
      return Stepped(Outcome(true, true, false, false, false, ChannelsUnobserved, RECONNECT_BACKOFF,
                             prior.applyAttempts, s.id, liveChannels, [], prior.passwordHash, true));
    }
    if prior.applyAttempts >= MAX_APPLY_ATTEMPTS {
      return Stepped(Outcome(true, scalarConverged && channelsConverged, false, false, true, ApplyFailed,
                             DRIFT_CHECK_INTERVAL, prior.applyAttempts, s.id, liveChannels, scalarDrift + channelDrift,
                             prior.passwordHash, channelsUnknown));
    }
    r := WriteSurface(sha, dev, desired, chans, prior, s, !scalarConverged);
  }

  method CompareScalars(sha: Sha, desired: Config, prior: State, s: Sight) returns (scalarDrift: seq<string>)
    ensures scalarDrift == ScalarDrift(sha, desired, prior, s.drift)
    ensures scalarDrift == [] ==> !WriteOnlyDrift(sha, desired, prior)
  {
    var passwordHash := WriteOnlyPasswordHash(sha, desired);
    scalarDrift := s.drift;
    if passwordHash != "" && passwordHash != prior.passwordHash {
      scalarDrift := scalarDrift + ["module_config.mqtt.password"];
    }
  }

  method CompareChannelSet(sha: Sha, chans: DesiredChannels, live: Config, liveChannels: seq<ChannelState>)
    returns (channelDrift: seq<string>)
    requires liveChannels == LiveChannels(sha, live)
    ensures channelDrift == ChannelDriftSeen(sha, chans, live)
  {
    hide ChannelDrift, LiveChannels;
    channelDrift := [];
    if |chans.compare| == 0 || ChannelSetPresent(live) {
      channelDrift := CompareChannels(chans.compare, liveChannels);
    }
  }

  /** The tail of Converge: write the drifted surface, then reboot whatever Reboot says. */
  method WriteSurface(sha: Sha, dev: Client, desired: Config, chans: DesiredChannels, prior: State, s: Sight,
                      scalar: bool)
    returns (r: StepResult)
    requires !scalar ==> !WriteOnlyDrift(sha, desired, prior)
    modifies dev
    ensures var action := if scalar then WriteConfig else WriteChannels;
            && r == SeenResult(sha, desired, chans, prior, s, dev.answers.write, action)
            && dev.calls == old(dev.calls) + WriteCalls(desired, chans, dev.answers, action)
  {
    hide WriteOnlyPasswordHash, ChannelSetPresent, ScalarDrift, ChannelDriftSeen, LiveChannels;
    var applied;
    if scalar {
      applied := dev.Apply(desired);
    } else {
      applied := dev.ApplyChannels(chans.write);
    }
    if applied.Error? {
      if IsTransientDrop(applied.error) {
        return Stepped(Outcome(false, false, true, false, false, ConfigApplied, REBOOT_WAIT,
                               prior.applyAttempts + 1, "", [], [], prior.passwordHash, false));
      }
      return Failed(applied.error);
    }
    var _ := dev.Reboot();
    var appliedHash := prior.passwordHash;
    if scalar {
      appliedHash := WriteOnlyPasswordHash(sha, desired);
    }
    var configInSync := !scalar && !WriteOnlyDrift(sha, desired, prior);
    return Stepped(Outcome(true, configInSync, true, false, false, ConfigApplied, REBOOT_WAIT, prior.applyAttempts + 1,
                           s.id, LiveChannels(sha, s.live), AllDrift(sha, desired, chans, prior, s),
                           appliedHash, ChannelsUnknown(chans, s.live)));
  }

  // ----- What one step promises of any device

  /** Ready is claimed only for a device that was seen to hold everything declared. */
  lemma ReadyMeansSeen(sha: Sha, desired: Config, chans: DesiredChannels, prior: State, a: Answers,
                       drift: seq<string>, r: StepResult)
    requires r == Step(sha, desired, chans, prior, a, drift) && r.Stepped? && r.outcome.ready
    requires a.exported.Answer? ==> DriftVerdict(ForComparison(desired), a.exported.value, drift)
    ensures a.exported.Answer?
    ensures Covered(ForComparison(desired), a.exported.value)
    ensures forall c :: c in chans.compare ==> Slot(LiveChannels(sha, a.exported.value), c.index) == Some(c)
    ensures WriteOnlyPasswordHash(sha, desired) == "" || WriteOnlyPasswordHash(sha, desired) == prior.passwordHash
    ensures r.outcome.nodeId != ""
  {
    hide LiveChannels, ChannelDrift, WriteOnlyPasswordHash, ExportedNodeId, Covered, DriftVerdict, ForComparison, Slot;
    ReadyMeansNoDrift(sha, desired, chans, prior, a, drift, r);
    VerdictMeans(ForComparison(desired), a.exported.value, drift);
    ChannelDriftEmpty(chans.compare, LiveChannels(sha, a.exported.value));
  }

  lemma ReadyMeansNoDrift(sha: Sha, desired: Config, chans: DesiredChannels, prior: State, a: Answers,
                          drift: seq<string>, r: StepResult)
    requires r == Step(sha, desired, chans, prior, a, drift) && r.Stepped? && r.outcome.ready
    ensures a.exported.Answer? && drift == [] && !WriteOnlyDrift(sha, desired, prior)
    ensures !ChannelsUnknown(chans, a.exported.value)
    ensures ChannelDrift(chans.compare, LiveChannels(sha, a.exported.value)) == []
    ensures r.outcome.nodeId != "" && ActionOf(sha, desired, chans, prior, a, drift) == ReportReady
    ensures r == Stepped(ReadyOutcome(sha, desired, Sight(a.exported.value, r.outcome.nodeId, drift)))
  {
    hide LiveChannels, ChannelDrift, WriteOnlyPasswordHash, ExportedNodeId, Decide, AllDrift, ChannelsUnknown,
         WriteOnlyDrift;
    ReadyDecision(sha, desired, chans, prior, a.exported.value, drift);
  }

  lemma ReadyDecision(sha: Sha, desired: Config, chans: DesiredChannels, prior: State, live: Config, drift: seq<string>)
    requires Decide(sha, desired, chans, prior, live, drift) == ReportReady
    ensures drift == [] && !WriteOnlyDrift(sha, desired, prior) && !ChannelsUnknown(chans, live)
    ensures ChannelDrift(chans.compare, LiveChannels(sha, live)) == []
  {
    hide LiveChannels, ChannelDrift, WriteOnlyPasswordHash;
  }

  /** What a step leaves for the next one, by what it did: the attempt counter moves by
      one on a write that may have landed, to zero on Ready, and not at all otherwise; the
      recorded password hash moves only on Ready and on an acknowledged config write. */
  ghost predicate Accounts(sha: Sha, desired: Config, prior: State, action: Action, write: Reply<()>, r: StepResult) {
    && (r.Failed? ==> !CountedWrite(action, write))
    && (r.Stepped? ==>
         && r.outcome.applyAttempts ==
              (if r.outcome.ready then 0 else prior.applyAttempts + if CountedWrite(action, write) then 1 else 0)
         && r.outcome.passwordHash ==
              (if r.outcome.ready || (action.WriteConfig? && write.Answer?) then WriteOnlyPasswordHash(sha, desired)
               else prior.passwordHash)
         && (r.outcome.ready ==> action.ReportReady? && r.outcome.reachable && r.outcome.configInSync
                                 && !r.outcome.rebootPending && !r.outcome.degraded && !r.outcome.channelsUnobserved)
         && (r.outcome.degraded ==> prior.applyAttempts >= MAX_APPLY_ATTEMPTS))
  }

  lemma StepAccounts(sha: Sha, desired: Config, chans: DesiredChannels, prior: State, a: Answers, drift: seq<string>)
    ensures var action := ActionOf(sha, desired, chans, prior, a, drift);
            && Accounts(sha, desired, prior, action, a.write, Step(sha, desired, chans, prior, a, drift))
            && (Writes(action) ==> prior.applyAttempts < MAX_APPLY_ATTEMPTS)
  {
    hide LiveChannels, ChannelDrift, WriteOnlyPasswordHash, ExportedNodeId, ScalarDrift, ChannelDriftSeen, AllDrift,
         ChannelsUnknown;
    if a.exported.Answer? && Identity(a.exported.value, a.info).Answer? {
      var s := Sight(a.exported.value, Identity(a.exported.value, a.info).value, drift);
      SeenAccounts(sha, desired, chans, prior, s, a.write, Decide(sha, desired, chans, prior, s.live, drift));
    }
  }

  lemma SeenAccounts(sha: Sha, desired: Config, chans: DesiredChannels, prior: State, s: Sight, write: Reply<()>,
                     action: Action)
    requires action.GiveUp? ==> prior.applyAttempts >= MAX_APPLY_ATTEMPTS
    ensures Accounts(sha, desired, prior, action, write, SeenResult(sha, desired, chans, prior, s, write, action))
  {
    hide LiveChannels, WriteOnlyPasswordHash, AllDrift, ChannelsUnknown;
  }
}
