/** When a Ready object's device really holds the declared password. The device never
  echoes it, so the loop trusts the hash in status; that trust is misplaced exactly when
  a write that status does not record has put another password on the device. */
module Passwords {
  import opened ConfigTree
  import opened ConfigDrift
  import opened ConfigMerge
  import opened Channels
  import opened Device
  import opened Reconcile
  import opened Controller
  import opened Runs
  import opened Desired
  import Convergence

  // ----- Two histories of a run

  /** The step's declared password becomes the recorded one. */
  predicate Records(sha: Sha, w: World, i: Input) {
    i.secrets.Resolved? && i.written
    && var Deed(action, r) := Done(sha, w, i);
       ReportsReady(r) || (action.WriteConfig? && i.answers.write.Answer?)
  }

  /** The step puts its declared password on the device. */
  predicate Lands(sha: Sha, w: World, i: Input) {
    i.secrets.Resolved? && Password(i.secrets.desired) != "" && Done(sha, w, i).action.WriteConfig?
    && (i.answers.write.Answer? || i.landed)
  }

  /** The password last recorded in status, "" when none has been. */
  function Recorded(sha: Sha, device: Config, inputs: seq<Input>): string {
    if inputs == [] then ""
    else
      var init, i := inputs[..|inputs| - 1], inputs[|inputs| - 1];
      if Records(sha, Run(sha, device, init), i) then Password(i.secrets.desired) else Recorded(sha, device, init)
  }

  /** The password last landed on the device. */
  function Landed(sha: Sha, device: Config, inputs: seq<Input>): string {
    if inputs == [] then Password(device)
    else
      var init, i := inputs[..|inputs| - 1], inputs[|inputs| - 1];
      if Lands(sha, Run(sha, device, init), i) then Password(i.secrets.desired) else Landed(sha, device, init)
  }

  ghost predicate NeverEmpty(sha: Sha) { forall x :: sha(x) != "" }

  /** No other password has this one's hash. */
  ghost predicate Unforged(sha: Sha, p: string) { forall x :: sha(x) == sha(p) ==> x == p }

  /** Every declared tree keeps its password where the operator puts it. */
  predicate Shaped(inputs: seq<Input>) {
    forall i :: i in inputs && i.secrets.Resolved? ==> KeepsPasswordShape(i.secrets.desired)
  }

  /** What a resolved step does to the recorded hash and to the device's password. */
  lemma PasswordStep(sha: Sha, w: World, i: Input)
    requires i.secrets.Resolved? && KeepsPasswordShape(i.secrets.desired)
    ensures var q, w' := Password(i.secrets.desired), ResolvedStep(sha, w, i);
            && w'.stored.lastAppliedPasswordHash ==
                 (if Records(sha, w, i) then RawPskHash(sha, q) else w.stored.lastAppliedPasswordHash)
            && Password(w'.device) == (if Lands(sha, w, i) then q else Password(w.device))
            && (ReportsReady(Done(sha, w, i).result) ==>
                 RawPskHash(sha, q) == "" || RawPskHash(sha, q) == w.stored.lastAppliedPasswordHash)
  {
    var Resolved(desired, chans) := i.secrets;
    var fp := Fingerprint(sha, desired, chans);
    var prior := PriorState(w.stored, i.generation, fp);
    var r := Step(sha, desired, chans, prior, i.answers, i.drift);
    StepAccounts(sha, desired, chans, prior, i.answers, i.drift);
    AcknowledgedIsStepped(sha, desired, chans, prior, i.answers, i.drift);
    if ReportsReady(r) {
      ReadyMeansNoDrift(sha, desired, chans, prior, i.answers, i.drift, r);
    }
    MergePassword(w.device, desired);
    ResolvedStatus(sha, w.stored, i.generation, desired, chans, i.answers, i.drift);
    hide Step, ActionOf, Fingerprint, ReconciledStatus, Merge, ChannelDrift, LiveChannels, Password, ChannelConditions,
         OutcomeConditions;
  }

  lemma AcknowledgedIsStepped(sha: Sha, desired: Config, chans: DesiredChannels, prior: State, a: Answers,
                              drift: seq<string>)
    ensures Writes(ActionOf(sha, desired, chans, prior, a, drift)) && a.write.Answer? ==>
              Step(sha, desired, chans, prior, a, drift).Stepped?
  {
    hide LiveChannels, ChannelDrift, WriteOnlyPasswordHash, ExportedNodeId, AllDrift, ScalarDrift, ChannelDriftSeen,
         ChannelsUnknown;
  }

  /** The two histories are what status and device hold. */
  lemma {:induction false} RunTracked(sha: Sha, device: Config, inputs: seq<Input>)
    requires Shaped(inputs)
    ensures Run(sha, device, inputs).stored.lastAppliedPasswordHash == RawPskHash(sha, Recorded(sha, device, inputs))
    ensures Password(Run(sha, device, inputs).device) == Landed(sha, device, inputs)
  {
    if inputs != [] {
      var init, i := inputs[..|inputs| - 1], inputs[|inputs| - 1];
      assert i in inputs;
      RunTracked(sha, device, init);
      if i.secrets.Resolved? { PasswordStep(sha, Run(sha, device, init), i); }
      hide ResolvedStep, Password, KeepsPasswordShape, Done;
    }
  }

  // ----- When Ready tells the truth

  /** If the step reports Ready for a declared password, the device holds that password. */
  predicate Truthful(sha: Sha, w: World, i: Input) {
    i.secrets.Resolved? && Password(i.secrets.desired) != "" && ReportsReady(Done(sha, w, i).result) ==>
      Password(w.device) == Password(i.secrets.desired)
  }

  /** No next step, whatever it declares and whatever the device answers, reports Ready
      for a password the device does not hold. */
  ghost predicate NeverMisleads(sha: Sha, w: World) { forall i: Input :: TrueVerdict(i) ==> Truthful(sha, w, i) }

  /** Nothing has been recorded, or what is recorded is what last landed. */
  predicate Settled(sha: Sha, device: Config, inputs: seq<Input>) {
    Recorded(sha, device, inputs) == "" || Recorded(sha, device, inputs) == Landed(sha, device, inputs)
  }

  /** A step that reports Ready for a declared password declares the recorded one, and the
      device holds it exactly when it is the one that last landed. */
  lemma PasswordSafety(sha: Sha, device: Config, inputs: seq<Input>, i: Input)
    requires NeverEmpty(sha) && Shaped(inputs) && Unforged(sha, Recorded(sha, device, inputs))
    requires i.secrets.Resolved? && Password(i.secrets.desired) != ""
    requires ReportsReady(Done(sha, Run(sha, device, inputs), i).result)
    ensures Recorded(sha, device, inputs) == Password(i.secrets.desired)
    ensures Password(Run(sha, device, inputs).device) == Password(i.secrets.desired)
       <==> Recorded(sha, device, inputs) == Landed(sha, device, inputs)
    ensures Settled(sha, device, inputs) ==> Password(Run(sha, device, inputs).device) == Password(i.secrets.desired)
  {
    RunTracked(sha, device, inputs);
    ReadyDeclaresRecorded(sha, Run(sha, device, inputs), Recorded(sha, device, inputs), i);
    hide Run, Done, Password, Recorded, Landed;
  }

  /** Exactly when status can be trusted: no next step can mislead if and only if nothing
      is recorded or the recorded password is the one that last landed. */
  lemma PasswordExact(sha: Sha, device: Config, inputs: seq<Input>)
    requires NeverEmpty(sha) && Shaped(inputs) && Unforged(sha, Recorded(sha, device, inputs))
    ensures NeverMisleads(sha, Run(sha, device, inputs)) <==> Settled(sha, device, inputs)
  {
    RunTracked(sha, device, inputs);
    var w, p := Run(sha, device, inputs), Recorded(sha, device, inputs);
    hide Run, Recorded, Landed, Done;
    if Settled(sha, device, inputs) {
      forall i: Input | TrueVerdict(i) ensures Truthful(sha, w, i) {
        if i.secrets.Resolved? { ReadyDeclaresRecorded(sha, w, p, i); }
      }
    } else {
      var i := MisleadingInput(sha, w, p);
      assert TrueVerdict(i) && !Truthful(sha, w, i);
    }
  }

  lemma ReadyDeclaresRecorded(sha: Sha, w: World, p: string, i: Input)
    requires NeverEmpty(sha) && Unforged(sha, p) && w.stored.lastAppliedPasswordHash == RawPskHash(sha, p)
    requires i.secrets.Resolved?
    ensures Password(i.secrets.desired) != "" && ReportsReady(Done(sha, w, i).result) ==>
          Password(i.secrets.desired) == p
  {
    var Resolved(desired, chans) := i.secrets;
    var prior := PriorState(w.stored, i.generation, Fingerprint(sha, desired, chans));
    var r := Step(sha, desired, chans, prior, i.answers, i.drift);
    if ReportsReady(r) {
      ReadyMeansNoDrift(sha, desired, chans, prior, i.answers, i.drift, r);
    }
    hide Step, ActionOf, Fingerprint, ChannelDrift, LiveChannels, Password;
  }

  // ----- A step that reports Ready

  /** The export shows everything declared but the password. */
  ghost predicate Shows(sha: Sha, desired: Config, chans: DesiredChannels, shown: Config) {
    && MayBeClean(ForComparison(desired), shown)
    && (chans.compare != [] ==> ChannelSetPresent(shown))
    && forall c :: c in chans.compare ==> Slot(LiveChannels(sha, shown), c.index) == Some(c)
  }

  /** An input whose device exports `shown`, is called `id`, and answers a write with `write`. */
  function Exports(generation: int, desired: Config, chans: DesiredChannels, shown: Config, id: string,
                   drift: seq<string>, write: Reply<()>, written: bool, landed: bool): Input {
    Input(generation, Resolved(desired, chans), Answers(Answer(shown), Answer(id), write, Answer(())), drift, written,
        landed)
  }

  /** With the declared password's hash on record and all else shown, the step is Ready. */
  lemma ShownIsReady(sha: Sha, w: World, i: Input, desired: Config, chans: DesiredChannels, shown: Config, id: string)
    requires i == Exports(i.generation, desired, chans, shown, id, [], i.answers.write, i.written, i.landed)
    requires Shows(sha, desired, chans, shown) && id != ""
    requires w.stored.lastAppliedPasswordHash == RawPskHash(sha, Password(desired))
    ensures ReportsReady(Done(sha, w, i).result) && TrueVerdict(i)
  {
    var prior := PriorState(w.stored, i.generation, Fingerprint(sha, desired, chans));
    assert prior.passwordHash == WriteOnlyPasswordHash(sha, desired) by { hide Password, Fingerprint, RawPskHash; }
    assert i.secrets == Resolved(desired, chans) && i.drift == [];
    assert i.answers == Answers(Answer(shown), Answer(id), i.answers.write, Answer(()));
    hide *;
    ShownVerdict(sha, i, desired, chans, shown);
    ShownDecision(sha, desired, chans, prior, shown);
    ExportedIsReady(sha, desired, chans, prior, shown, id, i.answers.write);
    DoneOf(sha, w, i, desired, chans);
  }

  lemma ShownVerdict(sha: Sha, i: Input, desired: Config, chans: DesiredChannels, shown: Config)
    requires i.secrets == Resolved(desired, chans) && i.answers.exported == Answer(shown) && i.drift == []
    requires Shows(sha, desired, chans, shown)
    ensures TrueVerdict(i)
  {
    CleanVerdict(ForComparison(desired), shown);
    hide DriftVerdict, ForComparison, MayBeClean, LiveChannels, Slot, ChannelSetPresent;
  }

  lemma ExportedIsReady(sha: Sha, desired: Config, chans: DesiredChannels, prior: State, shown: Config, id: string,
                        write: Reply<()>)
    requires Decide(sha, desired, chans, prior, shown, []) == ReportReady && id != ""
    ensures ReportsReady(Step(sha, desired, chans, prior, Answers(Answer(shown), Answer(id), write, Answer(())), []))
  {
    hide Decide, ExportedNodeId, LiveChannels, WriteOnlyPasswordHash;
  }

  lemma DoneOf(sha: Sha, w: World, i: Input, desired: Config, chans: DesiredChannels)
    requires i.secrets == Resolved(desired, chans)
    ensures var prior := PriorState(w.stored, i.generation, Fingerprint(sha, desired, chans));
            Done(sha, w, i).result == Step(sha, desired, chans, prior, i.answers, i.drift)
  {
    hide Step, ActionOf, PriorState, Fingerprint;
  }

  lemma ShownDecision(sha: Sha, desired: Config, chans: DesiredChannels, prior: State, shown: Config)
    requires Shows(sha, desired, chans, shown) && prior.passwordHash == WriteOnlyPasswordHash(sha, desired)
    ensures Decide(sha, desired, chans, prior, shown, []) == ReportReady
  {
    ChannelDriftEmpty(chans.compare, LiveChannels(sha, shown));
    hide ChannelDrift, LiveChannels, WriteOnlyPasswordHash, ForComparison, MayBeClean, Slot;
    assert ChannelDriftSeen(sha, chans, shown) == [] && !ChannelsUnknown(chans, shown);
  }

  const PLAIN_SPEC := NodeSpec("", "", "", "", None, [], Some(MqttSpec(true, "", "", false, false, false, "")))

  const NO_CHANNELS := DesiredChannels([], [])

  /** A node spec that declares the recorded password, and a device that shows the rest. */
  lemma MisleadingInput(sha: Sha, w: World, p: string) returns (i: Input)
    requires p != "" && w.stored.lastAppliedPasswordHash == RawPskHash(sha, p) && Password(w.device) != p
    ensures TrueVerdict(i) && !Truthful(sha, w, i)
  {
    var desired, shown := DesiredConfig(PLAIN_SPEC, "", p), DesiredConfig(PLAIN_SPEC, "", "");
    DesiredShape(PLAIN_SPEC, "", p);
    ComparisonIgnoresPassword(PLAIN_SPEC, "", p);
    CoveredReflexive(shown);
    SpecMayBeClean(PLAIN_SPEC, "", p, shown);
    i := Exports(1, desired, NO_CHANNELS, shown, "!6e000001", [], Answer(()), true, false);
    hide DesiredConfig, ForComparison, Covered, MayBeClean, Password, LiveChannels, Slot, Done;
    ShownIsReady(sha, w, i, desired, NO_CHANNELS, shown, "!6e000001");
  }

  // ----- Schedules under which status can be trusted

  /** A password lands and status does not come to record it. */
  predicate Unseen(sha: Sha, w: World, i: Input) { Lands(sha, w, i) && !Records(sha, w, i) }

  predicate SeenRun(sha: Sha, device: Config, inputs: seq<Input>) {
    forall n :: 0 <= n < |inputs| ==> !Unseen(sha, Run(sha, device, inputs[..n]), inputs[n])
  }

  predicate SameHash(sha: Sha, recorded: string, landed: string) {
    recorded == "" || RawPskHash(sha, recorded) == RawPskHash(sha, landed)
  }

  lemma ShapedPrefix(inputs: seq<Input>)
    requires inputs != [] && Shaped(inputs)
    ensures var i := inputs[|inputs| - 1]; i.secrets.Resolved? ==> KeepsPasswordShape(i.secrets.desired)
    ensures Shaped(inputs[..|inputs| - 1])
  {
    hide KeepsPasswordShape;
    assert inputs[|inputs| - 1] in inputs;
  }

  lemma SeenPrefix(sha: Sha, device: Config, inputs: seq<Input>)
    requires inputs != [] && SeenRun(sha, device, inputs)
    ensures var init := inputs[..|inputs| - 1];
            SeenRun(sha, device, init) && !Unseen(sha, Run(sha, device, init), inputs[|inputs| - 1])
  {
    var init := inputs[..|inputs| - 1];
    hide Unseen, Run;
    forall n | 0 <= n < |init| ensures !Unseen(sha, Run(sha, device, init[..n]), init[n]) {
      assert init[..n] == inputs[..n];
      assert !Unseen(sha, Run(sha, device, inputs[..n]), inputs[n]);
    }
  }

  /** A password recorded without landing is none, or has the hash already on record. */
  lemma SeenRecord(sha: Sha, w: World, i: Input)
    requires i.secrets.Resolved? && KeepsPasswordShape(i.secrets.desired) && NeverEmpty(sha) && !Unseen(sha, w, i)
    ensures Lands(sha, w, i) ==> Records(sha, w, i)
    ensures var q := Password(i.secrets.desired);
            Records(sha, w, i) && !Lands(sha, w, i) ==>
              q == "" || RawPskHash(sha, q) == w.stored.lastAppliedPasswordHash
  {
    PasswordStep(sha, w, i);
    hide Done, Password, KeepsPasswordShape, ResolvedStep;
  }

  lemma SeenStep(sha: Sha, device: Config, inputs: seq<Input>)
    requires inputs != [] && NeverEmpty(sha)
    requires var init, i := inputs[..|inputs| - 1], inputs[|inputs| - 1];
      && !Unseen(sha, Run(sha, device, init), i)
      && (i.secrets.Resolved? ==> KeepsPasswordShape(i.secrets.desired))
      && Run(sha, device, init).stored.lastAppliedPasswordHash == RawPskHash(sha, Recorded(sha, device, init))
      && SameHash(sha, Recorded(sha, device, init), Landed(sha, device, init))
    ensures SameHash(sha, Recorded(sha, device, inputs), Landed(sha, device, inputs))
  {
    var w, i := Run(sha, device, inputs[..|inputs| - 1]), inputs[|inputs| - 1];
    if i.secrets.Resolved? { SeenRecord(sha, w, i); }
    assert !i.secrets.Resolved? ==> !Records(sha, w, i) && !Lands(sha, w, i);
    hide Unseen, Records, Lands, Run, KeepsPasswordShape, Password;
  }

  lemma {:induction false} SeenHash(sha: Sha, device: Config, inputs: seq<Input>)
    requires NeverEmpty(sha) && Shaped(inputs) && SeenRun(sha, device, inputs)
    ensures SameHash(sha, Recorded(sha, device, inputs), Landed(sha, device, inputs))
  {
    if inputs != [] {
      ShapedPrefix(inputs);
      SeenPrefix(sha, device, inputs);
      SeenHash(sha, device, inputs[..|inputs| - 1]);
      RunTracked(sha, device, inputs[..|inputs| - 1]);
      hide *;
      SeenStep(sha, device, inputs);
    }
  }

  /** Any schedule of Secret changes can be trusted when every password that lands is
      recorded: no dropped write lands, and no status update is lost after an acknowledged
      one. Every other update may be lost. */
  lemma SeenRunIsSafe(sha: Sha, device: Config, inputs: seq<Input>)
    requires NeverEmpty(sha) && Shaped(inputs) && SeenRun(sha, device, inputs)
    requires Unforged(sha, Recorded(sha, device, inputs))
    ensures NeverMisleads(sha, Run(sha, device, inputs))
  {
    SeenHash(sha, device, inputs);
    PasswordExact(sha, device, inputs);
    hide Run, Recorded, Landed, NeverMisleads, SeenRun, Shaped;
  }

  lemma {:induction false} FixedSecretSettled(sha: Sha, device: Config, inputs: seq<Input>, q: string)
    requires NeverEmpty(sha) && Shaped(inputs)
    requires forall i :: i in inputs && i.secrets.Resolved? ==> Password(i.secrets.desired) == q
    ensures Recorded(sha, device, inputs) == "" || Recorded(sha, device, inputs) == q == Landed(sha, device, inputs)
  {
    if inputs != [] {
      var init, i := inputs[..|inputs| - 1], inputs[|inputs| - 1];
      assert i in inputs;
      FixedSecretSettled(sha, device, init, q);
      RunTracked(sha, device, init);
      if i.secrets.Resolved? { PasswordStep(sha, Run(sha, device, init), i); }
      hide Run, ResolvedStep, Password, KeepsPasswordShape, Done;
    }
  }

  /** One Secret throughout can be trusted, whatever dropped writes land and whatever
      status updates are lost. */
  lemma FixedSecretIsSafe(sha: Sha, device: Config, inputs: seq<Input>, q: string)
    requires NeverEmpty(sha) && Shaped(inputs) && Unforged(sha, Recorded(sha, device, inputs))
    requires forall i :: i in inputs && i.secrets.Resolved? ==> Password(i.secrets.desired) == q
    ensures NeverMisleads(sha, Run(sha, device, inputs))
  {
    FixedSecretSettled(sha, device, inputs, q);
    PasswordExact(sha, device, inputs);
    hide Run, Recorded, Landed, NeverMisleads, Shaped;
  }

  // ----- A schedule under which it cannot

  /** The radio already carries the declared channels. */
  ghost predicate Carries(sha: Sha, chans: DesiredChannels, device: Config) {
    && ("channels" in device ==> device["channels"].ChannelList?)
    && forall c :: c in chans.compare ==> Slot(LiveChannels(sha, Exported(device)), c.index) == Some(c)
  }

  lemma CarriesStays(sha: Sha, chans: DesiredChannels, device: Config, desired: Config)
    requires Carries(sha, chans, device) && Convergence.NamesNoChannels(desired)
    ensures Carries(sha, chans, Merge(device, desired))
  {
    Convergence.MergeKeepsChannels(device, desired);
    Convergence.ExportedChannels(device);
    Convergence.ExportedChannels(Merge(device, desired));
    hide Merge, Exported, NormalizeLive, SortByIndex, Slot;
    assert LiveChannels(sha, Exported(device)) == LiveChannels(sha, Exported(Merge(device, desired)));
  }

  /** A password whose hash is not on record is written, whatever else drifts. */
  lemma UnrecordedIsWritten(sha: Sha, w: World, i: Input, desired: Config, chans: DesiredChannels, shown: Config,
                            id: string)
    requires i == Exports(i.generation, desired, chans, shown, id, i.drift, i.answers.write, i.written, i.landed)
    requires Password(desired) != "" && RawPskHash(sha, Password(desired)) != ""
    requires w.stored.lastAppliedPasswordHash != RawPskHash(sha, Password(desired))
    requires w.stored.applyAttempts < MAX_APPLY_ATTEMPTS
    ensures Done(sha, w, i).action.WriteConfig? && !ReportsReady(Done(sha, w, i).result)
  {
    var prior := PriorState(w.stored, i.generation, Fingerprint(sha, desired, chans));
    StepAccounts(sha, desired, chans, prior, i.answers, i.drift);
    hide ChannelDriftSeen, LiveChannels, Password, Fingerprint, AllDrift, ExportedNodeId, Step, ChannelsUnknown;
    assert ScalarDrift(sha, desired, prior, i.drift) != [];
  }

  lemma AttemptsAfter(sha: Sha, w: World, i: Input)
    requires i.secrets.Resolved? && w.stored.applyAttempts >= 0
    ensures 0 <= ResolvedStep(sha, w, i).stored.applyAttempts <= w.stored.applyAttempts + 1
  {
    var Resolved(desired, chans) := i.secrets;
    StepAccounts(sha, desired, chans, PriorState(w.stored, i.generation, Fingerprint(sha, desired, chans)), i.answers,
        i.drift);
    ResolvedStatus(sha, w.stored, i.generation, desired, chans, i.answers, i.drift);
    hide Step, ActionOf, Fingerprint, ReconciledStatus, Merge, ChannelConditions, OutcomeConditions, CountedWrite;
  }

  lemma DeviceAfter(sha: Sha, w: World, i: Input)
    requires i.secrets.Resolved?
    ensures Advance(sha, w, i) == ResolvedStep(sha, w, i)
    ensures ResolvedStep(sha, w, i).device ==
      if Done(sha, w, i).action.WriteConfig?
      then WrittenConfig(w.device, i.secrets.desired, i.answers.write.Answer?, i.landed) else w.device
  {
    hide Done, ReconciledStatus, WrittenConfig, Fingerprint, CountedWrite;
  }

  /** The step writes `desired` to the device that `w` holds. */
  lemma WritesTree(sha: Sha, w: World, i: Input, desired: Config, chans: DesiredChannels, shown: Config, id: string)
    requires i == Exports(i.generation, desired, chans, shown, id, i.drift, i.answers.write, i.written, i.landed)
    requires i.answers.write.Answer? || i.landed
    requires Password(desired) != "" && RawPskHash(sha, Password(desired)) != "" && KeepsPasswordShape(desired)
    requires w.stored.lastAppliedPasswordHash != RawPskHash(sha, Password(desired))
    requires 0 <= w.stored.applyAttempts < MAX_APPLY_ATTEMPTS
    ensures var w' := Advance(sha, w, i);
            && w'.device == Merge(w.device, desired) && 0 <= w'.stored.applyAttempts <= w.stored.applyAttempts + 1
            && Password(w'.device) == Password(desired)
            && w'.stored.lastAppliedPasswordHash ==
                 (if i.written && i.answers.write.Answer? then RawPskHash(sha, Password(desired))
                  else w.stored.lastAppliedPasswordHash)
  {
    UnrecordedIsWritten(sha, w, i, desired, chans, shown, id);
    PasswordStep(sha, w, i);
    AttemptsAfter(sha, w, i);
    DeviceAfter(sha, w, i);
    hide Done, Merge, Password, KeepsPasswordShape, ResolvedStep, RawPskHash;
  }

  /** What a run declares for a node spec: its tree, and honest exports of the device. */
  function Declares(generation: int, spec: NodeSpec, address: string, p: string, chans: DesiredChannels, device: Config,
                    id: string, drift: seq<string>, write: Reply<()>, written: bool, landed: bool): Input {
    Exports(generation, DesiredConfig(spec, address, p), chans, Exported(device), id, drift, write, written, landed)
  }

  /** Rotate the Secret, lose sight of the write that carries it, and revert: the next step
      reports Ready while the device holds the rotated password. This is so for every node
      spec with MQTT enabled, every device that carries the declared channels, every two
      passwords and whatever Drift says of the first two exports. `lostUpdate` chooses
      between a write that was answered but whose status update was lost, and one that was
      dropped but landed. Every export is what the device holds at the time. */
  lemma RevertAfterUnseenWrite(sha: Sha, spec: NodeSpec, address: string, p: string, q: string, chans: DesiredChannels,
                               device: Config, id: string, generation: int, lostUpdate: bool, inputs: seq<Input>,
                               last: Input)
    requires Enabled(spec) && p != "" && q != "" && sha(p) != "" && sha(q) != "" && sha(p) != sha(q)
    requires Carries(sha, chans, device) && id != ""
    requires |inputs| == 2
    requires inputs[0] == Declares(generation, spec, address, p, chans, device, id, inputs[0].drift,
                                   Answer(()), true, false)
    requires inputs[1] == Declares(generation, spec, address, q, chans, Run(sha, device, inputs[..1]).device, id,
                                   inputs[1].drift, if lostUpdate then Answer(()) else Error(Unreachable),
                                   !lostUpdate, !lostUpdate)
    requires last == Declares(generation, spec, address, p, chans, Run(sha, device, inputs).device, id, [],
                              Answer(()), true, false)
    ensures TrueVerdict(last) && ReportsReady(Done(sha, Run(sha, device, inputs), last).result)
    ensures Password(Run(sha, device, inputs).device) == q && Password(last.secrets.desired) == p
  {
    var dp, dq := DesiredConfig(spec, address, p), DesiredConfig(spec, address, q);
    DesiredShape(spec, address, p);
    DesiredShape(spec, address, q);
    SpecNamesNoChannels(spec, address, p);
    SpecNamesNoChannels(spec, address, q);
    ComparisonIgnoresPassword(spec, address, p);
    ComparisonIgnoresPassword(spec, address, q);
    var w0, w1, w2 := Start(device), Run(sha, device, inputs[..1]), Run(sha, device, inputs);
    RunOfTwo(sha, device, inputs);
    hide Run, Advance, Password, DesiredConfig, KeepsPasswordShape, Merge, Exported, ForComparison, Carries, Done,
         Covered, MayBeClean, TrueVerdict, Convergence.NamesNoChannels;
    WritesTree(sha, w0, inputs[0], dp, chans, Exported(device), id);
    WritesTree(sha, w1, inputs[1], dq, chans, Exported(w1.device), id);
    CarriesStays(sha, chans, device, dp);
    CarriesStays(sha, chans, w1.device, dq);
    Convergence.ExportCovers(w1.device, dq);
    SpecMayBeClean(spec, address, p, Exported(w2.device));
    CarriedIsShown(sha, dp, chans, w2.device);
    ShownIsReady(sha, w2, last, dp, chans, Exported(w2.device), id);
  }

  lemma RunOfTwo(sha: Sha, device: Config, inputs: seq<Input>)
    requires |inputs| == 2
    ensures Run(sha, device, inputs[..1]) == Advance(sha, Start(device), inputs[0])
    ensures Run(sha, device, inputs) == Advance(sha, Run(sha, device, inputs[..1]), inputs[1])
  {
    assert inputs[..1][..0] == [];
    assert Run(sha, device, []) == Start(device);
    hide Advance;
  }

  lemma CarriedIsShown(sha: Sha, desired: Config, chans: DesiredChannels, device: Config)
    requires Carries(sha, chans, device) && MayBeClean(ForComparison(desired), Exported(device))
    ensures Shows(sha, desired, chans, Exported(device))
  {
    Convergence.ExportedChannels(device);
    hide LiveChannels, Slot, MayBeClean, ForComparison, Exported;
  }
}
