/** Whole runs of the controller on one object, against any device: the bound on
  writes, and what Ready implies in every reachable state. */
module Runs {
  import opened ConfigTree
  import opened ConfigDrift
  import opened ConfigMerge
  import opened Channels
  import opened Device
  import opened Reconcile
  import opened Controller

  /** One reconcile: what the object and its Secrets declare, what the device answers,
      whether the status update went through, and whether a config write that was not
      acknowledged landed all the same. */
  datatype Input = Input(generation: int, secrets: Secrets, answers: Answers, drift: seq<string>, written: bool,
                         landed: bool)

  /** What a step was found to do. */
  datatype Deed = Deed(action: Action, result: StepResult)

  /** The stored status, the device, and the history so far: the last generation and
      fingerprint seen, how many writes may have landed, how many steps reported Ready,
      how often generation or fingerprint changed, how many status updates were lost
      after such a write; and whether the last recorded step declared channels. */
  datatype World = World(
    stored: Status, device: Config, seen: Option<(int, string)>,
    writes: nat, readies: nat, changes: nat, lost: nat,
    declaredChannels: bool)

  function Start(device: Config): World { World(FRESH, device, None, 0, 0, 0, 0, false) }

  function Done(sha: Sha, w: World, i: Input): Deed
    requires i.secrets.Resolved?
  {
    var Resolved(desired, chans) := i.secrets;
    var prior := PriorState(w.stored, i.generation, Fingerprint(sha, desired, chans));
    Deed(ActionOf(sha, desired, chans, prior, i.answers, i.drift), Step(sha, desired, chans, prior, i.answers, i.drift))
  }

  /** The device after a config write, by its answer. */
  function WrittenConfig(device: Config, desired: Config, answered: bool, landed: bool): Config {
    if answered || landed then Merge(device, desired) else device
  }

  predicate ReportsReady(r: StepResult) { r.Stepped? && r.outcome.ready }

  function Bump(n: nat, b: bool): nat { if b then n + 1 else n }

  /** A step whose Secrets resolved. */
  function ResolvedStep(sha: Sha, w: World, i: Input): World
    requires i.secrets.Resolved?
  {
    var Resolved(desired, chans) := i.secrets;
    var Deed(action, r) := Done(sha, w, i);
    var env := (i.generation, Fingerprint(sha, desired, chans));
    var counted := CountedWrite(action, i.answers.write);
    var config := action.WriteConfig?;
    World(
      if i.written then ReconciledStatus(sha, w.stored, i.generation, i.secrets, i.answers, i.drift) else w.stored,
      if config then WrittenConfig(w.device, desired, i.answers.write.Answer?, i.landed) else w.device,
      Some(env),
      Bump(w.writes, counted),
      Bump(w.readies, ReportsReady(r)),
      Bump(w.changes, w.seen.Some? && w.seen.value != env),
      Bump(w.lost, counted && !i.written),
      if i.written && r.Stepped? then chans.compare != [] else w.declaredChannels)
  }

  function Advance(sha: Sha, w: World, i: Input): World {
    if i.secrets.SecretError? then
      w.(stored := if i.written then SecretFailureStatus(w.stored) else w.stored)
    else ResolvedStep(sha, w, i)
  }

  function Run(sha: Sha, device: Config, inputs: seq<Input>): World {
    if inputs == [] then Start(device)
    else Advance(sha, Run(sha, device, inputs[..|inputs| - 1]), inputs[|inputs| - 1])
  }

  /** The step was given a verdict that Drift may reach on its export. */
  ghost predicate TrueVerdict(i: Input) {
    i.secrets.Resolved? && i.answers.exported.Answer? ==>
      DriftVerdict(ForComparison(i.secrets.desired), i.answers.exported.value, i.drift)
  }

  /** Reconcile is a step of a run: it leaves the stored status of `Advance`, for an input
      with its object, device and luck and a verdict Drift may have reached. */
  method AdvanceObject(sha: Sha, api: ApiObject, secrets: Secrets, dev: Client, written: bool, ghost w: World)
    returns (ghost i: Input)
    requires dev.calls == [] && api.stored == w.stored
    modifies api, dev
    ensures i == Input(old(api.generation), secrets, dev.answers, i.drift, written, i.landed)
    ensures TrueVerdict(i)
    ensures api.stored == Advance(sha, w, i).stored && api.generation == old(api.generation)
  {
    hide Step, Calls, PriorState, Fingerprint, ReconciledStatus, DriftVerdict;
    ReconcileObject(sha, api, secrets, dev, written);
    ghost var drift :| IsReconcile(sha, w.stored, api.generation, secrets, dev, written, api.stored, drift);
    i := Input(api.generation, secrets, dev.answers, drift, written, false);
    AdvanceStored(sha, w, i);
  }

  lemma AdvanceStored(sha: Sha, w: World, i: Input)
    ensures Advance(sha, w, i).stored ==
      if i.written then ReconciledStatus(sha, w.stored, i.generation, i.secrets, i.answers, i.drift) else w.stored
  {
    if i.secrets.SecretError? { SecretErrorStatus(sha, w.stored, i.generation, i.answers, i.drift); }
    hide ReconciledStatus, Done, Merge;
  }

  /** What one step adds to the history: a write that was answered, or found the device away,
      or ran into its deadline; a Ready report; a change of generation or of what the Secrets
      resolve to; and a write whose status update was lost. A failed Secret adds nothing. */
  lemma HistoryExact(sha: Sha, w: World, i: Input)
    ensures i.secrets.SecretError? ==> Advance(sha, w, i) == w.(stored := Advance(sha, w, i).stored)
    ensures i.secrets.Resolved? ==>
      var Resolved(desired, chans) := i.secrets;
      var fp := SecretsFingerprint(sha, PasswordDigest(sha, desired), chans.compare);
      var prior, w' := PriorState(w.stored, i.generation, fp), Advance(sha, w, i);
      var r := Step(sha, desired, chans, prior, i.answers, i.drift);
      var landed := i.answers.write.Answer? || i.answers.write.error == Unreachable
                    || i.answers.write.error == DeadlineExceeded;
      var wrote := landed && exists c :: c in Calls(sha, desired, chans, prior, i.answers, i.drift) && IsWrite(c);
      && w'.writes == w.writes + (if wrote then 1 else 0)
      && w'.readies == w.readies + (if r.Stepped? && r.outcome.ready then 1 else 0)
      && w'.changes == w.changes + (if w.seen.Some? && w.seen.value != (i.generation, fp) then 1 else 0)
      && w'.seen == Some((i.generation, fp))
      && w'.lost == w.lost + (if wrote && !i.written then 1 else 0)
  {
    if i.secrets.Resolved? {
      var Resolved(desired, chans) := i.secrets;
      var fp := Fingerprint(sha, desired, chans);
      assert fp == SecretsFingerprint(sha, PasswordDigest(sha, desired), chans.compare) by {
        hide SecretsFingerprint, Password;
      }
      CountedIsCalled(sha, desired, chans, PriorState(w.stored, i.generation, fp), i.answers, i.drift);
    }
    hide Step, Calls, ActionOf, Fingerprint, PasswordDigest, SecretsFingerprint, PriorState, CountedWrite, IsWrite,
         ReconciledStatus, WrittenConfig;
  }

  // ----- The apply bound

  /** The attempt count the next step would start from, if nothing changed. */
  function Spent(w: World): int {
    if w.seen.Some? && !Stale(w.stored, w.seen.value.0, w.seen.value.1) then w.stored.applyAttempts else 0
  }

  ghost predicate Bounded(w: World) {
    && 0 <= w.stored.applyAttempts <= MAX_APPLY_ATTEMPTS
    && w.writes <= MAX_APPLY_ATTEMPTS * (w.readies + w.changes) + Spent(w) + w.lost
  }

  lemma ResolvedStepBounded(sha: Sha, w: World, i: Input)
    requires Bounded(w) && i.secrets.Resolved?
    ensures Bounded(ResolvedStep(sha, w, i))
  {
    var Resolved(desired, chans) := i.secrets;
    var fp := Fingerprint(sha, desired, chans);
    var prior := PriorState(w.stored, i.generation, fp);
    StepAccounts(sha, desired, chans, prior, i.answers, i.drift);
    ResolvedStatus(sha, w.stored, i.generation, desired, chans, i.answers, i.drift);
    hide Step, ActionOf, Fingerprint, ReconciledStatus, ChannelConditions, OutcomeConditions, Merge;
    assert w.seen.Some? && w.seen.value == (i.generation, fp) ==> prior.applyAttempts == Spent(w);
  }

  lemma {:induction false} RunBounded(sha: Sha, device: Config, inputs: seq<Input>)
    ensures Bounded(Run(sha, device, inputs))
  {
    if inputs != [] {
      var w, i := Run(sha, device, inputs[..|inputs| - 1]), inputs[|inputs| - 1];
      RunBounded(sha, device, inputs[..|inputs| - 1]);
      hide Bounded, ResolvedStep;
      if i.secrets.Resolved? {
        ResolvedStepBounded(sha, w, i);
      } else {
        SecretErrorBounded(w, i.written);
      }
    }
  }

  lemma SecretErrorBounded(w: World, written: bool)
    requires Bounded(w)
    ensures Bounded(w.(stored := if written then SecretFailureStatus(w.stored) else w.stored))
  {
  }

  /** Writes that may have landed are at most five per Ready report and per change of
      spec or Secrets, plus five to begin with, plus the status updates lost after one. */
  lemma ApplyBound(sha: Sha, device: Config, inputs: seq<Input>)
    ensures var w := Run(sha, device, inputs);
            && w.writes <= MAX_APPLY_ATTEMPTS * (1 + w.readies + w.changes) + w.lost
            && 0 <= w.stored.applyAttempts <= MAX_APPLY_ATTEMPTS
  {
    RunBounded(sha, device, inputs);
    hide Run;
  }

  // ----- What a stored Ready implies

  ghost predicate ReadyConsistent(w: World) { StatusConsistent(w.stored, w.declaredChannels) }

  ghost predicate StatusConsistent(s: Status, declaredChannels: bool) {
    IsTrue(s.conditions, IsReady) ==>
      && IsTrue(s.conditions, IsReachable)
      && IsTrue(s.conditions, IsConfigInSync)
      && IsRebootPending in s.conditions && s.conditions[IsRebootPending] == False
      && IsDegraded in s.conditions && s.conditions[IsDegraded] == False
      && s.applyAttempts == 0
      && (declaredChannels ==> IsTrue(s.conditions, IsChannelsInSync))
  }

  lemma ResolvedStepConsistent(sha: Sha, w: World, i: Input)
    requires ReadyConsistent(w) && i.secrets.Resolved?
    ensures ReadyConsistent(ResolvedStep(sha, w, i))
  {
    var Resolved(desired, chans) := i.secrets;
    var fp := Fingerprint(sha, desired, chans);
    var prior := PriorState(w.stored, i.generation, fp);
    var r := Step(sha, desired, chans, prior, i.answers, i.drift);
    ResolvedStatus(sha, w.stored, i.generation, desired, chans, i.answers, i.drift);
    if r.Stepped? {
      StepAccounts(sha, desired, chans, prior, i.answers, i.drift);
      if r.outcome.ready {
        ReadyMeansNoDrift(sha, desired, chans, prior, i.answers, i.drift, r);
        ReadyChannels(sha, desired, chans, i.answers.exported.value, r);
      }
      hide Step, ActionOf, Fingerprint, ReconciledStatus, Merge, ChannelDrift, LiveChannels, PriorState,
           SteppedStatus, StatusConsistent;
      SteppedConsistent(w.stored, i.generation, fp, chans.compare, r.outcome);
    } else {
      hide Step, ActionOf, Fingerprint, ReconciledStatus, Merge, PriorState;
    }
  }

  lemma SteppedConsistent(s: Status, generation: int, fp: string, compare: seq<ChannelState>, o: Outcome)
    requires o.channelsUnobserved ==> o.reachable
    requires o.ready ==>
          o.reachable && o.configInSync && !o.rebootPending && !o.degraded && !o.channelsUnobserved
              && o.applyAttempts == 0
    requires o.ready ==> ChannelDrift(compare, o.liveChannels) == []
    ensures StatusConsistent(SteppedStatus(s, generation, fp, compare, o), compare != [])
  {
    hide ChannelDrift;
  }

  lemma ReadyChannels(sha: Sha, desired: Config, chans: DesiredChannels, live: Config, r: StepResult)
    requires ChannelDrift(chans.compare, LiveChannels(sha, live)) == []
    requires r.Stepped? && r == Stepped(ReadyOutcome(sha, desired, Sight(live, r.outcome.nodeId, [])))
    ensures ChannelDrift(chans.compare, r.outcome.liveChannels) == []
  {
    hide ChannelDrift, LiveChannels;
  }

  /** In every reachable state of the stored object, through unreachable devices, failed
      Secrets, device errors and lost updates: Ready never stands beside a condition
      that contradicts it. */
  lemma {:induction false} StatusInvariant(sha: Sha, device: Config, inputs: seq<Input>)
    ensures ReadyConsistent(Run(sha, device, inputs))
  {
    if inputs != [] {
      var w, i := Run(sha, device, inputs[..|inputs| - 1]), inputs[|inputs| - 1];
      StatusInvariant(sha, device, inputs[..|inputs| - 1]);
      if i.secrets.Resolved? {
        ResolvedStepConsistent(sha, w, i);
      }
      hide ResolvedStep;
    }
  }
}
