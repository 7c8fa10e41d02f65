/** The controller around the convergence step (internal/controller/
  meshtasticnode_controller.go): what it reads back from status, when it resets the
  apply bound, and what it writes to status on success and on each failure. */
module Controller {
  import opened ConfigTree
  import opened Channels
  import opened Device
  import opened Reconcile

  datatype Condition = IsReachable | IsConfigInSync | IsRebootPending | IsReady | IsDegraded | IsChannelsInSync

  datatype Truth = True | False | Unknown

  type Conditions = map<Condition, Truth>

  /** The status fields a later step reads back. */
  datatype Status = Status(
    conditions: Conditions, observedGeneration: int, applyAttempts: int,
    lastAppliedPasswordHash: string, lastBoundSecretsHash: string, nodeId: string)

  const FRESH := Status(map[], 0, 0, "", "", "")

  /** What the spec and its Secrets resolve to. */
  datatype Secrets = SecretError | Resolved(desired: Config, chans: DesiredChannels)

  function Truthy(b: bool): Truth { if b then True else False }

  predicate IsTrue(conditions: Conditions, c: Condition) { c in conditions && conditions[c] == True }

  function Fingerprint(sha: Sha, desired: Config, chans: DesiredChannels): string {
    SecretsFingerprint(sha, WriteOnlyPasswordHash(sha, desired), chans.compare)
  }

  /** Status was last written for another generation or other Secrets. */
  predicate Stale(s: Status, generation: int, fingerprint: string) {
    generation != s.observedGeneration || fingerprint != s.lastBoundSecretsHash
  }

  function PriorState(s: Status, generation: int, fingerprint: string): State {
    State(IsTrue(s.conditions, IsRebootPending),
          if Stale(s, generation, fingerprint) then 0 else s.applyAttempts,
          s.lastAppliedPasswordHash)
  }

  // ----- Status after each kind of step

  function OutcomeConditions(conditions: Conditions, o: Outcome): Conditions {
    conditions[IsReachable := Truthy(o.reachable)][IsConfigInSync := Truthy(o.configInSync)]
              [IsRebootPending := Truthy(o.rebootPending)][IsDegraded := Truthy(o.degraded)][IsReady := Truthy(o.ready)]
  }

  function ChannelConditions(conditions: Conditions, compare: seq<ChannelState>, o: Outcome): Conditions {
    if o.channelsUnobserved then conditions[IsChannelsInSync := Unknown]
    else if !o.reachable || compare == [] then conditions - {IsChannelsInSync}
    else conditions[IsChannelsInSync := Truthy(ChannelDrift(compare, o.liveChannels) == [])]
  }

  function SteppedStatus(s: Status, generation: int, fingerprint: string, compare: seq<ChannelState>,
                         o: Outcome): Status
    requires o.channelsUnobserved ==> o.reachable
  {
    Status(ChannelConditions(OutcomeConditions(s.conditions, o), compare, o), generation, o.applyAttempts,
           o.passwordHash, fingerprint, if o.reachable && o.nodeId != "" then o.nodeId else s.nodeId)
  }

  function SecretFailureStatus(s: Status): Status {
    s.(conditions :=
        (s.conditions - {IsReachable, IsConfigInSync, IsChannelsInSync, IsRebootPending, IsDegraded})[IsReady := False])
  }

  function DeviceFailureStatus(s: Status): Status {
    s.(conditions :=
        (s.conditions - {IsReachable, IsConfigInSync, IsChannelsInSync, IsRebootPending})[IsReady := False])
  }

  lemma AllFiveRemoved(c: Conditions)
    ensures c - {IsReachable} - {IsConfigInSync} - {IsChannelsInSync} - {IsRebootPending} - {IsDegraded}
         == c - {IsReachable, IsConfigInSync, IsChannelsInSync, IsRebootPending, IsDegraded}
  {
    AllFourRemoved(c);
  }

  lemma AllFourRemoved(c: Conditions)
    ensures c - {IsReachable} - {IsConfigInSync} - {IsChannelsInSync} - {IsRebootPending}
         == c - {IsReachable, IsConfigInSync, IsChannelsInSync, IsRebootPending}
  {
  }

  lemma UnobservedIsReachable(sha: Sha, desired: Config, chans: DesiredChannels, prior: State, a: Answers,
                              drift: seq<string>)
    ensures var r := Step(sha, desired, chans, prior, a, drift);
            r.Stepped? && r.outcome.channelsUnobserved ==> r.outcome.reachable
  {
    hide LiveChannels, ChannelDrift, WriteOnlyPasswordHash, ExportedNodeId, AllDrift, ScalarDrift, ChannelDriftSeen,
         Decide;
  }

  /** The status a reconcile of `s` writes. */
  function ReconciledStatus(sha: Sha, s: Status, generation: int, secrets: Secrets, a: Answers,
                            drift: seq<string>): Status {
    match secrets
    case SecretError => SecretFailureStatus(s)
    case Resolved(desired, chans) =>
      var fingerprint := Fingerprint(sha, desired, chans);
      var prior := PriorState(s, generation, fingerprint);
      UnobservedIsReachable(sha, desired, chans, prior, a, drift);
      match Step(sha, desired, chans, prior, a, drift)
      case Failed(_) => DeviceFailureStatus(s)
      case Stepped(o) => SteppedStatus(s, generation, fingerprint, chans.compare, o)
  }

  // ----- The controller's own methods, on the copy of the object it read

  class MeshtasticNode {
    const generation: int
    var conditions: Conditions
    var observedGeneration: int
    var applyAttempts: int
    var lastAppliedPasswordHash: string
    var lastBoundSecretsHash: string
    var nodeId: string

    ghost function Recorded(): Status
      reads this
    {
      Status(conditions, observedGeneration, applyAttempts, lastAppliedPasswordHash, lastBoundSecretsHash, nodeId)
    }

    constructor (generation: int, s: Status)
      ensures this.generation == generation && Recorded() == s
    {
      this.generation := generation;
      conditions, observedGeneration, applyAttempts := s.conditions, s.observedGeneration, s.applyAttempts;
      lastAppliedPasswordHash, lastBoundSecretsHash, nodeId :=
          s.lastAppliedPasswordHash, s.lastBoundSecretsHash, s.nodeId;
    }

    method Snapshot() returns (s: Status)
      ensures s == Recorded()
    {
      s := Status(conditions, observedGeneration, applyAttempts, lastAppliedPasswordHash, lastBoundSecretsHash, nodeId);
    }

    method SetCondition(c: Condition, t: Truth)
      modifies this`conditions
      ensures conditions == old(conditions)[c := t]
    {
      conditions := conditions[c := t];
    }

    method RemoveCondition(c: Condition)
      modifies this`conditions
      ensures conditions == old(conditions) - {c}
    {
      conditions := conditions - {c};
    }

    method ApplyOutcome(o: Outcome)
      modifies this
      ensures Recorded() == old(Recorded()).(
        conditions := OutcomeConditions(old(conditions), o), observedGeneration := generation,
        applyAttempts := o.applyAttempts, lastAppliedPasswordHash := o.passwordHash,
        nodeId := if o.reachable && o.nodeId != "" then o.nodeId else old(nodeId))
    {
      SetCondition(IsReachable, Truthy(o.reachable));
      SetCondition(IsConfigInSync, Truthy(o.configInSync));
      SetCondition(IsRebootPending, Truthy(o.rebootPending));
      SetCondition(IsDegraded, Truthy(o.degraded));
      SetCondition(IsReady, Truthy(o.ready));
      observedGeneration := generation;
      applyAttempts := o.applyAttempts;
      lastAppliedPasswordHash := o.passwordHash;
      if o.reachable {
        if o.nodeId != "" {
          nodeId := o.nodeId;
        }
      }
    }

    method ApplyChannelsInSync(desired: seq<ChannelState>, live: seq<ChannelState>)
      modifies this`conditions
      ensures conditions == if desired == [] then old(conditions) - {IsChannelsInSync}
                            else old(conditions)[IsChannelsInSync := Truthy(ChannelDrift(desired, live) == [])]
    {
      hide ChannelDrift;
      if |desired| == 0 {
        RemoveCondition(IsChannelsInSync);
        return;
      }
      var drift := CompareChannels(desired, live);
      SetCondition(IsChannelsInSync, Truthy(drift == []));
    }

    method SecretFailure()
      modifies this`conditions
      ensures Recorded() == SecretFailureStatus(old(Recorded()))
    {
      RemoveCondition(IsReachable);
      RemoveCondition(IsConfigInSync);
      RemoveCondition(IsChannelsInSync);
      RemoveCondition(IsRebootPending);
      RemoveCondition(IsDegraded);
      SetCondition(IsReady, False);
      AllFiveRemoved(old(conditions));
    }

    method DeviceFailure()
      modifies this`conditions
      ensures Recorded() == DeviceFailureStatus(old(Recorded()))
    {
      RemoveCondition(IsReachable);
      RemoveCondition(IsConfigInSync);
      RemoveCondition(IsChannelsInSync);
      RemoveCondition(IsRebootPending);
      SetCondition(IsReady, False);
      AllFourRemoved(old(conditions));
    }

    /** The status writes of a step that did not fail. */
    method RecordOutcome(fingerprint: string, compare: seq<ChannelState>, o: Outcome)
      requires o.channelsUnobserved ==> o.reachable
      modifies this
      ensures Recorded() == SteppedStatus(old(Recorded()), generation, fingerprint, compare, o)
    {
      hide ChannelDrift, OutcomeConditions;
      ApplyOutcome(o);
      lastBoundSecretsHash := fingerprint;
      if o.channelsUnobserved {
        SetCondition(IsChannelsInSync, Unknown);
      } else if o.reachable {
        ApplyChannelsInSync(compare, o.liveChannels);
      }
      if !o.reachable {
        RemoveCondition(IsChannelsInSync);
      }
    }
  }

  /** The object as the API server stores it. */
  class ApiObject {
    var generation: int
    var stored: Status

    constructor ()
      ensures generation == 1 && stored == Status(map[], 0, 0, "", "", "")
    {
      generation, stored := 1, FRESH;
    }
  }

  /** What one reconcile did: the calls of one step from the recorded state, if the Secrets
      resolved, and the stored status it led to. */
  ghost predicate IsReconcile(sha: Sha, was: Status, generation: int, secrets: Secrets, dev: Client, written: bool,
                              stored: Status, drift: seq<string>)
    reads dev
  {
    && (secrets.Resolved? ==>
         var fingerprint := Fingerprint(sha, secrets.desired, secrets.chans);
         var prior := PriorState(was, generation, fingerprint);
         IsStep(sha, secrets.desired, secrets.chans, prior, dev.answers, drift,
                Step(sha, secrets.desired, secrets.chans, prior, dev.answers, drift), dev.calls))
    && (secrets.SecretError? ==> dev.calls == [])
    && stored == if written then ReconciledStatus(sha, was, generation, secrets, dev.answers, drift) else was
  }

  /** Reconcile: one step for one object. `written` is whether the status update went
      through; when it did not, the stored status stays as it was read. */
  method ReconcileObject(sha: Sha, api: ApiObject, secrets: Secrets, dev: Client, written: bool)
    requires dev.calls == []
    modifies api, dev
    ensures api.generation == old(api.generation)
    ensures exists drift ::
      IsReconcile(sha, old(api.stored), api.generation, secrets, dev, written, api.stored, drift)
  {
    hide Step, IsStep, SteppedStatus, SecretFailureStatus, DeviceFailureStatus, Fingerprint, ReconciledStatus;
    ghost var before := api.stored;
    var node := new MeshtasticNode(api.generation, api.stored);
    ghost var drift: seq<string> := [];
    if secrets.SecretError? {
      node.SecretFailure();
      SecretErrorStatus(sha, before, api.generation, dev.answers, drift);
    } else {
      var fingerprint := Fingerprint(sha, secrets.desired, secrets.chans);
      var prior := State(IsTrue(node.conditions, IsRebootPending), node.applyAttempts, node.lastAppliedPasswordHash);
      if node.generation != node.observedGeneration || fingerprint != node.lastBoundSecretsHash {
        prior := prior.(applyAttempts := 0);
      }
      assert prior == PriorState(before, api.generation, fingerprint);
      var r := Converge(sha, dev, secrets.desired, secrets.chans, prior);
      drift :| IsStep(sha, secrets.desired, secrets.chans, prior, dev.answers, drift, r, dev.calls);
      StepOf(sha, secrets.desired, secrets.chans, prior, dev.answers, drift, r, dev.calls);
      UnobservedIsReachable(sha, secrets.desired, secrets.chans, prior, dev.answers, drift);
      ResolvedStatus(sha, before, api.generation, secrets.desired, secrets.chans, dev.answers, drift);
      if r.Failed? {
        node.DeviceFailure();
      } else {
        node.RecordOutcome(fingerprint, secrets.chans.compare, r.outcome);
      }
    }
    assert node.Recorded() == ReconciledStatus(sha, before, api.generation, secrets, dev.answers, drift);
    if written {
      var s := node.Snapshot();
      api.stored := s;
    }
    assert IsReconcile(sha, before, api.generation, secrets, dev, written, api.stored, drift);
  }

  lemma StepOf(sha: Sha, desired: Config, chans: DesiredChannels, prior: State, a: Answers, drift: seq<string>,
               r: StepResult, calls: seq<Call>)
    requires IsStep(sha, desired, chans, prior, a, drift, r, calls)
    ensures r == Step(sha, desired, chans, prior, a, drift)
  {
  }

  lemma SecretErrorStatus(sha: Sha, s: Status, generation: int, a: Answers, drift: seq<string>)
    ensures ReconciledStatus(sha, s, generation, SecretError, a, drift) == SecretFailureStatus(s)
  {
  }

  lemma ResolvedStatus(sha: Sha, s: Status, generation: int, desired: Config, chans: DesiredChannels, a: Answers,
                       drift: seq<string>)
    ensures var fingerprint := Fingerprint(sha, desired, chans);
            var r := Step(sha, desired, chans, PriorState(s, generation, fingerprint), a, drift);
            (r.Stepped? && r.outcome.channelsUnobserved ==> r.outcome.reachable)
            && ReconciledStatus(sha, s, generation, Resolved(desired, chans), a, drift)
               == if r.Failed? then DeviceFailureStatus(s)
                   else SteppedStatus(s, generation, fingerprint, chans.compare, r.outcome)
  {
    hide Step, SteppedStatus, DeviceFailureStatus, Fingerprint, PriorState;
    UnobservedIsReachable(sha, desired, chans, PriorState(s, generation, Fingerprint(sha, desired, chans)), a, drift);
  }

  // ----- What a reconcile does and records, in the status's own terms

  /** The spec or the Secrets are not those that status was last written for. */
  predicate Changed(sha: Sha, was: Status, generation: int, desired: Config, chans: DesiredChannels) {
    || was.observedGeneration != generation
    || was.lastBoundSecretsHash != SecretsFingerprint(sha, PasswordDigest(sha, desired), chans.compare)
  }

  lemma PriorExact(sha: Sha, was: Status, generation: int, desired: Config, chans: DesiredChannels)
    ensures PriorState(was, generation, Fingerprint(sha, desired, chans)) ==
      State(IsRebootPending in was.conditions && was.conditions[IsRebootPending] == True,
            if Changed(sha, was, generation, desired, chans) then 0 else was.applyAttempts,
            was.lastAppliedPasswordHash)
  {
    hide SecretsFingerprint, Password;
  }

  /** There is something to write, whatever attempts are stored. */
  predicate Drifted(sha: Sha, was: Status, desired: Config, chans: DesiredChannels, live: Config, drift: seq<string>) {
    NeedsWrite(sha, desired, chans, State(false, 0, was.lastAppliedPasswordHash), live, drift)
  }

  lemma SameNeed(sha: Sha, was: Status, desired: Config, chans: DesiredChannels, prior: State, live: Config,
                 drift: seq<string>)
    requires prior.passwordHash == was.lastAppliedPasswordHash
    ensures Drifted(sha, was, desired, chans, live, drift) <==> NeedsWrite(sha, desired, chans, prior, live, drift)
  {
    hide ChannelsMatch, ChannelsUnseen, PasswordDigest;
  }

  lemma ReconcileOf(sha: Sha, was: Status, generation: int, desired: Config, chans: DesiredChannels, dev: Client,
                    written: bool, stored: Status, drift: seq<string>)
    requires IsReconcile(sha, was, generation, Resolved(desired, chans), dev, written, stored, drift)
    ensures dev.calls == Calls(sha, desired, chans, PriorState(was, generation, Fingerprint(sha, desired, chans)),
                               dev.answers, drift)
  {
    hide Step, Calls, PriorState, Fingerprint, ReconciledStatus;
  }

  lemma AsksOnly(live: Config, calls: seq<Call>)
    requires AsksFirst(live, calls)
    ensures forall c :: c in calls ==> !IsWrite(c)
  {
    hide NamesNode;
  }

  lemma WritesToo(asked: seq<Call>, calls: seq<Call>, write: Call)
    requires calls == asked + [write] || calls == asked + [write, RebootCall]
    requires IsWrite(write)
    ensures exists c :: c in calls && IsWrite(c)
  {
    assert write == calls[|asked|];
  }

  /** Status after a step that did not fail, condition by condition. */
  lemma StatusExact(s: Status, generation: int, fingerprint: string, compare: seq<ChannelState>, o: Outcome)
    requires o.channelsUnobserved ==> o.reachable
    ensures var s' := SteppedStatus(s, generation, fingerprint, compare, o);
      && (forall c :: c in {IsReachable, IsConfigInSync, IsRebootPending, IsDegraded, IsReady} ==> c in s'.conditions)
      && s'.conditions[IsReachable] == (if o.reachable then True else False)
      && s'.conditions[IsConfigInSync] == (if o.configInSync then True else False)
      && s'.conditions[IsRebootPending] == (if o.rebootPending then True else False)
      && s'.conditions[IsDegraded] == (if o.degraded then True else False)
      && s'.conditions[IsReady] == (if o.ready then True else False)
      && (IsChannelsInSync in s'.conditions <==> o.channelsUnobserved || (o.reachable && compare != []))
      && (IsChannelsInSync in s'.conditions ==>
            s'.conditions[IsChannelsInSync] ==
              if o.channelsUnobserved then Unknown
              else if forall d :: d in compare ==> Slot(o.liveChannels, d.index) == Some(d) then True else False)
      && s'.observedGeneration == generation && s'.applyAttempts == o.applyAttempts
      && s'.lastAppliedPasswordHash == o.passwordHash && s'.lastBoundSecretsHash == fingerprint
      && s'.nodeId == if o.reachable && o.nodeId != "" then o.nodeId else s.nodeId
  {
    ChannelDriftEmpty(compare, o.liveChannels);
    hide ChannelDrift, Slot;
  }

  /** What a failed Secret and a failed device leave of the conditions, and that neither
      forgets anything. */
  lemma FailuresExact(s: Status)
    ensures SecretFailureStatus(s).conditions == map[IsReady := False]
    ensures DeviceFailureStatus(s).conditions ==
      if IsDegraded in s.conditions then map[IsReady := False, IsDegraded := s.conditions[IsDegraded]]
      else map[IsReady := False]
    ensures SecretFailureStatus(s) == s.(conditions := SecretFailureStatus(s).conditions)
    ensures DeviceFailureStatus(s) == s.(conditions := DeviceFailureStatus(s).conditions)
  {
    var c := s.conditions;
    forall k
      ensures k in SecretFailureStatus(s).conditions ==> k == IsReady
      ensures k in DeviceFailureStatus(s).conditions ==> k == IsReady || (k == IsDegraded && k in c)
    {
      match k case IsReachable => case IsConfigInSync => case IsRebootPending => case IsReady => case IsDegraded =>
              case IsChannelsInSync =>
    }
  }

  /** A reconcile of a drifted device writes exactly when the spec or the Secrets changed
      or fewer than five attempts are stored: a change gives back every attempt. */
  lemma ReconcileWrites(sha: Sha, was: Status, generation: int, desired: Config, chans: DesiredChannels, dev: Client,
                        written: bool, stored: Status, drift: seq<string>, id: string)
    requires IsReconcile(sha, was, generation, Resolved(desired, chans), dev, written, stored, drift)
    requires KnownAs(dev.answers, id) && Drifted(sha, was, desired, chans, dev.answers.exported.value, drift)
    ensures (exists c :: c in dev.calls && IsWrite(c)) <==>
              Changed(sha, was, generation, desired, chans) || was.applyAttempts < 5
  {
    var prior, a := PriorState(was, generation, Fingerprint(sha, desired, chans)), dev.answers;
    PriorExact(sha, was, generation, desired, chans);
    SameNeed(sha, was, desired, chans, prior, a.exported.value, drift);
    ReconcileOf(sha, was, generation, desired, chans, dev, written, stored, drift);
    hide *;
    if prior.applyAttempts >= 5 {
      TooManyAttempts(sha, desired, chans, prior, a, drift, id);
      AsksOnly(a.exported.value, dev.calls);
    } else {
      var asked := WriteOutcomes(sha, desired, chans, prior, a, drift, id);
      WritesToo(asked, dev.calls, if ScalarsMatch(sha, desired, prior, drift) then ApplyChannelsCall(chans.write)
                                  else ApplyCall(desired));
    }
  }

  /** What that reconcile stores: without a change a device that took five attempts is
      Degraded and keeps its count; otherwise a write that was answered, or found the device
      away, or ran into its deadline, counts as one more, and it is not. */
  lemma ReconcileCounts(sha: Sha, was: Status, generation: int, desired: Config, chans: DesiredChannels, a: Answers,
                        drift: seq<string>, id: string)
    requires KnownAs(a, id) && Drifted(sha, was, desired, chans, a.exported.value, drift)
    ensures var stored := ReconciledStatus(sha, was, generation, Resolved(desired, chans), a, drift);
      var attempts := if Changed(sha, was, generation, desired, chans) then 0 else was.applyAttempts;
      if attempts >= 5 then IsTrue(stored.conditions, IsDegraded) && stored.applyAttempts == attempts
      else if a.write.Answer? || a.write.error == Unreachable || a.write.error == DeadlineExceeded then
        !IsTrue(stored.conditions, IsDegraded) && stored.applyAttempts == attempts + 1
      else stored == DeviceFailureStatus(was)
  {
    var fp := Fingerprint(sha, desired, chans);
    var prior := PriorState(was, generation, fp);
    PriorExact(sha, was, generation, desired, chans);
    SameNeed(sha, was, desired, chans, prior, a.exported.value, drift);
    ResolvedStatus(sha, was, generation, desired, chans, a, drift);
    hide *;
    if prior.applyAttempts >= 5 {
      TooManyAttempts(sha, desired, chans, prior, a, drift, id);
    } else {
      var asked := WriteOutcomes(sha, desired, chans, prior, a, drift, id);
    }
    var r := Step(sha, desired, chans, prior, a, drift);
    if r.Stepped? { StatusSays(was, generation, fp, chans.compare, r.outcome); }
  }

  /** A device that is away, or too slow to export: everything is remembered, the reboot
      that is pending stays so, and the object is not Ready. */
  lemma AwayExact(sha: Sha, was: Status, generation: int, desired: Config, chans: DesiredChannels, a: Answers,
                  drift: seq<string>)
    requires a.exported == Error(Unreachable) || a.exported == Error(DeadlineExceeded)
    ensures var stored := ReconciledStatus(sha, was, generation, Resolved(desired, chans), a, drift);
      && !IsTrue(stored.conditions, IsReady) && !IsTrue(stored.conditions, IsReachable)
      && (IsTrue(stored.conditions, IsRebootPending) <==>
            IsRebootPending in was.conditions && was.conditions[IsRebootPending] == True)
      && stored.applyAttempts == (if Changed(sha, was, generation, desired, chans) then 0 else was.applyAttempts)
      && stored.lastAppliedPasswordHash == was.lastAppliedPasswordHash && stored.nodeId == was.nodeId
  {
    var fp := Fingerprint(sha, desired, chans);
    var prior := PriorState(was, generation, fp);
    PriorExact(sha, was, generation, desired, chans);
    ExportErrors(sha, desired, chans, prior, a, drift);
    ResolvedStatus(sha, was, generation, desired, chans, a, drift);
    AwaySays(was, generation, fp, chans.compare, prior, Step(sha, desired, chans, prior, a, drift));
    hide *;
  }

  lemma AwaySays(s: Status, generation: int, fingerprint: string, compare: seq<ChannelState>, prior: State,
                 r: StepResult)
    requires Waits(prior, r)
    ensures var s' := SteppedStatus(s, generation, fingerprint, compare, r.outcome);
      && !IsTrue(s'.conditions, IsReady) && !IsTrue(s'.conditions, IsReachable)
      && (IsTrue(s'.conditions, IsRebootPending) <==> prior.rebootPending)
      && s'.applyAttempts == prior.applyAttempts && s'.lastAppliedPasswordHash == prior.passwordHash
      && s'.nodeId == s.nodeId
  {
    hide ChannelDrift;
  }

  lemma StatusSays(s: Status, generation: int, fingerprint: string, compare: seq<ChannelState>, o: Outcome)
    requires o.channelsUnobserved ==> o.reachable
    ensures var s' := SteppedStatus(s, generation, fingerprint, compare, o);
            (IsTrue(s'.conditions, IsDegraded) <==> o.degraded) && s'.applyAttempts == o.applyAttempts
  {
    hide ChannelDrift;
  }
}
