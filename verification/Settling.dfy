/** Convergence through the controller: with its Secrets resolved, its spec unchanged and no
  status update lost, a stored object follows the convergence loop run behind it, and its
  Ready condition with it. */
module Settling {
  import opened ConfigTree
  import opened ConfigDrift
  import opened ConfigMerge
  import opened Channels
  import opened Device
  import opened Reconcile
  import opened Convergence
  import C = Controller

  /** The device, and the status stored for it. */
  datatype Scene = Scene(device: FakeState, stored: C.Status)

  ghost function FingerprintOf(g: Goal): string { C.Fingerprint(g.sha, g.desired, g.chans) }

  /** What the controller hands to the convergence step. */
  ghost function Behind(g: Goal, generation: int, s: Scene): World {
    World(s.device, C.PriorState(s.stored, generation, FingerprintOf(g)))
  }

  ghost function StatusAfter(g: Goal, generation: int, s: Scene): C.Status {
    C.ReconciledStatus(g.sha, s.stored, generation, C.Resolved(g.desired, g.chans), FakeAnswers(s.device),
                       DriftSeen(g, Behind(g, generation, s)))
  }

  /** One reconcile whose status update goes through. */
  ghost function Reconciled(g: Goal, generation: int, s: Scene): Scene {
    Scene(Next(g, Behind(g, generation, s)).device, StatusAfter(g, generation, s))
  }

  ghost function AfterReconciles(g: Goal, generation: int, s: Scene, n: nat): Scene
    decreases n
  {
    if n == 0 then s else AfterReconciles(g, generation, Reconciled(g, generation, s), n - 1)
  }

  predicate StoredReady(s: C.Status) { C.IsTrue(s.conditions, C.IsReady) }

  // ----- One reconcile

  /** Against the device model a step never fails outright. */
  lemma AlwaysSteps(g: Goal, w: World)
    requires w.device.nodeId != ""
    ensures Result(g, w).Stepped? && (Result(g, w).outcome.channelsUnobserved ==> Result(g, w).outcome.reachable)
    ensures Next(g, w).device.nodeId != ""
  {
    SomeAction(g, w);
    hide *;
    UnobservedReachable(g, w);
  }

  lemma SomeAction(g: Goal, w: World)
    requires w.device.nodeId != ""
    ensures Result(g, w).Stepped? && Next(g, w).device.nodeId == w.device.nodeId
  {
    var action := Decide(g.sha, g.desired, g.chans, w.prior, Exported(w.device.config), DriftSeen(g, w));
    Contacted(g, w, action);
    hide Decide, Exported, DriftSeen, Result, Next, StoreChannels, Merge;
    if w.device.unreachableFor > 0 {
      StepUnreachable(g, w);
    } else {
      StepReachable(g, w, action);
    }
  }

  lemma Contacted(g: Goal, w: World, action: Action)
    requires action == Decide(g.sha, g.desired, g.chans, w.prior, Exported(w.device.config), DriftSeen(g, w))
    ensures !action.NoContact?
  {
    hide DriftSeen, Exported, WriteOnlyPasswordHash, ChannelDrift, LiveChannels;
  }

  lemma UnobservedReachable(g: Goal, w: World)
    ensures Result(g, w).Stepped? && Result(g, w).outcome.channelsUnobserved ==> Result(g, w).outcome.reachable
  {
    hide Step, FakeAnswers, DriftSeen;
    C.UnobservedIsReachable(g.sha, g.desired, g.chans, w.prior, FakeAnswers(w.device), DriftSeen(g, w));
  }

  /** What is written to status is what the next step starts from. */
  lemma SteppedPrior(s: C.Status, generation: int, fingerprint: string, compare: seq<ChannelState>, o: Outcome)
    requires o.channelsUnobserved ==> o.reachable
    ensures var s' := C.SteppedStatus(s, generation, fingerprint, compare, o);
            C.PriorState(s', generation, fingerprint) == NextState(o) && (StoredReady(s') <==> o.ready)
  {
    hide ChannelDrift;
  }

  lemma ReconcileFollows(g: Goal, generation: int, s: Scene)
    requires s.device.nodeId != ""
    ensures var w, s' := Behind(g, generation, s), Reconciled(g, generation, s);
            && Behind(g, generation, s') == Next(g, w) && s'.device.nodeId != ""
            && (StoredReady(s'.stored) <==> ReadyAt(g, w, 0))
  {
    var w, r := Behind(g, generation, s), Result(g, Behind(g, generation, s));
    AlwaysSteps(g, w);
    C.ResolvedStatus(g.sha, s.stored, generation, g.desired, g.chans, FakeAnswers(s.device), DriftSeen(g, w));
    SteppedPrior(s.stored, generation, FingerprintOf(g), g.chans.compare, r.outcome);
    hide Step, FakeAnswers, DriftSeen, CallsMade, PerformAll, C.SteppedStatus, C.ReconciledStatus, C.PriorState,
         C.Fingerprint;
    assert After(g, w, 0) == w;
  }

  // ----- Runs

  lemma {:induction false} ReconcilesFollow(g: Goal, generation: int, s: Scene, n: nat)
    requires s.device.nodeId != ""
    ensures var w, s' := Behind(g, generation, s), AfterReconciles(g, generation, s, n + 1);
            StoredReady(s'.stored) <==> ReadyAt(g, w, n)
    decreases n
  {
    var next := Reconciled(g, generation, s);
    Unrolled(g, generation, s, n);
    hide *;
    ReconcileFollows(g, generation, s);
    if n > 0 {
      ReconcilesFollow(g, generation, next, n - 1);
      ReadyLater(g, Behind(g, generation, s), n);
    }
  }

  lemma Unrolled(g: Goal, generation: int, s: Scene, n: nat)
    ensures AfterReconciles(g, generation, s, n + 1) ==
      if n == 0 then Reconciled(g, generation, s) else AfterReconciles(g, generation, Reconciled(g, generation, s), n)
  {
    hide Reconciled;
  }

  /** The stored object is Ready from one exact reconcile on, whatever its status was before,
      Degraded included, with enough attempts left for the writes still needed. */
  lemma StoredReadyExactly(g: Goal, generation: int, s: Scene, n: nat)
    requires Sound(g, Behind(g, generation, s))
    requires Behind(g, generation, s).prior.applyAttempts + Need(g, Behind(g, generation, s)) <= MAX_APPLY_ATTEMPTS
    ensures StoredReady(AfterReconciles(g, generation, s, n + 1).stored)
          <==> n >= ReadyStep(g, Behind(g, generation, s))
  {
    assert s.device.nodeId != "";
    hide *;
    ReconcilesFollow(g, generation, s, n);
    Converges(g, Behind(g, generation, s), n);
  }

  /** A new generation or a change of Secrets gives back every attempt. */
  lemma StaleHasAttempts(g: Goal, generation: int, s: Scene)
    requires || generation != s.stored.observedGeneration
             || s.stored.lastBoundSecretsHash !=
                  SecretsFingerprint(g.sha, WriteOnlyPasswordHash(g.sha, g.desired), g.chans.compare)
             || s.stored.applyAttempts <= 3
    ensures Behind(g, generation, s).prior.applyAttempts <= 3
  {
    hide SecretsFingerprint, WriteOnlyPasswordHash;
  }

  /** Whatever Drift may say, the object is stored Ready in time and stays so. */
  ghost predicate StoredInTime(g: Goal, generation: int, s: Scene) {
    forall drift, n: nat :: HonestDrift(With(g, drift)) && InTime(Behind(g, generation, s), n) ==>
      StoredReady(AfterReconciles(With(g, drift), generation, s, n + 1).stored)
  }

  /** From every stored status, also a Degraded one once its spec or Secrets change: Ready is
      stored within u + 2w + 3 reconciles and stays, whatever order colliding keys are ranged
      over in, if and only if the comparison does not hang on that order. */
  lemma SettlesExactly(g: Goal, generation: int, s: Scene)
    requires Coupled(g, Behind(g, generation, s))
    requires || generation != s.stored.observedGeneration
             || s.stored.lastBoundSecretsHash !=
                  SecretsFingerprint(g.sha, WriteOnlyPasswordHash(g.sha, g.desired), g.chans.compare)
             || s.stored.applyAttempts <= 3
    ensures StoredInTime(g, generation, s) <==> Decisive(g, Behind(g, generation, s))
  {
    assert s.device.nodeId != "";
    StaleHasAttempts(g, generation, s);
    hide *;
    ConvergesExactly(g, Behind(g, generation, s));
    StoredIsSettled(g, generation, s);
  }

  lemma StoredIsSettled(g: Goal, generation: int, s: Scene)
    requires s.device.nodeId != ""
    ensures StoredInTime(g, generation, s) <==> SettlesInTime(g, Behind(g, generation, s))
  {
    hide AfterReconciles, HonestDrift, ReadyAt, InTime, StoredReady, Behind, With;
    forall drift, n: nat
      ensures StoredReady(AfterReconciles(With(g, drift), generation, s, n + 1).stored)
         <==> ReadyAt(With(g, drift), Behind(g, generation, s), n)
    {
      StoredWith(g, generation, s, drift, n);
    }
  }

  lemma StoredWith(g: Goal, generation: int, s: Scene, drift: (nat, Config) -> seq<string>, n: nat)
    requires s.device.nodeId != ""
    ensures StoredReady(AfterReconciles(With(g, drift), generation, s, n + 1).stored)
       <==> ReadyAt(With(g, drift), Behind(g, generation, s), n)
  {
    assert Behind(With(g, drift), generation, s) == Behind(g, generation, s);
    hide *;
    ReconcilesFollow(With(g, drift), generation, s, n);
  }

  // ----- The controller's own reconcile, on a Fake

  /** A reconcile of the stored object with a Fake behind it leaves the next scene of some
      honest run. */
  method ReconcileOnFake(sha: Sha, api: C.ApiObject, dev: Fake, desired: Config, chans: DesiredChannels)
    requires chans.compare != [] ==> chans.write != []
    modifies api, dev
    ensures api.generation == old(api.generation)
    ensures exists drift ::
      && HonestDrift(Goal(sha, desired, chans, drift))
      && Scene(dev.State(), api.stored) ==
         Reconciled(Goal(sha, desired, chans, drift), api.generation, Scene(old(dev.State()), old(api.stored)))
  {
    hide Step, Calls, PerformAll, ForComparison, FakeAnswers, C.PriorState, C.Fingerprint, C.ReconciledStatus,
         HonestDrift;
    var f := FakeState(dev.config, dev.unreachableFor, dev.rebootWindow, dev.nodeId,
                       dev.applies, dev.reboots, dev.exports, dev.channelApplies);
    ghost var before := Scene(f, api.stored);
    var client := new Client(FakeAnswers(f));
    C.ReconcileObject(sha, api, C.Resolved(desired, chans), client, true);
    ghost var said :| C.IsReconcile(sha, before.stored, api.generation, C.Resolved(desired, chans), client, true,
                                    api.stored, said);
    ghost var prior := C.PriorState(before.stored, api.generation, C.Fingerprint(sha, desired, chans));
    ghost var g := OneStep(sha, f, desired, chans, prior, said,
                           Step(sha, desired, chans, prior, FakeAnswers(f), said), client.calls);
    SaidInRun(g, api.generation, before, said);
    var _ := Replay(sha, dev, client.calls);
    assert HonestDrift(Goal(sha, desired, chans, g.drift));
  }

  /** The status a step leaves depends on what Drift said only through the step's result. */
  lemma SaidInRun(g: Goal, generation: int, s: Scene, said: seq<string>)
    requires var prior := Behind(g, generation, s).prior;
             Step(g.sha, g.desired, g.chans, prior, FakeAnswers(s.device), said) == Result(g, Behind(g, generation, s))
    ensures C.ReconciledStatus(g.sha, s.stored, generation, C.Resolved(g.desired, g.chans), FakeAnswers(s.device), said)
         == StatusAfter(g, generation, s)
  {
    var d, a := DriftSeen(g, Behind(g, generation, s)), FakeAnswers(s.device);
    hide Step, FakeAnswers, DriftSeen, C.SteppedStatus, C.PriorState, C.Fingerprint, C.ReconciledStatus;
    C.ResolvedStatus(g.sha, s.stored, generation, g.desired, g.chans, a, said);
    C.ResolvedStatus(g.sha, s.stored, generation, g.desired, g.chans, a, d);
  }
}
