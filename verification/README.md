# NephMesh operator: what its control loop and its measurements promise

A Dafny model of the Meshtastic operator of NephMesh and proofs about it. The operator
makes a LoRa mesh radio match a declared configuration: it exports what the radio holds,
compares, writes one drifted surface at a time, reboots the radio and waits, keeping its
memory in the status of a Kubernetes object. Around that loop sit a compiler from a
communication intent to node specs, a reducer of delivery logs, a spectrum analyser and an
advisor that reads a language model's reply.

| files | what they model |
|---|---|
| `Text`, `Sorting`, `Sets`, `Numbers` | the string, ordering and counting facts everything else needs |
| `ConfigTree`, `ConfigDrift`, `ConfigMerge` | configuration trees: covering, drift and what it owes to map order, merge on write, reading back |
| `Channels`, `Device` | channels, key hashes, the Secret fingerprint; `Fake`, the repository's executable device |
| `Reconcile`, `Convergence` | one convergence step against any device; whole runs against `Fake` |
| `Controller`, `Runs`, `Passwords` | the status written around a step; whole controller runs against any device; when a Ready object's device holds the declared password |
| `Settling` | convergence as the stored status shows it, through the controller |
| `Desired`, `Intent`, `Airtime` | node specs, intents and LoRa time-on-air |
| `Resilience` | the two reducers of a delivery log |
| `Advisor` | the scanner for a JSON object in a reply, against the grammar of RFC 8259 |
| `Spectrum`, `Classify` | occupancy, pooling, and emissions as maximal runs |

How to read it:

- Loops and in-place updates are methods and classes. Each is proved equal to a function of
  its inputs, or to satisfy a predicate that says what its result means; the results below
  are proved about those.
- Go ranges over a map in an arbitrary order. Here the order is an arbitrary choice, so a
  result that is equal to a function of the inputs does not depend on it.
- `Convergence` counts in calls, as `Fake` does: `u` is the number of calls the device will
  still be away, `w` its reboot window, and `need` (0, 1 or 2) the number of surfaces that
  have drifted.
- `Runs` gives every step a device that may answer anything, a write that may land although
  it was reported as dropped, and a status update that may be lost.
- SHA-256 is a function parameter. Where a result needs that it does not collide, or that
  it is never empty, the lemma asks for that.

Four properties turned out to hold only under a condition, and the condition is part of
the result:

- Drift after a write is certain to be empty exactly when no stored or declared key of
  another spelling disagrees (`ConfigMerge.WriteThenReadExact`).
  `Desired.CollidingKeysMayMisread` gives the devices on which it fails for a real spec.
- The loop is Ready in time and stays Ready, whatever order Go ranges over colliding keys
  in, exactly when the comparison does not hang on that order
  (`Convergence.ConvergesExactly`, and `Settling.SettlesExactly` for the stored status).
  Devices without colliding keys are always so.
- Ready can be trusted for the declared password exactly when nothing is recorded or the
  recorded password is the one that last landed on the radio (`Passwords.PasswordExact`).
  `Passwords.RevertAfterUnseenWrite` shows both ways it fails: a write that was reported as
  dropped but landed, and an acknowledged write whose status update was lost.
- A confidence is a number in [0.3, 1] except in exactly two settings that divide 0 by 0
  (`Classify.EmissionConfidence`); `Classify.CarrierIsNaN` gives a sweep for each.

Where the code and its comments differ, the model follows the code: scalars compare
case-sensitively although the comment on `IsConverged` says lowercased (diff.go:40-46); a
preset outside the approved set becomes `investigate`, not HOLD (advisor.go:138-163); the
"earliest" receipt is the first in log order (resilience.go:180-183); and the emission class
`unknown` is never produced (classify.go:275-299).

## Model

| member | source | states |
|---|---|---|
| `Reconcile.Converge` | operators/meshtastic-operator/internal/reconcile/converge.go:129-311 | on any client, the calls made and the outcome are those `Step` and `Calls` give for its answers and for a verdict Drift may have returned |
| `Reconcile.ConvergeSeen` | operators/meshtastic-operator/internal/reconcile/converge.go:181-310 | once the device has answered, at most one surface is written, scalars before channels, and a reboot follows exactly an acknowledged write |
| `Reconcile.Identify` | operators/meshtastic-operator/internal/reconcile/converge.go:157-180 | the separate identity call is made exactly when the export carries no node id |
| `Reconcile.WriteSurface` | operators/meshtastic-operator/internal/reconcile/converge.go:260-310 | a dropped write counts an attempt and leaves the password hash; another error is returned; an acknowledged one reboots whatever Reboot answers |
| `Reconcile.CompareScalars` | operators/meshtastic-operator/internal/reconcile/converge.go:183-190 | the drift of a step, with the password path added exactly when its hash is not the recorded one |
| `Reconcile.CompareChannelSet` | operators/meshtastic-operator/internal/reconcile/converge.go:191-195 | no channel drift is reported for an export that carries no channel set |
| `Reconcile.ReadyMeansSeen` | operators/meshtastic-operator/internal/reconcile/converge.go:200-222 | against any device, Ready means the export covers the declared tree, every declared channel sits equal in its slot, the declared password is the recorded one, and the node has an id |
| `Reconcile.ReadyMeansNoDrift` | operators/meshtastic-operator/internal/reconcile/converge.go:196-222 | Ready leaves no drift of any kind and exactly the in-sync outcome |
| `Reconcile.StepAccounts` | operators/meshtastic-operator/internal/reconcile/converge.go:242-311 | attempts rise by one exactly on a write that may have landed, drop to 0 exactly on Ready; the password hash moves only on Ready and on an acknowledged config write; no write at five attempts; Degraded only at five |
| `Reconcile.ExportErrors` | operators/meshtastic-operator/internal/reconcile/converge.go:129-146 | an export that finds the device away or runs into its deadline is waited for with everything remembered, an unsupported transport is reported as such, any other error is returned; nothing else is called |
| `Reconcile.InfoErrors` | operators/meshtastic-operator/internal/reconcile/converge.go:163-180 | the same for a node id that has to be asked for, where an unsupported transport is an error |
| `Reconcile.NothingToWrite` | operators/meshtastic-operator/internal/reconcile/converge.go:200-240 | with nothing to write no write is made: Ready, or waiting when the node has no id, or Unobserved when declared channels are not exported |
| `Reconcile.TooManyAttempts` | operators/meshtastic-operator/internal/reconcile/converge.go:246-258 | from five attempts on a device that needs a write is Degraded, keeps its count, and is not written |
| `Reconcile.WriteOutcomes` | operators/meshtastic-operator/internal/reconcile/converge.go:260-311 | below five attempts exactly one surface is written, scalars first: answered, it is followed by a reboot and counted; away or past its deadline, it is counted, pending and records no password; any other error is returned |
| `Reconcile.CountedIsCalled` | operators/meshtastic-operator/internal/reconcile/converge.go:260-285 | what counts as an attempt is a write call that was answered, found the device away or ran into its deadline |
| `Device.Fake.constructor` | operators/meshtastic-operator/internal/device/fake.go:52-61 | a reachable device that holds the initial configuration, with all counters 0 |
| `Device.Fake.Tick` | operators/meshtastic-operator/internal/device/fake.go:67-73 | one call used up of the reboot window; reachable exactly when none was left |
| `Device.Fake.ExportConfig` | operators/meshtastic-operator/internal/device/fake.go:77-97 | a reachable device answers its configuration without the password and with a channel list; an absent one only counts the call |
| `Device.Fake.Apply` | operators/meshtastic-operator/internal/device/fake.go:119-127 | a reachable device stores the merge and goes away for its reboot window |
| `Device.Fake.ApplyChannels` | operators/meshtastic-operator/internal/device/fake.go:134-171 | a reachable device overlays the written channels by slot and lists them in slot order; an empty write changes nothing |
| `Device.Fake.Reboot` | operators/meshtastic-operator/internal/device/fake.go:207-214 | a reboot of an absent device changes nothing, not even the window |
| `Device.Fake.Info` | operators/meshtastic-operator/internal/device/fake.go:217-222 | the identity of a reachable device, at the cost of one call |
| `Device.Fake.SetInfo` | operators/meshtastic-operator/internal/device/fake.go:65 | the identity replaced and nothing else |
| `Device.ListSlots` | operators/meshtastic-operator/internal/device/fake.go:158-166 | a map ranged over in any order and sorted by slot gives one list |
| `Device.CollectSlots` | operators/meshtastic-operator/internal/device/fake.go:141-157 | stored channels by slot, later and written ones taking over |
| `Device.OverlayHolds` | operators/meshtastic-operator/internal/device/fake.go:149-157 | with distinct slots every written channel is the one stored in its slot |
| `Device.ListingSlot` | operators/meshtastic-operator/internal/config/channels.go:188-215 | a stored channel is read back from its slot, its key hash normalized |
| `Device.StoreExact` | operators/meshtastic-operator/internal/device/fake.go:134-171 | a channel write leaves the last write of each slot with its key hashed and the public default for none, what was stored in every other slot, and every other entry of the configuration |
| `Convergence.Converges` | operators/meshtastic-operator/internal/reconcile/converge.go:129-311 | with attempts left for the writes still needed, Ready is reported at step n if and only if n >= u + need * (w + 1), each drifted surface having been written exactly once by then and never again, whatever order colliding keys are ranged over in |
| `Convergence.NeverReady` | operators/meshtastic-operator/internal/reconcile/converge.go:242-258 | with too few attempts left Ready is never reported: the attempt bound of Converges is exact |
| `Convergence.ReadyWithinBound` | operators/meshtastic-operator/internal/reconcile/converge.go:129-311 | in a decisive comparison, Ready comes within u + 2w + 3 steps with at most one config and one channel write, and stays |
| `Convergence.UnambiguousIsDecisive` | operators/meshtastic-operator/internal/config/diff.go:127-162 | without colliding keys the comparison never hangs on the order of the live keys |
| `Convergence.ConvergesExactly` | operators/meshtastic-operator/internal/reconcile/converge.go:129-311 | from at most three attempts the loop is Ready within u + 2w + 3 steps and stays Ready, whatever order colliding keys are ranged over in, if and only if the comparison does not hang on that order: now if the tree is held, else after it is written |
| `Convergence.StaleNeverReady` | operators/meshtastic-operator/internal/config/diff.go:134-162 | where some order finds drift both before and after the write, an unlucky order keeps the loop from ever being Ready |
| `Convergence.Waiting` | operators/meshtastic-operator/internal/reconcile/converge.go:140-146 | while the device is away the loop neither writes nor forgets, and is not Ready |
| `Convergence.WritingStep` | operators/meshtastic-operator/internal/reconcile/converge.go:260-310 | a step that writes lowers the number of writes needed by one, raises the attempts by one and opens the reboot window |
| `Convergence.SettledStays` | operators/meshtastic-operator/internal/reconcile/converge.go:200-222 | a device that needs nothing stays Ready for ever and is only exported from |
| `Convergence.ApplyHolds` | operators/meshtastic-operator/internal/device/fake.go:119-127 | after a config write the export covers the declared tree, the channels are held exactly if they were before, and the scalars are held if the comparison was decisive or the declared tree has no colliding keys |
| `Convergence.ChannelWriteHolds` | operators/meshtastic-operator/internal/device/fake.go:134-171 | after a channel write the channels are held, and scalars that were held still are |
| `Convergence.GivenUpStep` | operators/meshtastic-operator/internal/reconcile/converge.go:246-258 | at the attempt bound a drifted device is Degraded and left alone |
| `Convergence.AnswersAreTheModels` | operators/meshtastic-operator/internal/device/fake.go:63-222 | every call of a step finds the device model giving the very reply the step was computed from |
| `Convergence.Replay` | operators/meshtastic-operator/internal/device/fake.go:63-222 | a sequence of calls made on a Fake leaves it, and is replied to, as the call-by-call state functions say |
| `Convergence.ConvergeOnFake` | operators/meshtastic-operator/internal/reconcile/converge.go:129-311 | a step against a Fake concludes and leaves behind what the run lemmas reason about, and the Fake replied to every call as Converge was told |
| `Controller.MeshtasticNode.ApplyOutcome` | operators/meshtastic-operator/internal/controller/meshtasticnode_controller.go:422-473 | all five conditions, the generation, attempts and password hash follow the outcome; the node id is never blanked |
| `Controller.MeshtasticNode.ApplyChannelsInSync` | operators/meshtastic-operator/internal/controller/meshtasticnode_controller.go:328-351 | the condition says whether the declared channels match, and is removed when none are declared |
| `Controller.MeshtasticNode.SecretFailure` | operators/meshtastic-operator/internal/controller/meshtasticnode_controller.go:367-392 | not Ready, every device-derived condition dropped, all remembered state kept |
| `Controller.MeshtasticNode.DeviceFailure` | operators/meshtastic-operator/internal/controller/meshtasticnode_controller.go:399-420 | not Ready, Degraded kept, all remembered state kept |
| `Controller.MeshtasticNode.RecordOutcome` | operators/meshtastic-operator/internal/controller/meshtasticnode_controller.go:159-182 | an unobserved channel set reads Unknown, an unreachable device no channel condition at all |
| `Controller.ReconcileObject` | operators/meshtastic-operator/internal/controller/meshtasticnode_controller.go:122-220 | the calls made are one step from the recorded state, with attempts reset on a new generation or fingerprint; a lost status update leaves the stored status as it was |
| `Controller.ReconcileWrites` | operators/meshtastic-operator/internal/controller/meshtasticnode_controller.go:136-146 | a reconcile of a drifted device that answers makes a write call if and only if the generation or the Secret fingerprint differs from the stored one or fewer than five attempts are stored |
| `Controller.ReconcileCounts` | operators/meshtastic-operator/internal/controller/meshtasticnode_controller.go:136-160 | what that reconcile stores: Degraded with the count kept, or the count (0 after a change) and one more; another error on the write leaves the device-failure status |
| `Controller.AwayExact` | operators/meshtastic-operator/internal/controller/meshtasticnode_controller.go:136-182 | an absent device keeps the pending reboot, the count, the password hash and the node id, and is neither Ready nor Reachable |
| `Controller.StatusExact` | operators/meshtastic-operator/internal/controller/meshtasticnode_controller.go:159-182 | every condition and field of the stored status, from the outcome of the step |
| `Controller.FailuresExact` | operators/meshtastic-operator/internal/controller/meshtasticnode_controller.go:367-420 | after a failed Secret only Ready=False is left of the conditions; after a failed device also Degraded; every other field is kept |
| `Settling.StoredReadyExactly` | operators/meshtastic-operator/internal/controller/meshtasticnode_controller.go:122-220 | a stored object whose spec and Secrets stay, with no update lost, reads Ready from reconcile u + need * (w + 1) + 1 on and never before, whatever its status was, with attempts left for the writes still needed |
| `Settling.SettlesExactly` | operators/meshtastic-operator/internal/controller/meshtasticnode_controller.go:122-220 | from every stored status of at most three attempts, and from every one at all once spec or Secrets change, Ready is stored within u + 2w + 3 reconciles and stays, whatever order colliding keys are ranged over in, if and only if the comparison does not hang on that order |
| `Settling.ReconcilesFollow` | operators/meshtastic-operator/internal/controller/meshtasticnode_controller.go:122-220 | the stored Ready condition after each reconcile is the outcome of the convergence step behind it |
| `Settling.ReconcileOnFake` | operators/meshtastic-operator/internal/controller/meshtasticnode_controller.go:122-220 | a reconcile of the stored object with a Fake behind it leaves the status and device those lemmas reason about |
| `Runs.ApplyBound` | operators/meshtastic-operator/internal/controller/meshtasticnode_controller.go:136-160 | over every run against any device, writes that may have landed number at most 5 * (1 + Ready reports + generation or fingerprint changes) + status updates lost after one, and stored attempts stay in 0..5 |
| `Runs.RunBounded` | operators/meshtastic-operator/internal/controller/meshtasticnode_controller.go:136-220 | the accounting invariant behind that bound, through lost updates and steps whose errors leave the trigger of the reset in place |
| `Runs.HistoryExact` | operators/meshtastic-operator/internal/controller/meshtasticnode_controller.go:136-160 | what one step adds to the counts of that bound, call by call and error by error |
| `Runs.StatusInvariant` | operators/meshtastic-operator/internal/controller/meshtasticnode_controller.go:159-182 | in every reachable stored status Ready=True implies Reachable, ConfigInSync, no RebootPending, not Degraded, 0 attempts, and ChannelsInSync if the last recorded spec declared channels |
| `Runs.AdvanceObject` | operators/meshtastic-operator/internal/controller/meshtasticnode_controller.go:122-220 | a reconcile of the stored object is a step of a run: it leaves the status the run lemmas reason about, for a verdict Drift may have reached |
| `Passwords.PasswordExact` | operators/meshtastic-operator/internal/reconcile/converge.go:183-190 | over every run, no possible next step reports Ready for a declared password the device does not hold if and only if nothing is recorded or the recorded password is the one that last landed |
| `Passwords.PasswordSafety` | operators/meshtastic-operator/internal/reconcile/converge.go:183-222 | a step that reports Ready declares the recorded password, and the device holds it if and only if it is the one that last landed |
| `Passwords.RunTracked` | operators/meshtastic-operator/internal/reconcile/converge.go:271-310 | status holds the hash of the password last recorded, the device the password that last landed |
| `Passwords.SeenRunIsSafe` | operators/meshtastic-operator/internal/reconcile/converge.go:271-287 | any schedule of Secret changes can be trusted when every password that lands is recorded, whatever other status updates are lost |
| `Passwords.FixedSecretIsSafe` | operators/meshtastic-operator/internal/reconcile/converge.go:271-287 | one fixed Secret can be trusted whatever dropped writes land and whatever status updates are lost |
| `Passwords.RevertAfterUnseenWrite` | operators/meshtastic-operator/internal/reconcile/converge.go:271-287 | for every node spec with MQTT enabled, every device that carries its channels and every two passwords with different hashes: rotate, lose sight of the write, revert, and the next step reports Ready while the device holds the rotated password, every export having been honest |
| `Passwords.PasswordStep` | operators/meshtastic-operator/internal/reconcile/converge.go:183-310 | what one step does to the recorded hash and to the password on the device |
| `ConfigDrift.Drift` | operators/meshtastic-operator/internal/config/diff.go:127-132 | the sorted drift; its possible answers are exactly those some order of the colliding live keys gives |
| `ConfigDrift.CollectDrift` | operators/meshtastic-operator/internal/config/diff.go:134-162 | the paths found, counted, are what some order of the live keys gives, and without colliding live keys one bag |
| `ConfigDrift.VerdictMeans` | operators/meshtastic-operator/internal/config/diff.go:127-162 | an empty answer means that some order finds nothing and that the tree is covered; the answer is empty where no order finds drift, and one fixed list without colliding live keys |
| `ConfigDrift.CleanVerdict` | operators/meshtastic-operator/internal/config/diff.go:127-162 | the empty answer is possible if and only if some order leaves every desired key clean |
| `ConfigDrift.CoveredIsMaybe` | operators/meshtastic-operator/internal/config/diff.go:134-162 | where no two desired keys share a normal form, some order finds nothing if and only if the live tree covers the desired one |
| `ConfigDrift.IndexLive` | operators/meshtastic-operator/internal/config/diff.go:135-138 | every normal form of a live key is indexed by one of the keys that have it |
| `ConfigDrift.DriftPathsEmpty` | operators/meshtastic-operator/internal/config/diff.go:127-162 | without colliding live keys no drift is reported if and only if the live tree covers the desired one |
| `ConfigDrift.DriftPathsExact` | operators/meshtastic-operator/internal/config/diff.go:134-162 | without colliding live keys the paths reported are exactly those at which the trees part, keys in any spelling, joined by dots |
| `Text.NormKeyExact` | operators/meshtastic-operator/internal/config/diff.go:32-38 | two keys have one normal form if and only if they agree letter by letter, underscores passed over and case ignored |
| `Text.SpaceIs` | operators/meshtastic-operator/internal/config/diff.go:164-172 | the characters trimmed, all of them |
| `Text.TrimCuts` | operators/meshtastic-operator/internal/config/diff.go:164-172 | trimming takes white space from both ends, and leaves a text with none at its ends |
| `Text.TrimsTo` | operators/meshtastic-operator/internal/config/diff.go:164-172 | a text with white space around it is trimmed to the text |
| `ConfigTree.ScalarEqualExact` | operators/meshtastic-operator/internal/config/diff.go:164-172 | scalars compare equal if and only if both print as one text with white space around it |
| `ConfigTree.NamesEqualExact` | api/mesh/v1alpha1/meshtasticnode_types.go:37-51 | over the characters the API allows in a region, a preset or a role only equal texts compare equal |
| `ConfigDrift.DriftBagTake` | operators/meshtastic-operator/internal/config/diff.go:134-162 | the drift found does not depend on which desired key is compared first |
| `ConfigTree.CoveredReflexive` | operators/meshtastic-operator/internal/config/diff.go:40-46 | every tree covers itself |
| `ConfigTree.CoveredTransitive` | operators/meshtastic-operator/internal/config/diff.go:40-46 | covering is transitive, colliding keys or not |
| `ConfigDrift.CleanIsSure` | operators/meshtastic-operator/internal/config/diff.go:134-162 | with colliding live keys the comparison is clean for every iteration order if and only if every live key of a desired normal form covers it |
| `ConfigDrift.MayBeKept` | operators/meshtastic-operator/internal/config/diff.go:135-138 | any of several colliding live keys may be the one compared |
| `ConfigDrift.CoveredIsSure` | operators/meshtastic-operator/internal/config/diff.go:134-162 | without colliding live keys a covered tree compares clean for every order |
| `ConfigTree.RemovePathAt` | operators/meshtastic-operator/internal/config/diff.go:111-122 | removing a path leaves every value not on it |
| `ConfigMerge.MergeMap` | operators/meshtastic-operator/internal/device/fake.go:251-264 | the merge, whatever order the source is ranged over |
| `ConfigMerge.StripIsForComparison` | operators/meshtastic-operator/internal/device/fake.go:106-114 | the device hides exactly the field the comparison ignores |
| `ConfigMerge.WriteThenRead` | operators/meshtastic-operator/internal/device/fake.go:119-127 | for all trees a written configuration is covered by the next export, and without colliding merged keys Drift is empty |
| `ConfigMerge.WriteThenReadExact` | operators/meshtastic-operator/internal/device/fake.go:119-127 | reading back is free of drift for every iteration order if and only if each other spelling of a declared key, stored or declared, agrees |
| `ConfigMerge.MergeIdempotent` | operators/meshtastic-operator/internal/device/fake.go:251-264 | a second merge changes nothing |
| `ConfigMerge.MergeFrame` | operators/meshtastic-operator/internal/device/fake.go:251-264 | every path the source does not mention keeps its value |
| `ConfigMerge.MergeWrites` | operators/meshtastic-operator/internal/device/fake.go:251-264 | every scalar of the source stands at its path afterwards |
| `ConfigMerge.MergePassword` | operators/meshtastic-operator/internal/device/fake.go:119-127 | a write sets the password it declares and leaves the stored one when it declares none |
| `Channels.ReadLiveChannels` | operators/meshtastic-operator/internal/config/channels.go:188-215 | the exported channels in slot order with the expanded default key read as the default |
| `Channels.CompareChannels` | operators/meshtastic-operator/internal/config/channels.go:222-249 | the sorted drift of the declared channels against the last live channel of each slot |
| `Channels.ChannelDriftEmpty` | operators/meshtastic-operator/internal/config/channels.go:222-255 | no drift if and only if every declared channel sits in its slot equal in every field |
| `Channels.ChannelDriftExact` | operators/meshtastic-operator/internal/config/channels.go:217-249 | the paths reported are exactly a missing channel or its differing fields, by slot and field name |
| `Channels.SlotExact` | operators/meshtastic-operator/internal/config/channels.go:223-226 | of several live channels in one slot the last one listed is compared |
| `Channels.LiveExact` | operators/meshtastic-operator/internal/config/channels.go:188-215 | every exported channel is read with its own fields, the hash of the written-out default key as that of the short one |
| `Channels.KeysExact` | operators/meshtastic-operator/internal/config/channels.go:73-115 | the public default in both forms, byte by byte, and the key lengths accepted |
| `Channels.FingerprintFaithful` | operators/meshtastic-operator/internal/config/channels.go:137-147 | for distinct slots two fingerprints are equal if and only if the password hash and the channel set are, whatever the declaration order and whatever characters a name no longer than a key hash holds, unless the digests of the two texts collide |
| `Channels.FingerprintReadable` | operators/meshtastic-operator/internal/config/channels.go:137-147 | the hashed text can be read back in one way only: a name's end cannot fall inside the key hash of another |
| `Channels.SortByIndexCanonical` | operators/meshtastic-operator/internal/config/channels.go:141-142 | sorting by distinct slots forgets the declaration order |
| `Desired.BuildDesired` | operators/meshtastic-operator/internal/config/desired.go:43-99 | filling the tree in place gives the declared sections and nothing else |
| `Desired.DesiredExact` | operators/meshtastic-operator/internal/config/desired.go:43-99 | the tree holds at every path exactly the text the spec declares there, and nothing elsewhere |
| `Desired.DeclaredIsHeld` | operators/meshtastic-operator/internal/config/diff.go:127-172 | an export that covers what is compared holds every declared field but the password, keys in any spelling and white space aside |
| `Desired.SetPathWrites` | operators/meshtastic-operator/internal/config/desired.go:101-112 | the value stands at its path and every other path keeps its value |
| `Desired.DesiredShape` | operators/meshtastic-operator/internal/config/desired.go:69-99 | a spec never declares a channel list, and declares a password exactly under an enabled MQTT section |
| `Desired.RadioDeclared` | operators/meshtastic-operator/internal/config/desired.go:46-55 | region and preset stand at their paths in what is compared |
| `Desired.CoveredHolds` | operators/meshtastic-operator/internal/config/diff.go:134-172 | a covered scalar is found in the live tree at its path, keys in any spelling, value trimmed |
| `Desired.BuildDesiredChannels` | operators/meshtastic-operator/internal/controller/meshtasticnode_controller.go:273-323 | the first channel whose Secret cannot be used rejects all of them |
| `Desired.ChannelExact` | operators/meshtastic-operator/internal/controller/meshtasticnode_controller.go:273-320 | for every Secret: which is refused and why, and what is compared and written for the rest |
| `Desired.RejectedExact` | operators/meshtastic-operator/internal/controller/meshtasticnode_controller.go:273-300 | the set is rejected for the first channel whose Secret cannot be used, with its slot and problem |
| `Desired.ResolvedChannels` | operators/meshtastic-operator/internal/controller/meshtasticnode_controller.go:273-323 | accepted channels pair up in order: one compared and one written per declared channel |
| `Desired.NoSilentDowngrade` | operators/meshtastic-operator/internal/controller/meshtasticnode_controller.go:287-312 | the public default is written if and only if the channel has no Secret or its Secret holds the public default |
| `Desired.ResolvedCoherent` | operators/meshtastic-operator/internal/controller/meshtasticnode_controller.go:300-320 | what is compared is what the device will read back after storing what is written |
| `Desired.SpecConvergesExactly` | operators/meshtastic-operator/internal/reconcile/converge.go:129-311 | bounded convergence for any node spec whose channel Secrets resolve to distinct slots, under the same exact condition |
| `Desired.SpecUnambiguous` | operators/meshtastic-operator/internal/config/desired.go:43-99 | no two keys of a declared section share a normal form, for any spec |
| `Desired.SpecMayBeClean` | operators/meshtastic-operator/internal/config/diff.go:134-162 | for any spec, some order finds no drift if and only if the export covers what is declared |
| `Desired.ComparisonIgnoresPassword` | operators/meshtastic-operator/internal/config/diff.go:57-74 | the password a spec resolves to plays no part in the comparison |
| `Desired.CollidingKeysMayMisread` | operators/meshtastic-operator/internal/config/diff.go:134-138 | for every spec with MQTT enabled, a device that stores the opposite flag as jsonEnabled keeps it through the write of json_enabled, and some order of the keys then finds drift in what was just written |
| `Desired.StaleSpellingNeverReady` | operators/meshtastic-operator/internal/config/diff.go:134-138 | on such a device an unlucky order keeps the loop from ever being Ready |
| `Desired.ResolvedLineSafe` | api/mesh/v1alpha1/meshtasticnode_types.go:153-160 | resolved channels can be read back from the hashed text when their names are no longer than a digest, as the API demands |
| `Desired.FingerprintTellsSpecsApart` | operators/meshtastic-operator/internal/controller/meshtasticnode_controller.go:134-146 | the bound hash changes if and only if the hash of the declared password or the set of resolved channels does |
| `Intent.Compile` | operators/meshtastic-operator/internal/intent/compile.go:70-130 | feasible if and only if there are nodes, their names are distinct and some approved preset is known; then the first known preset is rendered for every node; otherwise the first failing check is named |
| `Intent.SelectPreset` | operators/meshtastic-operator/internal/intent/compile.go:94-106 | the first approved preset that is known |
| `Intent.HasDuplicate` | operators/meshtastic-operator/internal/intent/compile.go:78-87 | whether two targets share a name |
| `Intent.OverBudgetStays` | operators/meshtastic-operator/internal/intent/compile.go:155-170 | an over-budget verdict stays over budget when nodes, rate or a positive payload grows |
| `Intent.AirtimeExact` | operators/meshtastic-operator/internal/intent/compile.go:137-188 | within budget if and only if the frames, header included, take at most a quarter of a minute; the percentage is the nearest, halves up |
| `Intent.NotEvaluatedExact` | operators/meshtastic-operator/internal/intent/compile.go:137-165 | no verdict if and only if no traffic is declared, its rate is not positive, or the preset is unknown |
| `Intent.FasterPresetFits` | operators/meshtastic-operator/internal/intent/compile.go:155-170 | a fleet within budget stays within it on every faster preset |
| `Intent.IntentReachesRadio` | operators/meshtastic-operator/internal/intent/compile.go:94-121 | a node rendered from a feasible intent and reported Ready exports the first known approved preset, the intent's region, every other declared field, and every declared channel with its name, key hash and flags; names over the API's characters stand there letter for letter |
| `Airtime.PresetsOrdered` | operators/meshtastic-operator/internal/airtime/airtime.go:53-98 | the eight presets are strictly ordered by time on air for every payload |
| `Airtime.PresetNanos` | operators/meshtastic-operator/internal/airtime/airtime.go:67-99 | a preset's time on air is a whole number of quarter symbols, fixed by the bounds of the datasheet's ceiling |
| `Airtime.PresetExact` | operators/meshtastic-operator/internal/airtime/airtime.go:53-110 | the time on air of each of the eight presets for every payload, in numbers, and that no other preset is known |
| `Airtime.TimeOnAirMonotone` | operators/meshtastic-operator/internal/airtime/airtime.go:67-99 | a longer payload never takes less time, for any radio parameters |
| `Airtime.FleetMonotone` | operators/meshtastic-operator/internal/airtime/airtime.go:192-206 | more nodes, messages or payload never lower the fleet's share of the channel |
| `Resilience.BuildIndex` | operators/meshtastic-operator/internal/resilience/resilience.go:184-231 | first sends, first receipts in scope and the receiver list, a function of the log alone |
| `Resilience.InferReceivers` | operators/meshtastic-operator/internal/resilience/resilience.go:187-198 | the receivers of a log in sorted order, whatever order the set is ranged over |
| `Resilience.ReceiversExact` | operators/meshtastic-operator/internal/resilience/resilience.go:187-198 | the receivers of a log are those with a logged receipt |
| `Resilience.SendIsFirst` | operators/meshtastic-operator/internal/resilience/resilience.go:204-212 | a message counts as sent if and only if a send of it is logged, at the time of the first one |
| `Resilience.SentAreDistinct` | operators/meshtastic-operator/internal/resilience/resilience.go:204-212 | the messages counted as sent are the distinct ones with a logged send |
| `Resilience.ReceiptIsFirst` | operators/meshtastic-operator/internal/resilience/resilience.go:213-229 | a message counts as received by a receiver in scope if and only if a receipt is logged, at the time of the first one |
| `Resilience.EarliestReceipt` | operators/meshtastic-operator/internal/resilience/resilience.go:180-183 | in a log written in time order that is the earliest receipt |
| `Resilience.CreditReceivers` | operators/meshtastic-operator/internal/resilience/resilience.go:470-480 | each listed receiver that heard the message is credited once per listing |
| `Resilience.Finalize` | operators/meshtastic-operator/internal/resilience/resilience.go:393-402 | the window of the tallied messages; its median and maximum latency depend on the samples alone |
| `Resilience.Reduce` | operators/meshtastic-operator/internal/resilience/resilience.go:143-178 | one report per log, whatever order the messages are ranged over |
| `Resilience.ReducePhases` | operators/meshtastic-operator/internal/resilience/resilience.go:276-340 | one report per log, whatever order the messages are ranged over; ill-formed boundaries are reported as invalid |
| `Resilience.SurvivalExact` | operators/meshtastic-operator/internal/resilience/resilience.go:306-340 | valid if and only if the inputs are well formed and every phase has traffic; survived if and only if valid, some later phase fell by more than the tolerance, the last did not, and the baseline delivered at least half; never with one boundary |
| `Resilience.PhasesExact` | operators/meshtastic-operator/internal/resilience/resilience.go:306-327 | each phase's messages, label, span, fall below the baseline and whether it is degraded |
| `Resilience.HeldUpExact` | operators/meshtastic-operator/internal/resilience/resilience.go:143-178 | the two windows and the verdict of Reduce, from the report's own fields |
| `Resilience.WindowExact` | operators/meshtastic-operator/internal/resilience/resilience.go:391-403 | one latency sample per delivery, each the milliseconds from first send to first receipt; the median and the largest reported; one row per listed receiver |
| `Resilience.RatioExact` | operators/meshtastic-operator/internal/resilience/resilience.go:393-396 | the ratio times what was expected is what was delivered |
| `Resilience.SearchPhase` | operators/meshtastic-operator/internal/resilience/resilience.go:298-300 | binary search finds the unique half-open phase that contains the send |
| `Resilience.ReducersAgree` | operators/meshtastic-operator/internal/resilience/resilience.go:171-177 | with one boundary the phases are Reduce's windows, and HeldUp holds if and only if the baseline is healthy and the second phase has traffic and is not degraded |
| `Resilience.PhasesConserve` | operators/meshtastic-operator/internal/resilience/resilience.go:297-310 | phase totals are the distinct messages sent, all deliveries and each receiver's deliveries, every one counted once |
| `Resilience.BoundaryRemoved` | operators/meshtastic-operator/internal/resilience/resilience.go:297-304 | removing a boundary adds the counts of the phases it joined and changes no other phase |
| `Resilience.WindowsAdd` | operators/meshtastic-operator/internal/resilience/resilience.go:150-158 | disjoint sets of messages add up in every count |
| `Resilience.DeliveredBound` | operators/meshtastic-operator/internal/resilience/resilience.go:140-142 | delivered never exceeds expected |
| `Resilience.DeliveredArePairs` | operators/meshtastic-operator/internal/resilience/resilience.go:470-480 | deliveries are at least the pairs of a message sent and a receiver in scope that heard it, and exactly those if and only if no receiver that heard something is listed twice |
| `Resilience.RowsSumExact` | operators/meshtastic-operator/internal/resilience/resilience.go:482-488 | the per-receiver rows add up to the deliveries if and only if no receiver that heard something is listed twice |
| `Resilience.RowBound` | operators/meshtastic-operator/internal/resilience/resilience.go:482-488 | with distinct receivers no row claims more deliveries than messages |
| `Resilience.InferredDistinct` | operators/meshtastic-operator/internal/resilience/resilience.go:187-198 | inferred receivers are distinct |
| `Advisor.BalancedFrom` | operators/meshtastic-operator/internal/advisor/advisor.go:197-221 | the text up to the first character that closes the scan, or nothing if none does |
| `Advisor.ScannerExact` | operators/meshtastic-operator/internal/advisor/advisor.go:195-221 | a scan from a JSON object returns exactly that object, whatever precedes or follows it |
| `Advisor.ValueNeutral` | operators/meshtastic-operator/internal/advisor/advisor.go:202-218 | every JSON value inside an object is scanned over without stopping |
| `Advisor.RunIsObject` | operators/meshtastic-operator/internal/advisor/advisor.go:188-190 | a balanced run that is valid JSON is an object with nothing around it |
| `Advisor.ExtractJsonObject` | operators/meshtastic-operator/internal/advisor/advisor.go:183-193 | empty if and only if no substring of the reply is a JSON object, and otherwise the one that starts earliest |
| `Advisor.ParseRecommendation` | operators/meshtastic-operator/internal/advisor/advisor.go:143-176 | the advice is the first JSON object, corrected: hold and investigate lose their preset, an unapproved preset becomes investigate and an unknown action hold, each with its note, a confidence that is none low, and everything else is kept |
| `Advisor.CorrectedIsSafe` | operators/meshtastic-operator/internal/advisor/advisor.go:153-175 | corrected advice names a known action, only an approved preset and one of three confidences, and safe advice is left as it was |
| `Spectrum.Analyze` | operators/meshtastic-operator/internal/spectrum/spectrum.go:175-216 | per band the count, nearest-rank floor, threshold, bins above it, mean and first strongest bin |
| `Spectrum.StatsExact` | operators/meshtastic-operator/internal/spectrum/spectrum.go:175-216 | counted over the sweep itself: the bins of the band, those over the threshold, and the first strongest |
| `Spectrum.SharesExact` | operators/meshtastic-operator/internal/spectrum/spectrum.go:209-210 | occupancy times the number of bins is a hundred times those over the threshold; the mean times it is their sum |
| `Spectrum.PercentileRanks` | operators/meshtastic-operator/internal/spectrum/spectrum.go:230-251 | the percentile is one of the values; at most n - rank - 1 exceed it and at most rank fall short |
| `Spectrum.RankCovers` | operators/meshtastic-operator/internal/spectrum/spectrum.go:243-249 | the nearest rank covers at least p percent of the values |
| `Spectrum.RankExact` | operators/meshtastic-operator/internal/spectrum/spectrum.go:243-249 | the rank is the least that covers p percent |
| `Spectrum.PercentileExact` | operators/meshtastic-operator/internal/spectrum/spectrum.go:230-251 | at least p percent of the values are no greater than the percentile, and fewer than p percent are less unless none is |
| `Spectrum.OccupancySaturates` | operators/meshtastic-operator/internal/spectrum/spectrum.go:167-174 | with p in 0..100 and no negative margin, occupancy never exceeds 100 - p |
| `Spectrum.PoolBins` | operators/meshtastic-operator/internal/spectrum/spectrum_text.go:181-204 | each cell holds the largest power of its group and the group's middle frequency |
| `Spectrum.CellExact` | operators/meshtastic-operator/internal/spectrum/spectrum_text.go:186-203 | the bins of each cell and its middle frequency, number by number |
| `Spectrum.GroupBounds` | operators/meshtastic-operator/internal/spectrum/spectrum_text.go:186-193 | groups are non-empty, leave no gap and run from the first bin to the last, for any number of cells |
| `Spectrum.GroupsPartition` | operators/meshtastic-operator/internal/spectrum/spectrum_text.go:186-193 | with no more cells than bins each group starts where the one before it ends |
| `Spectrum.PoolKeepsPeak` | operators/meshtastic-operator/internal/spectrum/spectrum_text.go:179-204 | a value is the largest power if and only if it is the largest cell |
| `Classify.Classify` | operators/meshtastic-operator/internal/spectrum/classify.go:144-212 | features against one band threshold, the median step, and one emission per maximal run, in order |
| `Classify.ClassExact` | operators/meshtastic-operator/internal/spectrum/classify.go:279-299 | wideband if and only if at least the wideband width; of the rest continuous if and only if at the sustained duty or more; packet otherwise |
| `Classify.ConfidenceExact` | operators/meshtastic-operator/internal/spectrum/classify.go:279-299 | the confidence in proportion to the distance from the boundary, between half and all of its weight, which is 0.6 for a single narrow bin |
| `Classify.ConfidenceGrows` | operators/meshtastic-operator/internal/spectrum/classify.go:279-299 | of two emissions of one class and weight the one further from its boundary is at least as sure |
| `Classify.ThresholdExact` | operators/meshtastic-operator/internal/spectrum/classify.go:154-178 | the threshold is the percentile of the bins' own percentiles plus the margin, and every bin is measured against it |
| `Classify.DutyExact` | operators/meshtastic-operator/internal/spectrum/classify.go:174-193 | a bin's duty is the percentage of its samples over the threshold, and it counts from the configured share on |
| `Classify.SelectExact` | operators/meshtastic-operator/internal/spectrum/classify.go:144-153 | the bins classified are those of the band with a sample |
| `Classify.Group` | operators/meshtastic-operator/internal/spectrum/classify.go:199-211 | the runs found are the maximal ones, in order, none left out |
| `Classify.RunsPartitionPresent` | operators/meshtastic-operator/internal/spectrum/classify.go:199-211 | every present bin lies in exactly one run and no absent bin in any |
| `Classify.SameRun` | operators/meshtastic-operator/internal/spectrum/classify.go:205-208 | two bins share a run if and only if every neighbouring pair between them is linked |
| `Classify.RunsSeparated` | operators/meshtastic-operator/internal/spectrum/classify.go:221-223 | neighbouring runs are separated by absent bins or by a gap over 1.5 grid steps |
| `Classify.RunsComplete` | operators/meshtastic-operator/internal/spectrum/classify.go:199-211 | no maximal run is left out |
| `Classify.EmissionsAscend` | operators/meshtastic-operator/internal/spectrum/classify.go:197-211 | with strictly increasing frequencies emissions are disjoint and ascending, each with its peak inside |
| `Classify.FeaturesAscend` | operators/meshtastic-operator/internal/spectrum/classify.go:144-153 | a sweep sorted by frequency gives features sorted by frequency |
| `Classify.GridStep` | operators/meshtastic-operator/internal/spectrum/classify.go:224-236 | the middle of the sorted positive gaps, or 1 MHz when there is none |
| `Classify.StepExact` | operators/meshtastic-operator/internal/spectrum/classify.go:224-236 | the step is one of the gaps with at most half of them below and fewer above, or 1 MHz |
| `Classify.MedianIsMajority` | operators/meshtastic-operator/internal/spectrum/classify.go:214-236 | a spacing held by more than half of the positive gaps is the step, whatever the others are |
| `Classify.IsolatedIsOneEmission` | operators/meshtastic-operator/internal/spectrum/classify.go:199-249 | two or more isolated bins on the majority spacing s are exactly one emission of bandwidth n * s |
| `Classify.BuildEmission` | operators/meshtastic-operator/internal/spectrum/classify.go:238-273 | edges, width, largest duty, first strongest bin and label of a run |
| `Classify.EmissionExact` | operators/meshtastic-operator/internal/spectrum/classify.go:238-273 | edges, largest duty and first strongest bin of the run; n bins spanning d are n * d / (n - 1) wide, and one bin is not |
| `Classify.EmissionConfidence` | operators/meshtastic-operator/internal/spectrum/classify.go:279-299 | the confidence of an emission is a number in [0.3, 1] if and only if neither 0/0 setting occurs, so always with non-zero wideband width and sustained duty under 100; it is never labelled unknown |
| `Classify.CarrierIsNaN` | operators/meshtastic-operator/internal/spectrum/classify.go:279-299 | with either setting a steady carrier in one bin of a quiet band is an emission whose confidence is 0/0 |

## Left out

- Convergence.ConvergesExactly: assumes that the declared tree names no channel list and that the device has a node id, as for every tree the operator builds and every Fake.
- Passwords.PasswordExact: assumes that no other password has the recorded one's hash, and that declared trees keep the password where BuildDesired puts it.
- Channels.SortByIndexCanonical: asks for distinct slots, since Go's sort.Slice is not stable and two channels in one slot may come out in either order.
- ConfigMerge.MergeMap: merges into a value rather than into the device's nested maps in place, so aliasing between a written tree and the device's own is not modelled; the same holds for the copies made by ForComparison and ExportConfig and for setPath.
- Advisor.ExtractJsonObject: json.Valid is taken to be the RFC 8259 grammar, and Go's nesting limit of 10000 is not modelled; text is a sequence of characters, where Go scans bytes, none of which beyond ASCII the scanner tells apart.
- Advisor.ParseRecommendation: decoding the object into fields is a parameter.
- Airtime.TimeOnAirMonotone: needs a spreading factor of 7 to 12, a positive bandwidth and a non-negative coding rate, as all presets have.
- Classify.EmissionsAscend: needs strictly increasing frequencies, which the sweep reader provides; Classify itself does not check.
- Floating point: all arithmetic is exact, so rounding, overflow and NaN samples are not modelled; only the two 0/0 confidences are.
- Scalars are their printed text: a password or node id that is not a string in YAML is not told apart from one that is.
- Keys are lower-cased in ASCII only.
- Channel entries of an export are typed records with integer slots; malformed entries, which Fake and the reader treat differently, are not modelled, nor are 32-bit slot numbers.
- The broker password's own Secret: the password is a parameter, and a Secret that cannot be read is one of the inputs of a reconcile.
- Telemetry and what follows from it: airtime conditions, current preset, last-heard time.
- Condition reasons and messages, Events, metrics, requeue times beyond their constants, finalizers and deletion.
- The Kubernetes client and watch: a lost status update is one arbitrary choice per step.
- The command-line device client, its timeouts and its error matching.
- Reading YAML, CSV and probe logs, and all text rendering but the pooling of bins.
- Declared-channel projection by hash map (channels.go:162-181), which the controller does not use.
- Predicted utilization from a measured value, health of a node's own airtime, and the sum of rows across windows: short arithmetic.
- Redaction of Secrets, frame headers, port defaults, connection validation.
