/** The device as the reconciler sees it, and the repository's executable model of
  one (internal/device/fake.go): a reboot window counted in calls, merge on write,
  and a password that is stored but never exported. */
module Device {
  import opened Sets
  import opened Sorting
  import opened ConfigTree
  import opened ConfigMerge
  import opened Channels

  datatype DeviceError = Unreachable | DeadlineExceeded | UnsupportedTransport | Other(message: string)

  datatype Reply<+T> = Answer(value: T) | Error(error: DeviceError)

  /** One channel to write; an empty key asks for the public default key. */
  datatype ChannelWrite = ChannelWrite(index: int, name: string, key: string, uplink: bool, downlink: bool)

  datatype FakeState = FakeState(
    config: Config, unreachableFor: nat, rebootWindow: nat, nodeId: string,
    applies: nat, reboots: nat, exports: nat, channelApplies: nat)

  // ----- What each call answers and leaves behind

  function Exported(config: Config): Config {
    var out := StripWriteOnly(config);
    if "channels" in out then out else out["channels" := ChannelList([])]
  }

  function Ticked(f: FakeState): FakeState {
    if f.unreachableFor > 0 then f.(unreachableFor := f.unreachableFor - 1) else f
  }

  function Reached<T>(f: FakeState, v: T): Reply<T> {
    if f.unreachableFor > 0 then Error(Unreachable) else Answer(v)
  }

  function AfterExport(f: FakeState): FakeState { Ticked(f).(exports := f.exports + 1) }

  function AfterApply(f: FakeState, desired: Config): FakeState {
    if f.unreachableFor > 0 then Ticked(f)
    else f.(config := Merge(f.config, desired), applies := f.applies + 1, unreachableFor := f.rebootWindow)
  }

  ghost function AfterApplyChannels(sha: Sha, f: FakeState, writes: seq<ChannelWrite>): FakeState {
    if f.unreachableFor > 0 then Ticked(f)
    else if writes == [] then f
    else f.(config := StoreChannels(sha, f.config, writes), channelApplies := f.channelApplies + 1,
            unreachableFor := f.rebootWindow)
  }

  function AfterReboot(f: FakeState): FakeState {
    if f.unreachableFor > 0 then f else f.(reboots := f.reboots + 1, unreachableFor := f.rebootWindow)
  }

  // ----- Storing channels

  function FakeChannelPskHash(sha: Sha, key: string): string {
    RawPskHash(sha, if key == "" then DEFAULT_PSK else key)
  }

  function StoredChannel(sha: Sha, w: ChannelWrite): ChannelState {
    ChannelState(w.index, w.name, FakeChannelPskHash(sha, w.key), w.uplink, w.downlink)
  }

  function BySlot(list: seq<ChannelState>): (m: map<int, ChannelState>)
    ensures Keyed(m)
  {
    if list == [] then map[] else BySlot(list[..|list| - 1])[list[|list| - 1].index := list[|list| - 1]]
  }

  function Overlay(sha: Sha, m: map<int, ChannelState>, writes: seq<ChannelWrite>): (r: map<int, ChannelState>)
    requires Keyed(m)
    ensures Keyed(r)
  {
    if writes == [] then m
    else
      var last := writes[|writes| - 1];
      Overlay(sha, m, writes[..|writes| - 1])[last.index := StoredChannel(sha, last)]
  }

  predicate Keyed(m: map<int, ChannelState>) { forall i :: i in m ==> m[i].index == i }

  /** The channels in ascending slot order. */
  ghost function Listing(m: map<int, ChannelState>): (r: seq<ChannelState>)
    ensures multiset(r) == multiset(m.Values) && Sorted(IndexLe, r)
  {
    SortedOf(IndexLe, multiset(m.Values))
  }

  function StoredList(config: Config): seq<ChannelState> {
    if ChannelSetPresent(config) then config["channels"].list else []
  }

  ghost function StoreChannels(sha: Sha, config: Config, writes: seq<ChannelWrite>): Config {
    config["channels" := ChannelList(Listing(Overlay(sha, BySlot(StoredList(config)), writes)))]
  }

  /** A map ranged over in any order, then sorted by slot: the same list each time. */
  method ListSlots(m: map<int, ChannelState>) returns (list: seq<ChannelState>)
    requires Keyed(m)
    ensures list == Listing(m)
  {
    ValuesKeyed(m);
    list := [];
    var todo := m.Keys;
    ghost var done: set<ChannelState> := {};
    while todo != {}
      invariant todo <= m.Keys
      invariant multiset(list) == multiset(done)
      invariant forall c :: c in done <==> c in m.Values && c.index !in todo
      decreases |todo|
    {
      var i := Pop(todo);
      assert m[i] !in done && m[i] in m.Values;
      list := list + [m[i]];
      todo, done := todo - {i}, done + {m[i]};
    }
    assert done == m.Values;
    list := SortByIndex(list);
    ListingAscends(m, list);
    ListingAscends(m, Listing(m));
    SortByIndexAscending(Listing(m));
    SortByIndexCanonical(Listing(m), list);
    SortByIndexAscending(list);
  }

  lemma ValuesKeyed(m: map<int, ChannelState>)
    requires Keyed(m)
    ensures forall c :: c in m.Values <==> c.index in m && m[c.index] == c
  {
    forall c | c in m.Values ensures c.index in m && m[c.index] == c {
      var k := KeyOfValue(m, c);
    }
  }

  lemma ListingAscends(m: map<int, ChannelState>, list: seq<ChannelState>)
    requires Keyed(m) && multiset(list) == multiset(m.Values) && Sorted(IndexLe, list)
    ensures Ascending(list)
  {
    ValuesKeyed(m);
    forall i, j | 0 <= i < j < |list| ensures list[i].index < list[j].index {
      assert IndexLe(list[i], list[j]);
      assert list[i] in multiset(list) && list[j] in multiset(list);
      assert multiset(list)[list[i]] <= 1;
      if list[i] == list[j] { TwiceInBag(list, i, j); }
    }
  }

  lemma TwiceInBag<T>(s: seq<T>, i: nat, j: nat)
    requires i < j < |s| && s[i] == s[j]
    ensures multiset(s)[s[i]] >= 2
  {
    assert s == s[..i] + [s[i]] + s[i + 1..j] + [s[j]] + s[j + 1..];
  }

  class Fake {
    var config: Config
    var unreachableFor: nat
    const rebootWindow: nat
    var nodeId: string
    var applies: nat
    var reboots: nat
    var exports: nat
    var channelApplies: nat

    ghost function State(): FakeState
      reads this
    {
      FakeState(config, unreachableFor, rebootWindow, nodeId, applies, reboots, exports, channelApplies)
    }

    constructor (initial: Config, rebootWindow: nat)
      ensures State() == FakeState(initial, 0, rebootWindow, "!6e000001", 0, 0, 0, 0)
    {
      config, unreachableFor, this.rebootWindow, nodeId := initial, 0, rebootWindow, "!6e000001";
      applies, reboots, exports, channelApplies := 0, 0, 0, 0;
    }

    method SetInfo(id: string)
      modifies this
      ensures State() == old(State()).(nodeId := id)
    {
      nodeId := id;
    }

    method Tick() returns (up: bool)
      modifies this
      ensures State() == Ticked(old(State())) && up == (old(unreachableFor) == 0)
    {
      if unreachableFor > 0 {
        unreachableFor := unreachableFor - 1;
        return false;
      }
      return true;
    }

    method ExportConfig() returns (r: Reply<Config>)
      modifies this
      ensures State() == AfterExport(old(State()))
      ensures config == old(config) && exports == old(exports) + 1
      ensures unreachableFor == if old(unreachableFor) == 0 then 0 else old(unreachableFor) - 1
      ensures r.Answer? <==> old(unreachableFor) == 0
      ensures r == Reached(old(State()), Exported(old(config)))
    {
      exports := exports + 1;
      var up := Tick();
      if !up {
        return Error(Unreachable);
      }
      var out := StripWriteOnly(config);
      if "channels" !in out {
        out := out["channels" := ChannelList([])];
      }
      return Answer(out);
    }

    method Apply(desired: Config) returns (r: Reply<()>)
      modifies this
      ensures State() == AfterApply(old(State()), desired)
      ensures old(unreachableFor) == 0 ==>
                config == Merge(old(config), desired) && applies == old(applies) + 1 && unreachableFor == rebootWindow
      ensures old(unreachableFor) > 0 ==>
                config == old(config) && applies == old(applies) && unreachableFor == old(unreachableFor) - 1
      ensures r == if old(unreachableFor) == 0 then Answer(()) else Error(Unreachable)
      ensures r == Reached(old(State()), ())
    {
      var up := Tick();
      if !up {
        return Error(Unreachable);
      }
      config := MergeMap(config, desired);
      applies := applies + 1;
      unreachableFor := rebootWindow;
      return Answer(());
    }

    method ApplyChannels(sha: Sha, writes: seq<ChannelWrite>) returns (r: Reply<()>)
      modifies this
      ensures State() == AfterApplyChannels(sha, old(State()), writes)
      ensures old(unreachableFor) == 0 && writes != [] ==>
                config == StoreChannels(sha, old(config), writes) && channelApplies == old(channelApplies) + 1
                && unreachableFor == rebootWindow
      ensures old(unreachableFor) > 0 || writes == [] ==>
                config == old(config) && channelApplies == old(channelApplies)
                && unreachableFor == if old(unreachableFor) == 0 then 0 else old(unreachableFor) - 1
      ensures r == Reached(old(State()), ())
    {
      var up := Tick();
      if !up {
        return Error(Unreachable);
      }
      if |writes| == 0 {
        return Answer(());
      }
      var byIndex := CollectSlots(sha, StoredList(config), writes);
      var list := ListSlots(byIndex);
      config := config["channels" := ChannelList(list)];
      channelApplies := channelApplies + 1;
      unreachableFor := rebootWindow;
      return Answer(());
    }

    method Reboot() returns (r: Reply<()>)
      modifies this
      ensures State() == AfterReboot(old(State()))
      ensures old(unreachableFor) > 0 ==> State() == old(State())
      ensures old(unreachableFor) == 0 ==>
                reboots == old(reboots) + 1 && unreachableFor == rebootWindow && config == old(config)
      ensures r == Reached(old(State()), ())
    {
      if unreachableFor > 0 {
        return Error(Unreachable);
      }
      reboots := reboots + 1;
      unreachableFor := rebootWindow;
      return Answer(());
    }

    method Info() returns (r: Reply<string>)
      modifies this
      ensures State() == Ticked(old(State()))
      ensures r == Reached(old(State()), old(nodeId))
      ensures r == if old(unreachableFor) == 0 then Answer(old(nodeId)) else Error(Unreachable)
    {
      var up := Tick();
      r := if up then Answer(nodeId) else Error(Unreachable);
    }
  }

  /** The loops of ApplyChannels that fill the slot map. */
  method CollectSlots(sha: Sha, list: seq<ChannelState>, writes: seq<ChannelWrite>)
    returns (byIndex: map<int, ChannelState>)
    ensures byIndex == Overlay(sha, BySlot(list), writes)
  {
    byIndex := map[];
    for i := 0 to |list|
      invariant byIndex == BySlot(list[..i])
    {
      assert list[..i + 1][..i] == list[..i];
      byIndex := byIndex[list[i].index := list[i]];
    }
    assert list[..|list|] == list;
    for i := 0 to |writes|
      invariant byIndex == Overlay(sha, BySlot(list), writes[..i])
    {
      assert writes[..i + 1][..i] == writes[..i];
      byIndex := byIndex[writes[i].index := StoredChannel(sha, writes[i])];
    }
    assert writes[..|writes|] == writes;
  }

  // ----- Channels read back as written

  predicate DistinctWrites(writes: seq<ChannelWrite>) {
    forall i, j :: 0 <= i < j < |writes| ==> writes[i].index != writes[j].index
  }

  lemma {:induction false} OverlayHolds(sha: Sha, m: map<int, ChannelState>, writes: seq<ChannelWrite>, k: nat)
    requires Keyed(m) && DistinctWrites(writes) && k < |writes|
    ensures writes[k].index in Overlay(sha, m, writes)
    ensures Overlay(sha, m, writes)[writes[k].index] == StoredChannel(sha, writes[k])
  {
    if k < |writes| - 1 {
      OverlayHolds(sha, m, writes[..|writes| - 1], k);
    }
  }

  /** A stored channel is read back from its slot, its key hash normalized. */
  lemma ListingSlot(sha: Sha, m: map<int, ChannelState>, index: int)
    requires Keyed(m) && index in m
    ensures Slot(SortByIndex(NormalizeLive(sha, Listing(m))), index)
         == Some(m[index].(pskHash := NormalizeLivePskHash(sha, m[index].pskHash)))
  {
    hide NormalizeLivePskHash, SortByIndex, Slot, Listing, NormalizeLive;
    var list := Listing(m);
    ListingAscends(m, list);
    var live := NormalizeLive(sha, list);
    assert Ascending(live);
    SortByIndexAscending(live);
    assert m[index] in m.Values;
    assert m[index] in multiset(list);
    var i :| 0 <= i < |list| && list[i] == m[index];
    SlotAt(live, i);
  }

  lemma ListedSlot(m: map<int, ChannelState>, index: int)
    requires Keyed(m)
    ensures Slot(Listing(m), index) == if index in m then Some(m[index]) else None
  {
    ListingAscends(m, Listing(m));
    ValuesKeyed(m);
    SortByIndexAscending(Listing(m));
    ListsValues(m);
    hide *;
    if index in m {
      var i := PlaceOf(Listing(m), m[index]);
      SlotAt(Listing(m), i);
    }
  }

  lemma ListsValues(m: map<int, ChannelState>)
    ensures forall c :: c in Listing(m) <==> c in m.Values
  {
    assert forall c :: c in Listing(m) <==> c in multiset(Listing(m));
    hide Listing;
  }

  lemma PlaceOf<T>(s: seq<T>, x: T) returns (i: nat)
    requires x in s
    ensures i < |s| && s[i] == x
  {
    i :| 0 <= i < |s| && s[i] == x;
  }

  lemma {:induction false} BySlotIs(list: seq<ChannelState>, index: int)
    ensures index in BySlot(list) <==> Slot(list, index).Some?
    ensures index in BySlot(list) ==> Slot(list, index) == Some(BySlot(list)[index])
  {
    if list != [] { BySlotIs(list[..|list| - 1], index); }
  }

  /** Write `k` is the last one for its slot. */
  predicate LastWrite(writes: seq<ChannelWrite>, index: int, k: int) {
    0 <= k < |writes| && writes[k].index == index && forall j :: k < j < |writes| ==> writes[j].index != index
  }

  lemma {:induction false} OverlayWritten(sha: Sha, m: map<int, ChannelState>, writes: seq<ChannelWrite>, index: int,
                                          k: int)
    requires Keyed(m) && LastWrite(writes, index, k)
    ensures index in Overlay(sha, m, writes) && Overlay(sha, m, writes)[index] == StoredChannel(sha, writes[k])
  {
    var init := writes[..|writes| - 1];
    hide StoredChannel;
    if k < |init| {
      assert LastWrite(init, index, k);
      OverlayWritten(sha, m, init, index, k);
    }
  }

  lemma {:induction false} OverlayKept(sha: Sha, m: map<int, ChannelState>, writes: seq<ChannelWrite>, index: int)
    requires Keyed(m) && forall w :: w in writes ==> w.index != index
    ensures index in Overlay(sha, m, writes) <==> index in m
    ensures index in m ==> Overlay(sha, m, writes)[index] == m[index]
  {
    if writes != [] {
      var init, last := writes[..|writes| - 1], writes[|writes| - 1];
      assert last in writes && forall w :: w in init ==> w in writes;
      OverlayKept(sha, m, init, index);
    }
  }

  /** What a channel write leaves on the device: the last write of each slot, its key hashed
      and the public default in place of none; what was stored in every other slot; and
      nothing else touched. */
  lemma StoreExact(sha: Sha, config: Config, writes: seq<ChannelWrite>, index: int)
    ensures var stored := StoreChannels(sha, config, writes);
      && stored["channels"].ChannelList? && Ascending(stored["channels"].list)
      && (forall k :: LastWrite(writes, index, k) ==>
            var w := writes[k];
            Slot(stored["channels"].list, index) == Some(
              ChannelState(index, w.name, sha(if w.key == "" then ['\U{01}'] else w.key), w.uplink, w.downlink)))
      && ((forall w :: w in writes ==> w.index != index) ==>
            Slot(stored["channels"].list, index) ==
              if "channels" in config && config["channels"].ChannelList?
              then Slot(config["channels"].list, index) else None)
      && (forall k :: k != "channels" ==> (k in stored <==> k in config) && (k in config ==> stored[k] == config[k]))
  {
    var before, slots := BySlot(StoredList(config)), Overlay(sha, BySlot(StoredList(config)), writes);
    BySlotIs(StoredList(config), index);
    ListedSlot(slots, index);
    ListingAscends(slots, Listing(slots));
    forall k | LastWrite(writes, index, k)
      ensures 0 <= k < |writes| && writes[k].index == index
      ensures index in slots && slots[index] == StoredChannel(sha, writes[k])
    {
      OverlayWritten(sha, before, writes, index, k);
    }
    if forall w :: w in writes ==> w.index != index { OverlayKept(sha, before, writes, index); }
    hide BySlot, Overlay, Listing, Slot, Ascending, LastWrite;
  }

  lemma {:induction false} SlotAt(live: seq<ChannelState>, i: nat)
    requires DistinctIndices(live) && i < |live|
    ensures Slot(live, live[i].index) == Some(live[i])
  {
    if i < |live| - 1 {
      SlotAt(live[..|live| - 1], i);
    }
  }
}
