/** Reducing a delivery log to windows around one or several moments
  (internal/resilience/resilience.go). The reducers are loops over Go maps, ranged over
  in any order; they are proved equal to functions of the log alone. */
module Resilience {
  import opened Sets
  import opened Sorting
  import opened Text
  import opened ConfigTree

  datatype MessageId = MessageId(number: int)

  datatype Kind = Sent | Recv | OtherKind

  datatype Event = Event(ev: Kind, id: MessageId, node: string, t: real)

  datatype ReceiverDelivery = ReceiverDelivery(node: string, delivered: nat, sent: nat)

  datatype Window = Window(sent: nat, expected: nat, delivered: nat, deliveryRatio: real,
                           latencyMsP50: real, latencyMsMax: real, byReceiver: seq<ReceiverDelivery>)

  datatype Scope = Observed | Declared

  datatype Report = Report(receivers: seq<string>, scope: Scope, perturbationT: real, before: Window, after: Window,
                           tolerance: real, heldUp: bool)

  datatype Phase = Phase(name: string, startT: Option<real>, endT: Option<real>, window: Window,
                         dropVsBaseline: real, degraded: bool)

  datatype PhaseReport = PhaseReport(receivers: seq<string>, scope: Scope, boundaries: seq<real>, phases: seq<Phase>,
                                     tolerance: real, valid: bool, survived: bool)

  const MIN_HEALTHY_DELIVERY := 0.5

  function ScopeOf(receivers: seq<string>): Scope { if receivers == [] then Observed else Declared }

  // ----- The index

  type Receipts = map<MessageId, map<string, real>>

  datatype Index = Index(sentT: map<MessageId, real>, recv: Receipts, resolved: seq<string>)

  /** First send per message. */
  function SendTimes(events: seq<Event>): map<MessageId, real> {
    if events == [] then map[]
    else
      var before, e := SendTimes(events[..|events| - 1]), events[|events| - 1];
      if e.ev.Sent? && e.id !in before then before[e.id := e.t] else before
  }

  function Got(recv: Receipts, q: MessageId): map<string, real> { if q in recv then recv[q] else map[] }

  /** First receipt per message and receiver in scope. */
  function ReceiptTimes(events: seq<Event>, scope: set<string>): Receipts {
    if events == [] then map[]
    else
      var before, e := ReceiptTimes(events[..|events| - 1], scope), events[|events| - 1];
      if e.ev.Recv? && e.node in scope && e.node !in Got(before, e.id)
      then before[e.id := Got(before, e.id)[e.node := e.t]] else before
  }

  function Receivers(events: seq<Event>): set<string> {
    if events == [] then {}
    else Receivers(events[..|events| - 1]) + if events[|events| - 1].ev.Recv? then {events[|events| - 1].node} else {}
  }

  ghost function Resolve(events: seq<Event>, receivers: seq<string>): seq<string> {
    if receivers == [] then SortedStrings(multiset(Receivers(events))) else receivers
  }

  ghost function IndexOf(events: seq<Event>, receivers: seq<string>): Index {
    var resolved := Resolve(events, receivers);
    Index(SendTimes(events), ReceiptTimes(events, set n | n in resolved), resolved)
  }

  method BuildIndex(events: seq<Event>, receivers: seq<string>) returns (idx: Index)
    ensures idx == IndexOf(events, receivers)
  {
    var resolved := receivers;
    if |resolved| == 0 {
      resolved := InferReceivers(events);
    }
    var inScope: set<string> := set n | n in resolved;
    var sentT: map<MessageId, real> := map[];
    for i := 0 to |events|
      invariant sentT == SendTimes(events[..i])
    {
      assert events[..i + 1][..i] == events[..i];
      if events[i].ev.Sent? && events[i].id !in sentT {
        sentT := sentT[events[i].id := events[i].t];
      }
    }
    var recv := CollectReceipts(events, inScope);
    assert events[..|events|] == events;
    idx := Index(sentT, recv, resolved);
  }

  method InferReceivers(events: seq<Event>) returns (resolved: seq<string>)
    ensures resolved == Resolve(events, [])
  {
    var names: set<string> := {};
    for i := 0 to |events|
      invariant names == Receivers(events[..i])
    {
      assert events[..i + 1][..i] == events[..i];
      if events[i].ev.Recv? {
        names := names + {events[i].node};
      }
    }
    assert events[..|events|] == events;
    resolved := [];
    var todo := names;
    ghost var done: set<string> := {};
    while todo != {}
      invariant done !! todo && done + todo == names
      invariant multiset(resolved) == multiset(done)
      decreases |todo|
    {
      var n := Pop(todo);
      resolved := resolved + [n];
      todo, done := todo - {n}, done + {n};
    }
    SortStringsCanonical(resolved);
    resolved := SortStrings(resolved);
  }

  method CollectReceipts(events: seq<Event>, scope: set<string>) returns (recv: Receipts)
    ensures recv == ReceiptTimes(events, scope)
  {
    recv := map[];
    for i := 0 to |events|
      invariant recv == ReceiptTimes(events[..i], scope)
    {
      assert events[..i + 1][..i] == events[..i];
      var e := events[i];
      if e.ev.Recv? && e.node in scope {
        var m := Got(recv, e.id);
        if e.node !in m {
          recv := recv[e.id := m[e.node := e.t]];
        }
      }
    }
    assert events[..|events|] == events;
  }

  /** Event `k` is the first send of `q`. */
  predicate FirstSend(events: seq<Event>, q: MessageId, k: int) {
    0 <= k < |events| && IsSend(events[k], q) && forall j :: 0 <= j < k ==> !IsSend(events[j], q)
  }

  predicate IsSend(e: Event, q: MessageId) { e.ev.Sent? && e.id == q }

  lemma SendTimeStep(events: seq<Event>, q: MessageId)
    requires events != []
    ensures var init, last := events[..|events| - 1], events[|events| - 1];
      && (q in SendTimes(events) <==> q in SendTimes(init) || IsSend(last, q))
      && (q in SendTimes(init) ==> SendTimes(events)[q] == SendTimes(init)[q])
      && (q !in SendTimes(init) && IsSend(last, q) ==> SendTimes(events)[q] == last.t)
  {
  }

  lemma FirstSendStep(events: seq<Event>, q: MessageId, k: int)
    requires events != []
    ensures var init, last := events[..|events| - 1], events[|events| - 1];
      FirstSend(events, q, k) <==>
        FirstSend(init, q, k) || (k == |init| && IsSend(last, q) && forall j :: !FirstSend(init, q, j))
  {
    var init := events[..|events| - 1];
    if forall j :: !FirstSend(init, q, j) { NoSend(init, q); }
    if j :| FirstSend(init, q, j) { assert IsSend(events[j], q); }
  }

  /** A log without a first send of `q` has no send of it. */
  lemma {:induction false} NoSend(events: seq<Event>, q: MessageId)
    requires forall k :: !FirstSend(events, q, k)
    ensures forall j :: 0 <= j < |events| ==> !IsSend(events[j], q)
  {
    if events != [] {
      var init := events[..|events| - 1];
      forall k ensures !FirstSend(init, q, k) {
        assert FirstSend(init, q, k) ==> FirstSend(events, q, k);
      }
      NoSend(init, q);
      assert !FirstSend(events, q, |events| - 1);
    }
  }

  /** A message counts as sent when, and only when, some send of it is logged, once however
      often it is logged, at the time of the first. */
  lemma {:induction false} SendIsFirst(events: seq<Event>, q: MessageId)
    ensures q in SendTimes(events) <==> exists k :: FirstSend(events, q, k)
    ensures forall k :: FirstSend(events, q, k) ==> SendTimes(events)[q] == events[k].t
  {
    if events != [] {
      var init := events[..|events| - 1];
      SendIsFirst(init, q);
      SendTimeStep(events, q);
      forall k { FirstSendStep(events, q, k); }
      hide SendTimes, FirstSend;
      if k :| FirstSend(init, q, k) {
        assert FirstSend(events, q, k);
      }
      if q in SendTimes(events) && q !in SendTimes(init) { assert FirstSend(events, q, |init|); }
    }
  }

  lemma AnySend(events: seq<Event>, q: MessageId)
    ensures (exists k :: FirstSend(events, q, k)) <==> exists k :: 0 <= k < |events| && IsSend(events[k], q)
  {
    if forall k :: !FirstSend(events, q, k) { NoSend(events, q); }
  }

  /** The messages counted as sent are the distinct ones with a logged send. */
  lemma SentAreDistinct(events: seq<Event>)
    ensures SendTimes(events).Keys == set k | 0 <= k < |events| && events[k].ev.Sent? :: events[k].id
  {
    var sent := set k | 0 <= k < |events| && events[k].ev.Sent? :: events[k].id;
    hide SendTimes, FirstSend;
    forall q ensures q in SendTimes(events) <==> q in sent {
      SendIsFirst(events, q);
      AnySend(events, q);
      assert q in sent <==> exists k :: 0 <= k < |events| && IsSend(events[k], q);
    }
  }

  /** Event `k` is the first receipt of `q` by `n`. */
  predicate FirstReceipt(events: seq<Event>, q: MessageId, n: string, k: int) {
    0 <= k < |events| && events[k].ev.Recv? && events[k].id == q && events[k].node == n
    && forall j :: 0 <= j < k ==> !(events[j].ev.Recv? && events[j].id == q && events[j].node == n)
  }

  /** A message counts as received when, and only when, some receipt in scope is logged,
      at the time of the first one. */
  lemma {:induction false} ReceiptIsFirst(events: seq<Event>, scope: set<string>, q: MessageId, n: string)
    ensures n in Got(ReceiptTimes(events, scope), q) <==>
      n in scope && exists k :: FirstReceipt(events, q, n, k)
    ensures forall k :: FirstReceipt(events, q, n, k) && n in scope ==>
          Got(ReceiptTimes(events, scope), q)[n] == events[k].t
  {
    if events != [] {
      var init, last := events[..|events| - 1], events[|events| - 1];
      ReceiptIsFirst(init, scope, q, n);
      forall k ensures k < |init| ==> (FirstReceipt(events, q, n, k) <==> FirstReceipt(init, q, n, k)) {}
      if exists k :: FirstReceipt(init, q, n, k) {
        var k :| FirstReceipt(init, q, n, k);
        assert FirstReceipt(events, q, n, k);
        assert !FirstReceipt(events, q, n, |init|);
      } else {
        NoReceipt(init, q, n);
        assert FirstReceipt(events, q, n, |init|) <==> last.ev.Recv? && last.id == q && last.node == n;
      }
    }
  }

  lemma {:induction false} NoReceipt(events: seq<Event>, q: MessageId, n: string)
    requires forall k :: !FirstReceipt(events, q, n, k)
    ensures forall j :: 0 <= j < |events| ==> !(events[j].ev.Recv? && events[j].id == q && events[j].node == n)
  {
    if events != [] {
      var init := events[..|events| - 1];
      forall k ensures !FirstReceipt(init, q, n, k) {
        assert FirstReceipt(init, q, n, k) ==> FirstReceipt(events, q, n, k);
      }
      NoReceipt(init, q, n);
      assert !FirstReceipt(events, q, n, |events| - 1);
    }
  }

  /** In a log written in time order the first receipt is the earliest one. */
  lemma EarliestReceipt(events: seq<Event>, scope: set<string>, q: MessageId, n: string, j: nat)
    requires forall a, b :: 0 <= a <= b < |events| ==> events[a].t <= events[b].t
    requires j < |events| && events[j].ev.Recv? && events[j].id == q && events[j].node == n && n in scope
    ensures n in Got(ReceiptTimes(events, scope), q) && Got(ReceiptTimes(events, scope), q)[n] <= events[j].t
  {
    ReceiptIsFirst(events, scope, q, n);
    if forall k :: !FirstReceipt(events, q, n, k) { NoReceipt(events, q, n); }
    var k :| FirstReceipt(events, q, n, k);
    assert k <= j;
  }

  // ----- What one set of messages amounts to

  function Copies(resolved: seq<string>, n: string): nat { multiset(resolved)[n] }

  /** Receivers that heard a message, counted as often as they are listed. */
  function Hits(resolved: seq<string>, got: map<string, real>): nat {
    if resolved == [] then 0
    else Hits(resolved[..|resolved| - 1], got) + if resolved[|resolved| - 1] in got then 1 else 0
  }

  function LatencyBag(resolved: seq<string>, got: map<string, real>, sent: real): multiset<real> {
    if resolved == [] then multiset{}
    else
      var n := resolved[|resolved| - 1];
      LatencyBag(resolved[..|resolved| - 1], got, sent)
      + if n in got then multiset{(got[n] - sent) * 1000.0} else multiset{}
  }

  ghost function Delivered(idx: Index, s: set<MessageId>): nat {
    if s == {} then 0
    else var q := Any(s); Hits(idx.resolved, Got(idx.recv, q)) + Delivered(idx, s - {q})
  }

  ghost function Latencies(idx: Index, s: set<MessageId>): multiset<real>
    requires s <= idx.sentT.Keys
  {
    if s == {} then multiset{}
    else var q := Any(s); LatencyBag(idx.resolved, Got(idx.recv, q), idx.sentT[q]) + Latencies(idx, s - {q})
  }

  function Heard(idx: Index, s: set<MessageId>, n: string): set<MessageId> {
    set q | q in s && n in Got(idx.recv, q)
  }

  function RowCount(idx: Index, s: set<MessageId>, n: string): nat { Copies(idx.resolved, n) * |Heard(idx, s, n)| }

  function Rows(idx: Index, s: set<MessageId>, k: nat): (r: seq<ReceiverDelivery>)
    requires k <= |idx.resolved|
    ensures |r| == k
    ensures forall i :: 0 <= i < k ==> r[i] == ReceiverDelivery(idx.resolved[i], RowCount(idx, s, idx.resolved[i]), |s|)
  {
    if k == 0 then []
    else Rows(idx, s, k - 1) + [ReceiverDelivery(idx.resolved[k - 1], RowCount(idx, s, idx.resolved[k - 1]), |s|)]
  }

  function Ratio(delivered: nat, expected: nat): real {
    if expected > 0 then delivered as real / expected as real else 0.0
  }

  function Median(sorted: seq<real>): real { if sorted == [] then 0.0 else sorted[|sorted| / 2] }

  function Last(sorted: seq<real>): real { if sorted == [] then 0.0 else sorted[|sorted| - 1] }

  /** The window of a set of messages. */
  ghost function WindowOf(idx: Index, s: set<MessageId>): Window
    requires s <= idx.sentT.Keys
  {
    MakeWindow(|s|, |s| * |idx.resolved|, Delivered(idx, s), SortedReals(Latencies(idx, s)),
               Rows(idx, s, |idx.resolved|))
  }

  function MakeWindow(sent: nat, expected: nat, delivered: nat, lat: seq<real>, rows: seq<ReceiverDelivery>): Window {
    Window(sent, expected, delivered, Ratio(delivered, expected), Median(lat), Last(lat), rows)
  }

  lemma {:induction false} DeliveredTake(idx: Index, s: set<MessageId>, q: MessageId)
    requires q in s
    ensures Delivered(idx, s) == Hits(idx.resolved, Got(idx.recv, q)) + Delivered(idx, s - {q})
    decreases |s|
  {
    var p := Any(s);
    if p != q {
      DeliveredTake(idx, s - {p}, q);
      DeliveredTake(idx, s - {q}, p);
      assert s - {p} - {q} == s - {q} - {p};
    }
  }

  lemma {:induction false} LatenciesTake(idx: Index, s: set<MessageId>, q: MessageId)
    requires q in s && s <= idx.sentT.Keys
    ensures Latencies(idx, s) == LatencyBag(idx.resolved, Got(idx.recv, q), idx.sentT[q]) + Latencies(idx, s - {q})
    decreases |s|
  {
    var p := Any(s);
    if p != q {
      LatenciesTake(idx, s - {p}, q);
      LatenciesTake(idx, s - {q}, p);
      assert s - {p} - {q} == s - {q} - {p};
    }
  }

  // ----- The loops

  /** A window while it is being filled: lat and counts are its raw samples. */
  datatype Tally = Tally(sent: nat, expected: nat, delivered: nat, lat: seq<real>, counts: map<string, nat>)

  ghost predicate IsTally(idx: Index, s: set<MessageId>, t: Tally) {
    && s <= idx.sentT.Keys
    && t.sent == |s| && t.expected == |s| * |idx.resolved| && t.delivered == Delivered(idx, s)
    && multiset(t.lat) == Latencies(idx, s)
    && (forall n :: n in t.counts <==> n in idx.resolved)
    && (forall n :: n in t.counts ==> t.counts[n] == RowCount(idx, s, n))
  }

  method ZeroTally(idx: Index) returns (t: Tally)
    ensures IsTally(idx, {}, t)
  {
    var counts: map<string, nat> := map[];
    for i := 0 to |idx.resolved|
      invariant forall n :: n in counts <==> n in idx.resolved[..i]
      invariant forall n :: n in counts ==> counts[n] == 0
    {
      counts := counts[idx.resolved[i] := 0];
    }
    assert idx.resolved[..|idx.resolved|] == idx.resolved;
    t := Tally(0, 0, 0, [], counts);
    assert forall n :: Heard(idx, {}, n) == {};
  }

  /** `r` is `t` with the receivers of `resolved` that heard the message credited. */
  ghost predicate Credited(t: Tally, resolved: seq<string>, got: map<string, real>, sent: real, r: Tally) {
    && r.sent == t.sent && r.expected == t.expected
    && r.delivered == t.delivered + Hits(resolved, got)
    && multiset(r.lat) == multiset(t.lat) + LatencyBag(resolved, got, sent)
    && CreditedCounts(t.counts, resolved, got, r.counts)
  }

  ghost predicate CreditedCounts(counts: map<string, nat>, resolved: seq<string>, got: map<string, real>,
                                 r: map<string, nat>) {
    && r.Keys == counts.Keys
    && forall n :: n in counts ==> r[n] == counts[n] + if n in got then Copies(resolved, n) else 0
  }

  /** One receiver more heard the message, so many milliseconds after it was sent. */
  function Credit(t: Tally, name: string, x: real): Tally
    requires name in t.counts
  {
    t.(delivered := t.delivered + 1, lat := t.lat + [x], counts := t.counts[name := t.counts[name] + 1])
  }

  /** creditReceivers: each listed receiver that heard the message, once per listing. */
  method CreditReceivers(t: Tally, resolved: seq<string>, got: map<string, real>, sent: real) returns (r: Tally)
    requires forall n :: n in resolved ==> n in t.counts
    ensures Credited(t, resolved, got, sent, r)
  {
    r := t;
    CreditedNone(t, got, sent);
    assert resolved[..0] == [];
    for i := 0 to |resolved|
      invariant Credited(t, resolved[..i], got, sent, r)
    {
      var name := resolved[i];
      assert resolved[..i + 1] == resolved[..i] + [name];
      CreditedKeys(t, resolved[..i], got, sent, r);
      hide *;
      if name !in got {
        CreditedMiss(t, resolved[..i], name, got, sent, r);
        continue;
      }
      var x := (got[name] - sent) * 1000.0;
      CreditedHit(t, resolved[..i], name, got, sent, r, x);
      r := Credit(r, name, x);
    }
    assert resolved[..|resolved|] == resolved;
  }

  lemma CreditedNone(t: Tally, got: map<string, real>, sent: real)
    ensures Credited(t, [], got, sent, t)
  {
  }

  lemma CreditedMiss(t: Tally, before: seq<string>, name: string, got: map<string, real>, sent: real, r: Tally)
    requires Credited(t, before, got, sent, r) && name in t.counts && name !in got
    ensures Credited(t, before + [name], got, sent, r)
  {
    CountStep(t.counts, before, name, got, r.counts);
    SumsStep(before, name, got, sent);
    hide CreditedCounts, Hits, LatencyBag;
    assert LatencyBag(before + [name], got, sent) == LatencyBag(before, got, sent);
  }

  lemma CreditedKeys(t: Tally, before: seq<string>, got: map<string, real>, sent: real, r: Tally)
    requires Credited(t, before, got, sent, r)
    ensures r.counts.Keys == t.counts.Keys
  {
    hide Hits, LatencyBag, Copies;
  }

  lemma CreditedHit(t: Tally, before: seq<string>, name: string, got: map<string, real>, sent: real, r: Tally,
                    x: real)
    requires Credited(t, before, got, sent, r) && name in t.counts && name in got && name in r.counts
    requires x == (got[name] - sent) * 1000.0
    ensures Credited(t, before + [name], got, sent, Credit(r, name, x))
  {
    hide *;
    var r' := Credit(r, name, x);
    CreditedParts(t, before, got, sent, r);
    CreditedParts(t, before + [name], got, sent, r');
    CountStep(t.counts, before, name, got, r.counts);
    LatStep(t.lat, LatencyBag(before, got, sent), r.lat, x);
    SumsAfter(before, name, got, sent, x);
    CreditFields(r, name, x);
  }

  lemma CreditedParts(t: Tally, resolved: seq<string>, got: map<string, real>, sent: real, r: Tally)
    ensures Credited(t, resolved, got, sent, r) <==>
      && r.sent == t.sent && r.expected == t.expected
      && r.delivered == t.delivered + Hits(resolved, got)
      && multiset(r.lat) == multiset(t.lat) + LatencyBag(resolved, got, sent)
      && CreditedCounts(t.counts, resolved, got, r.counts)
  {
  }

  lemma CreditFields(r: Tally, name: string, x: real)
    requires name in r.counts
    ensures var r' := Credit(r, name, x);
      && r'.sent == r.sent && r'.expected == r.expected && r'.delivered == r.delivered + 1
      && r'.lat == r.lat + [x] && r'.counts == r.counts[name := r.counts[name] + 1]
  {
  }

  lemma SumsAfter(before: seq<string>, name: string, got: map<string, real>, sent: real, x: real)
    requires name in got && x == (got[name] - sent) * 1000.0
    ensures Hits(before + [name], got) == Hits(before, got) + 1
    ensures LatencyBag(before + [name], got, sent) == LatencyBag(before, got, sent) + multiset{x}
  {
    SumsStep(before, name, got, sent);
    hide *;
  }

  lemma SumsStep(before: seq<string>, name: string, got: map<string, real>, sent: real)
    ensures Hits(before + [name], got) == Hits(before, got) + if name in got then 1 else 0
    ensures LatencyBag(before + [name], got, sent)
         == LatencyBag(before, got, sent) + if name in got then multiset{(got[name] - sent) * 1000.0} else multiset{}
  {
    assert (before + [name])[..|before|] == before;
  }

  lemma LatStep<T>(a: seq<T>, bag: multiset<T>, r: seq<T>, x: T)
    requires multiset(r) == multiset(a) + bag
    ensures multiset(r + [x]) == multiset(a) + (bag + multiset{x})
  {
  }

  lemma CountStep(counts: map<string, nat>, before: seq<string>, name: string, got: map<string, real>,
                  r: map<string, nat>)
    requires CreditedCounts(counts, before, got, r) && name in counts
    ensures name in r && r.Keys == counts.Keys
    ensures CreditedCounts(counts, before + [name], got, if name in got then r[name := r[name] + 1] else r)
  {
    forall n ensures Copies(before + [name], n) == Copies(before, n) + if n == name then 1 else 0 {}
  }

  /** One message's contribution to the window it belongs to. */
  method TallyMessage(idx: Index, ghost s: set<MessageId>, t: Tally, q: MessageId) returns (r: Tally)
    requires IsTally(idx, s, t) && q in idx.sentT && q !in s
    ensures IsTally(idx, s + {q}, r)
  {
    hide Delivered, Latencies, Hits, LatencyBag, RowCount, Copies;
    var ts := idx.sentT[q];
    var counted := t.(sent := t.sent + 1, expected := t.expected + |idx.resolved|);
    r := CreditReceivers(counted, idx.resolved, Got(idx.recv, q), ts);
    TallyStep(idx, s, q);
  }

  lemma TallyStep(idx: Index, s: set<MessageId>, q: MessageId)
    requires s <= idx.sentT.Keys && q in idx.sentT && q !in s
    ensures |s + {q}| == |s| + 1 && |s + {q}| * |idx.resolved| == |s| * |idx.resolved| + |idx.resolved|
    ensures Delivered(idx, s + {q}) == Delivered(idx, s) + Hits(idx.resolved, Got(idx.recv, q))
    ensures Latencies(idx, s + {q}) == Latencies(idx, s) + LatencyBag(idx.resolved, Got(idx.recv, q), idx.sentT[q])
    ensures forall n ::
      RowCount(idx, s + {q}, n) == RowCount(idx, s, n) + if n in Got(idx.recv, q) then Copies(idx.resolved, n) else 0
  {
    assert s + {q} - {q} == s;
    hide Hits, LatencyBag, Delivered, Latencies, RowCount, Copies;
    DeliveredTake(idx, s + {q}, q);
    LatenciesTake(idx, s + {q}, q);
    AddOne(|s|, |idx.resolved|);
    forall n
      ensures RowCount(idx, s + {q}, n) ==
              RowCount(idx, s, n) + if n in Got(idx.recv, q) then Copies(idx.resolved, n) else 0
    {
      RowStep(idx, s, q, n);
    }
  }

  lemma AddOne(c: nat, r: nat)
    ensures (c + 1) * r == c * r + r
  {
  }

  lemma RowStep(idx: Index, s: set<MessageId>, q: MessageId, n: string)
    requires q !in s
    ensures RowCount(idx, s + {q}, n) ==
            RowCount(idx, s, n) + if n in Got(idx.recv, q) then Copies(idx.resolved, n) else 0
  {
    hide Copies;
    assert Heard(idx, s + {q}, n) == Heard(idx, s, n) + if n in Got(idx.recv, q) then {q} else {};
    if n in Got(idx.recv, q) {
      assert q !in Heard(idx, s, n);
      AddOne(|Heard(idx, s, n)|, Copies(idx.resolved, n));
    }
  }

  method Finalize(idx: Index, ghost s: set<MessageId>, t: Tally) returns (w: Window)
    requires IsTally(idx, s, t)
    ensures w == WindowOf(idx, s)
  {
    hide Delivered, Latencies, RowCount;
    SortRealsCanonical(t.lat);
    var lat := SortReals(t.lat);
    var rows: seq<ReceiverDelivery> := [];
    for i := 0 to |idx.resolved|
      invariant rows == Rows(idx, s, i)
    {
      assert idx.resolved[i] in idx.resolved;
      rows := rows + [ReceiverDelivery(idx.resolved[i], t.counts[idx.resolved[i]], t.sent)];
    }
    w := Window(t.sent, t.expected, t.delivered, Ratio(t.delivered, t.expected), Median(lat), Last(lat), rows);
  }

  // ----- Two windows

  ghost function Before(idx: Index, t: real): set<MessageId> { set q | q in idx.sentT && idx.sentT[q] < t }

  ghost function From(idx: Index, t: real): set<MessageId> { set q | q in idx.sentT && idx.sentT[q] >= t }

  ghost function ReportOf(events: seq<Event>, t: real, tolerance: real, receivers: seq<string>): Report {
    var idx := IndexOf(events, receivers);
    var before, after := WindowOf(idx, Before(idx, t)), WindowOf(idx, From(idx, t));
    Report(idx.resolved, ScopeOf(receivers), t, before, after, tolerance,
           before.deliveryRatio >= MIN_HEALTHY_DELIVERY && after.sent > 0
               && before.deliveryRatio - after.deliveryRatio <= tolerance)
  }

  lemma NoneCounted(idx: Index, t: real)
    ensures Before(idx, t) - idx.sentT.Keys == {} && From(idx, t) - idx.sentT.Keys == {}
  {
  }

  lemma OneMoreCounted(idx: Index, t: real, todo: set<MessageId>, q: MessageId)
    requires q in todo && q in idx.sentT
    ensures var rest := todo - {q};
      if idx.sentT[q] >= t
      then Before(idx, t) - rest == Before(idx, t) - todo && From(idx, t) - rest == From(idx, t) - todo + {q}
      else Before(idx, t) - rest == Before(idx, t) - todo + {q} && From(idx, t) - rest == From(idx, t) - todo
  {
  }

  /** Reduce: whatever order the messages are ranged over in, one report per log. */
  method Reduce(events: seq<Event>, t: real, tolerance: real, receivers: seq<string>) returns (r: Report)
    ensures r == ReportOf(events, t, tolerance, receivers)
  {
    hide WindowOf, IsTally, IndexOf, Before, From;
    var idx := BuildIndex(events, receivers);
    var before := ZeroTally(idx);
    var after := before;
    var todo := idx.sentT.Keys;
    NoneCounted(idx, t);
    while todo != {}
      invariant todo <= idx.sentT.Keys
      invariant IsTally(idx, Before(idx, t) - todo, before) && IsTally(idx, From(idx, t) - todo, after)
      decreases |todo|
    {
      var q := Pop(todo);
      OneMoreCounted(idx, t, todo, q);
      if idx.sentT[q] >= t {
        after := TallyMessage(idx, From(idx, t) - todo, after, q);
      } else {
        before := TallyMessage(idx, Before(idx, t) - todo, before, q);
      }
      todo := todo - {q};
    }
    assert Before(idx, t) - {} == Before(idx, t) && From(idx, t) - {} == From(idx, t);
    var b := Finalize(idx, Before(idx, t), before);
    var a := Finalize(idx, From(idx, t), after);
    var drop := b.deliveryRatio - a.deliveryRatio;
    r := Report(idx.resolved, ScopeOf(receivers), t, b, a, tolerance,
                b.deliveryRatio >= MIN_HEALTHY_DELIVERY && a.sent > 0 && drop <= tolerance);
  }

  // ----- Phases

  predicate Ascending(boundaries: seq<real>) {
    forall i, j :: 0 <= i < j < |boundaries| ==> boundaries[i] < boundaries[j]
  }

  /** The half-open phase `i` contains the time `ts`. */
  predicate InPhase(boundaries: seq<real>, i: int, ts: real) {
    0 <= i <= |boundaries| && (i == 0 || boundaries[i - 1] <= ts) && (i == |boundaries| || ts < boundaries[i])
  }

  /** sort.Search for the first boundary after `ts`: the unique phase that contains it. */
  method SearchPhase(boundaries: seq<real>, ts: real) returns (i: nat)
    requires Ascending(boundaries)
    ensures InPhase(boundaries, i, ts)
    ensures forall k :: InPhase(boundaries, k, ts) ==> k == i
  {
    var lo, hi := 0, |boundaries|;
    while lo < hi
      invariant 0 <= lo <= hi <= |boundaries|
      invariant lo == 0 || boundaries[lo - 1] <= ts
      invariant hi == |boundaries| || ts < boundaries[hi]
    {
      var mid := (lo + hi) / 2;
      if boundaries[mid] > ts { hi := mid; } else { lo := mid + 1; }
    }
    i := lo;
    PhaseUnique(boundaries, i, ts);
  }

  lemma PhaseUnique(boundaries: seq<real>, i: int, ts: real)
    requires Ascending(boundaries) && InPhase(boundaries, i, ts)
    ensures forall k :: InPhase(boundaries, k, ts) ==> k == i
  {
    assert forall j, k :: 0 <= j <= k < |boundaries| ==> boundaries[j] <= boundaries[k];
  }

  ghost function PhaseMessages(idx: Index, boundaries: seq<real>, i: int): set<MessageId> {
    set q | q in idx.sentT && InPhase(boundaries, i, idx.sentT[q])
  }

  ghost function PhaseWindow(idx: Index, boundaries: seq<real>, i: int): Window {
    WindowOf(idx, PhaseMessages(idx, boundaries, i))
  }

  function PhaseStart(boundaries: seq<real>, i: nat): Option<real>
    requires i <= |boundaries|
  {
    if i > 0 then Some(boundaries[i - 1]) else None
  }

  function PhaseEnd(boundaries: seq<real>, i: nat): Option<real>
    requires i <= |boundaries|
  {
    if i < |boundaries| then Some(boundaries[i]) else None
  }

  function MakePhase(boundaries: seq<real>, name: string, i: nat, tolerance: real, baseline: Window, w: Window): Phase
    requires i <= |boundaries|
  {
    var drop := if i > 0 then baseline.deliveryRatio - w.deliveryRatio else 0.0;
    Phase(name, PhaseStart(boundaries, i), PhaseEnd(boundaries, i), w, drop, i > 0 && drop > tolerance)
  }

  ghost function PhaseOf(idx: Index, boundaries: seq<real>, labels: seq<string>, tolerance: real, i: nat): Phase
    requires i < |labels| && |labels| == |boundaries| + 1
  {
    MakePhase(boundaries, labels[i], i, tolerance, PhaseWindow(idx, boundaries, 0), PhaseWindow(idx, boundaries, i))
  }

  ghost function PhasesOf(idx: Index, boundaries: seq<real>, labels: seq<string>, tolerance: real,
                          k: nat): (r: seq<Phase>)
    requires k <= |labels| && |labels| == |boundaries| + 1
    ensures |r| == k && forall i :: 0 <= i < k ==> r[i] == PhaseOf(idx, boundaries, labels, tolerance, i)
  {
    if k == 0 then []
    else PhasesOf(idx, boundaries, labels, tolerance, k - 1) + [PhaseOf(idx, boundaries, labels, tolerance, k - 1)]
  }

  predicate HasTraffic(phases: seq<Phase>) { forall i :: 0 <= i < |phases| ==> phases[i].window.sent > 0 }

  predicate AnyDegraded(phases: seq<Phase>) { exists i :: 1 <= i < |phases| && phases[i].degraded }

  function Survives(phases: seq<Phase>): bool
    requires phases != []
  {
    HasTraffic(phases) && AnyDegraded(phases) && !phases[|phases| - 1].degraded
    && phases[0].window.deliveryRatio >= MIN_HEALTHY_DELIVERY
  }

  ghost function PhaseReportOf(events: seq<Event>, boundaries: seq<real>, labels: seq<string>, tolerance: real,
                               receivers: seq<string>): PhaseReport {
    if |labels| != |boundaries| + 1 || !Ascending(boundaries) then
      PhaseReport([], ScopeOf(receivers), boundaries, [], tolerance, false, false)
    else
      var idx := IndexOf(events, receivers);
      var phases := PhasesOf(idx, boundaries, labels, tolerance, |labels|);
      PhaseReport(idx.resolved, ScopeOf(receivers), boundaries, phases, tolerance, HasTraffic(phases), Survives(phases))
  }

  /** ReducePhases: one report per log, for every order of iteration; ill-formed inputs
      are reported, not judged. */
  method ReducePhases(events: seq<Event>, boundaries: seq<real>, labels: seq<string>, tolerance: real,
                      receivers: seq<string>)
    returns (r: PhaseReport)
    ensures r == PhaseReportOf(events, boundaries, labels, tolerance, receivers)
  {
    var rejected := PhaseReport([], ScopeOf(receivers), boundaries, [], tolerance, false, false);
    if |labels| != |boundaries| + 1 {
      return rejected;
    }
    var ascending := IsAscending(boundaries);
    if !ascending {
      return rejected;
    }
    hide IndexOf, PhasesOf;
    var idx := BuildIndex(events, receivers);
    var tallies := FillPhases(idx, boundaries);
    var phases := JudgePhases(idx, boundaries, labels, tolerance, tallies);
    var valid, survived := JudgeAll(phases);
    r := PhaseReport(idx.resolved, ScopeOf(receivers), boundaries, phases, tolerance, valid, survived);
  }

  method JudgeAll(phases: seq<Phase>) returns (valid: bool, survived: bool)
    requires phases != []
    ensures valid == HasTraffic(phases) && survived == Survives(phases)
  {
    valid := true;
    var anyDegraded := false;
    for i := 0 to |phases|
      invariant valid <==> forall j :: 0 <= j < i ==> phases[j].window.sent > 0
      invariant anyDegraded <==> exists j :: 1 <= j < i && phases[j].degraded
    {
      if phases[i].window.sent == 0 { valid := false; }
      if i > 0 && phases[i].degraded { anyDegraded := true; }
    }
    survived := valid && anyDegraded && !phases[|phases| - 1].degraded
                && phases[0].window.deliveryRatio >= MIN_HEALTHY_DELIVERY;
  }

  method IsAscending(boundaries: seq<real>) returns (ok: bool)
    ensures ok == Ascending(boundaries)
  {
    var i := 1;
    while i < |boundaries|
      invariant 1 <= i
      invariant i <= |boundaries| ==> Ascending(boundaries[..i])
      invariant i > |boundaries| ==> |boundaries| == 0
    {
      if boundaries[i] <= boundaries[i - 1] {
        return false;
      }
      AscendingExtends(boundaries, i);
      i := i + 1;
    }
    assert boundaries[..|boundaries|] == boundaries;
    return true;
  }

  lemma AscendingExtends(boundaries: seq<real>, i: nat)
    requires 0 < i < |boundaries| && Ascending(boundaries[..i]) && boundaries[i - 1] < boundaries[i]
    ensures Ascending(boundaries[..i + 1])
  {
    assert forall j :: 0 <= j < i ==> boundaries[..i][j] == boundaries[j];
    assert forall j :: 0 <= j < i ==> boundaries[..i][j] <= boundaries[..i][i - 1];
  }

  /** Tally `i` counts the messages of phase `i` but those still to be ranged over. */
  ghost predicate ArePhaseTallies(idx: Index, boundaries: seq<real>, todo: set<MessageId>, tallies: seq<Tally>) {
    && |tallies| == |boundaries| + 1
    && forall i :: 0 <= i < |tallies| ==> IsTally(idx, PhaseMessages(idx, boundaries, i) - todo, tallies[i])
  }

  method ZeroTallies(idx: Index, boundaries: seq<real>) returns (tallies: seq<Tally>)
    ensures ArePhaseTallies(idx, boundaries, idx.sentT.Keys, tallies)
  {
    hide IsTally, InPhase;
    var zero := ZeroTally(idx);
    assert forall i :: PhaseMessages(idx, boundaries, i) - idx.sentT.Keys == {};
    tallies := [];
    for i := 0 to |boundaries| + 1
      invariant |tallies| == i && forall k :: 0 <= k < i ==> tallies[k] == zero
    {
      tallies := tallies + [zero];
    }
  }

  lemma PhaseInRange(boundaries: seq<real>, k: int, ts: real)
    requires InPhase(boundaries, k, ts)
    ensures 0 <= k <= |boundaries|
  {
  }

  method FillPhases(idx: Index, boundaries: seq<real>) returns (tallies: seq<Tally>)
    requires Ascending(boundaries)
    ensures |tallies| == |boundaries| + 1
    ensures forall i :: 0 <= i < |tallies| ==> IsTally(idx, PhaseMessages(idx, boundaries, i), tallies[i])
  {
    hide IsTally, PhaseMessages, InPhase, Ascending;
    tallies := ZeroTallies(idx, boundaries);
    var todo := idx.sentT.Keys;
    while todo != {}
      invariant todo <= idx.sentT.Keys
      invariant ArePhaseTallies(idx, boundaries, todo, tallies)
      decreases |todo|
    {
      var q := Pop(todo);
      var k := SearchPhase(boundaries, idx.sentT[q]);
      PhaseInRange(boundaries, k, idx.sentT[q]);
      var tally := TallyMessage(idx, PhaseMessages(idx, boundaries, k) - todo, tallies[k], q);
      PhaseGrows(idx, boundaries, todo, q, k);
      tallies := tallies[k := tally];
      todo := todo - {q};
    }
    assert forall i :: PhaseMessages(idx, boundaries, i) - {} == PhaseMessages(idx, boundaries, i);
  }

  lemma PhaseGrows(idx: Index, boundaries: seq<real>, todo: set<MessageId>, q: MessageId, k: int)
    requires q in todo && q in idx.sentT
    requires InPhase(boundaries, k, idx.sentT[q]) && forall i :: InPhase(boundaries, i, idx.sentT[q]) ==> i == k
    ensures PhaseMessages(idx, boundaries, k) - (todo - {q}) == PhaseMessages(idx, boundaries, k) - todo + {q}
    ensures forall i :: i != k ==>
          PhaseMessages(idx, boundaries, i) - (todo - {q}) == PhaseMessages(idx, boundaries, i) - todo
  {
    hide InPhase;
    assert q in PhaseMessages(idx, boundaries, k);
    forall i | i != k
      ensures PhaseMessages(idx, boundaries, i) - (todo - {q}) == PhaseMessages(idx, boundaries, i) - todo
    {
      assert q !in PhaseMessages(idx, boundaries, i);
    }
  }

  method JudgePhases(idx: Index, boundaries: seq<real>, labels: seq<string>, tolerance: real, tallies: seq<Tally>)
    returns (phases: seq<Phase>)
    requires |tallies| == |labels| == |boundaries| + 1
    requires forall i :: 0 <= i < |tallies| ==> IsTally(idx, PhaseMessages(idx, boundaries, i), tallies[i])
    ensures phases == PhasesOf(idx, boundaries, labels, tolerance, |labels|)
  {
    hide WindowOf, IsTally, PhaseMessages;
    phases := [];
    var baseline := Finalize(idx, PhaseMessages(idx, boundaries, 0), tallies[0]);
    for i := 0 to |labels|
      invariant phases == PhasesOf(idx, boundaries, labels, tolerance, i)
    {
      var w := Finalize(idx, PhaseMessages(idx, boundaries, i), tallies[i]);
      phases := phases + [MakePhase(boundaries, labels[i], i, tolerance, baseline, w)];
    }
  }

  // ----- The two reducers agree

  predicate HealthyBaseline(p: PhaseReport)
    requires p.phases != []
  {
    p.phases[0].window.deliveryRatio >= MIN_HEALTHY_DELIVERY
  }

  /** Phases split at a single moment are Reduce's two windows, and its verdict is read
      off them. */
  lemma ReducersAgree(events: seq<Event>, t: real, tolerance: real, receivers: seq<string>, first: string,
                      second: string)
    ensures var r := ReportOf(events, t, tolerance, receivers);
      var p := PhaseReportOf(events, [t], [first, second], tolerance, receivers);
      && |p.phases| == 2
      && p.phases[0].window == r.before && p.phases[1].window == r.after
      && p.receivers == r.receivers && p.scope == r.scope
      && (r.heldUp <==> HealthyBaseline(p) && p.phases[1].window.sent > 0 && !p.phases[1].degraded)
  {
    hide WindowOf, IndexOf;
    var idx := IndexOf(events, receivers);
    assert PhaseMessages(idx, [t], 0) == Before(idx, t);
    assert PhaseMessages(idx, [t], 1) == From(idx, t);
  }

  // ----- What the reports say, in their own fields

  /** Labels one more than boundaries, and every boundary later than the one before it. */
  predicate WellFormed(boundaries: seq<real>, labels: seq<string>) {
    |labels| == |boundaries| + 1 && forall i :: 0 < i < |boundaries| ==> boundaries[i - 1] < boundaries[i]
  }

  lemma {:induction false} Climbs(boundaries: seq<real>, i: nat, j: nat)
    requires forall k :: 0 < k < |boundaries| ==> boundaries[k - 1] < boundaries[k]
    requires i < j < |boundaries|
    ensures boundaries[i] < boundaries[j]
    decreases j
  {
    if i < j - 1 { Climbs(boundaries, i, j - 1); }
  }

  lemma AscendingExact(boundaries: seq<real>, labels: seq<string>)
    ensures WellFormed(boundaries, labels) <==> |labels| == |boundaries| + 1 && Ascending(boundaries)
  {
    if WellFormed(boundaries, labels) {
      forall i, j | 0 <= i < j < |boundaries| ensures boundaries[i] < boundaries[j] { Climbs(boundaries, i, j); }
    }
  }

  /** How far phase `i` fell below the baseline. */
  function Fall(phases: seq<Phase>, i: nat): real
    requires i < |phases|
  {
    phases[0].window.deliveryRatio - phases[i].window.deliveryRatio
  }

  /** A report is valid exactly when its inputs are well formed and every phase has traffic;
      a run survived exactly when it is valid, some phase after the first fell by more than
      the tolerance, the last did not, and at least half was delivered in the first. */
  lemma SurvivalExact(events: seq<Event>, boundaries: seq<real>, labels: seq<string>, tolerance: real,
                      receivers: seq<string>)
    ensures var r := PhaseReportOf(events, boundaries, labels, tolerance, receivers);
      && |r.phases| == (if WellFormed(boundaries, labels) then |labels| else 0)
      && (r.valid <==>
            WellFormed(boundaries, labels) && forall i :: 0 <= i < |r.phases| ==> r.phases[i].window.sent > 0)
      && (r.survived <==>
            && r.valid
            && (exists i :: 1 <= i < |r.phases| && Fall(r.phases, i) > tolerance)
            && Fall(r.phases, |r.phases| - 1) <= tolerance
            && 2.0 * r.phases[0].window.deliveryRatio >= 1.0)
      && (|boundaries| <= 1 ==> !r.survived)
  {
    AscendingExact(boundaries, labels);
    var r := PhaseReportOf(events, boundaries, labels, tolerance, receivers);
    if WellFormed(boundaries, labels) {
      PhasesExact(events, boundaries, labels, tolerance, receivers);
      VerdictOf(events, boundaries, labels, tolerance, receivers);
      hide *;
      SurvivesExact(r.phases, tolerance);
    } else {
      hide WellFormed, Ascending;
    }
  }

  lemma VerdictOf(events: seq<Event>, boundaries: seq<real>, labels: seq<string>, tolerance: real,
                  receivers: seq<string>)
    requires WellFormed(boundaries, labels)
    ensures var r := PhaseReportOf(events, boundaries, labels, tolerance, receivers);
            |r.phases| == |boundaries| + 1 && r.valid == HasTraffic(r.phases) && r.survived == Survives(r.phases)
  {
    AscendingExact(boundaries, labels);
    hide IndexOf, PhaseOf, WellFormed, Ascending, Survives, HasTraffic;
  }

  lemma SurvivesExact(phases: seq<Phase>, tolerance: real)
    requires phases != []
    requires forall i :: 0 <= i < |phases| ==> (phases[i].degraded <==> i > 0 && Fall(phases, i) > tolerance)
    ensures HasTraffic(phases) <==> forall i :: 0 <= i < |phases| ==> phases[i].window.sent > 0
    ensures Survives(phases) <==>
      && HasTraffic(phases)
      && (exists i :: 1 <= i < |phases| && Fall(phases, i) > tolerance)
      && Fall(phases, |phases| - 1) <= tolerance
      && 2.0 * phases[0].window.deliveryRatio >= 1.0
    ensures |phases| <= 2 ==> !Survives(phases)
  {
    assert AnyDegraded(phases) <==> exists i :: 1 <= i < |phases| && Fall(phases, i) > tolerance by {
      hide Fall;
      if i :| 1 <= i < |phases| && phases[i].degraded { assert Fall(phases, i) > tolerance; }
      if i :| 1 <= i < |phases| && Fall(phases, i) > tolerance { assert phases[i].degraded; }
    }
    hide Fall;
  }

  /** The messages first sent from boundary `i - 1` on and before boundary `i`. */
  ghost function SentWithin(events: seq<Event>, boundaries: seq<real>, i: nat): set<MessageId>
    requires i <= |boundaries|
  {
    var sent := SendTimes(events);
    set q | q in sent && (i > 0 ==> boundaries[i - 1] <= sent[q]) && (i < |boundaries| ==> sent[q] < boundaries[i])
  }

  lemma WithinIsPhase(events: seq<Event>, receivers: seq<string>, boundaries: seq<real>, i: nat)
    requires i <= |boundaries|
    ensures SentWithin(events, boundaries, i) == PhaseMessages(IndexOf(events, receivers), boundaries, i)
  {
  }

  /** The receivers of a log are those with a logged receipt. */
  lemma {:induction false} ReceiversExact(events: seq<Event>, n: string)
    ensures n in Receivers(events) <==> exists i :: ReceiptBy(events, n, i)
  {
    if events != [] {
      var init, last := events[..|events| - 1], events[|events| - 1];
      ReceiversExact(init, n);
      if i :| ReceiptBy(init, n, i) { assert ReceiptBy(events, n, i); }
      if i :| ReceiptBy(events, n, i) && i < |init| { assert ReceiptBy(init, n, i); }
      assert ReceiptBy(events, n, |init|) <==> last.ev.Recv? && last.node == n;
      hide ReceiptBy;
    }
  }

  predicate ReceiptBy(events: seq<Event>, n: string, i: int) {
    0 <= i < |events| && events[i].ev.Recv? && events[i].node == n
  }

  lemma ResolvedExact(events: seq<Event>, n: string)
    ensures n in Resolve(events, []) <==> n in Receivers(events)
  {
    hide Receivers;
    assert n in Resolve(events, []) <==> n in multiset(Resolve(events, []));
  }

  /** Each phase of a well-formed report: its label, its span, its fall below the baseline
      and whether that is more than the tolerance. */
  lemma PhasesExact(events: seq<Event>, boundaries: seq<real>, labels: seq<string>, tolerance: real,
                    receivers: seq<string>)
    requires WellFormed(boundaries, labels)
    ensures var r := PhaseReportOf(events, boundaries, labels, tolerance, receivers);
      && |r.phases| == |labels| && r.boundaries == boundaries && r.tolerance == tolerance
      && r.receivers == Resolve(events, receivers) && r.scope == (if receivers == [] then Observed else Declared)
      && forall i :: 0 <= i < |labels| ==>
           var p := r.phases[i];
           && p.name == labels[i]
           && p.window == WindowOf(IndexOf(events, receivers), SentWithin(events, boundaries, i))
           && p.startT == (if i == 0 then None else Some(boundaries[i - 1]))
           && p.endT == (if i == |boundaries| then None else Some(boundaries[i]))
           && p.dropVsBaseline == (if i == 0 then 0.0 else Fall(r.phases, i))
           && (p.degraded <==> i > 0 && Fall(r.phases, i) > tolerance)
  {
    AscendingExact(boundaries, labels);
    forall i | 0 <= i < |labels|
      ensures SentWithin(events, boundaries, i) == PhaseMessages(IndexOf(events, receivers), boundaries, i)
    {
      WithinIsPhase(events, receivers, boundaries, i);
    }
    var idx := IndexOf(events, receivers);
    assert idx.resolved == Resolve(events, receivers);
    hide IndexOf, WindowOf, PhaseMessages, SentWithin, WellFormed, Ascending, Survives, HasTraffic, Resolve;
  }

  /** The two windows are of the messages first sent before the moment and from it on; the
      mesh held up exactly when at least half was delivered before, something was sent
      after, and delivery fell by no more than the tolerance. */
  lemma HeldUpExact(events: seq<Event>, t: real, tolerance: real, receivers: seq<string>)
    ensures var r, idx := ReportOf(events, t, tolerance, receivers), IndexOf(events, receivers);
      && r.before == WindowOf(idx, set q | q in idx.sentT && idx.sentT[q] < t)
      && r.after == WindowOf(idx, set q | q in idx.sentT && t <= idx.sentT[q])
      && r.receivers == Resolve(events, receivers) && r.scope == (if receivers == [] then Observed else Declared)
      && r.perturbationT == t && r.tolerance == tolerance
      && (r.heldUp <==>
            && 2.0 * r.before.deliveryRatio >= 1.0 && r.after.sent > 0
            && r.before.deliveryRatio - r.after.deliveryRatio <= tolerance)
  {
    var idx := IndexOf(events, receivers);
    assert idx.resolved == Resolve(events, receivers);
    assert Before(idx, t) == set q | q in idx.sentT && idx.sentT[q] < t;
    assert From(idx, t) == set q | q in idx.sentT && t <= idx.sentT[q];
    hide IndexOf, WindowOf, Resolve;
  }

  /** A latency sample: a receiver in scope heard a message of the set, so many milliseconds
      after its first send. */
  ghost predicate Sampled(idx: Index, s: set<MessageId>, q: MessageId, n: string, x: real)
    requires s <= idx.sentT.Keys
  {
    q in s && n in idx.resolved && n in Got(idx.recv, q) && x == 1000.0 * (Got(idx.recv, q)[n] - idx.sentT[q])
  }

  /** The window of a set of messages, field by field: one sample for each delivery, of which
      the median and the largest are reported. */
  lemma WindowExact(idx: Index, s: set<MessageId>) returns (lat: seq<real>)
    requires s <= idx.sentT.Keys
    ensures var w := WindowOf(idx, s);
      && w.sent == |s| && w.expected == |s| * |idx.resolved|
      && w.delivered == |lat| && (forall i, j :: 0 <= i < j < |lat| ==> lat[i] <= lat[j])
      && (forall x :: x in lat <==> exists q, n :: Sampled(idx, s, q, n, x))
      && (if lat == [] then w.latencyMsP50 == w.latencyMsMax == 0.0
          else w.latencyMsP50 == lat[|lat| / 2] && w.latencyMsMax == lat[|lat| - 1])
      && |w.byReceiver| == |idx.resolved|
      && forall i :: 0 <= i < |idx.resolved| ==>
           var n := idx.resolved[i];
           w.byReceiver[i] ==
             ReceiverDelivery(n, multiset(idx.resolved)[n] * |set q | q in s && n in Got(idx.recv, q)|, |s|)
  {
    lat := SortedReals(Latencies(idx, s));
    SortedSamples(idx, s, lat);
    hide *;
    WindowFields(idx, s, lat);
  }

  /** The ratio of a window is what it delivered over what it expected, and 0 for nothing. */
  lemma RatioExact(idx: Index, s: set<MessageId>)
    requires s <= idx.sentT.Keys
    ensures var w := WindowOf(idx, s);
            if w.expected == 0 then w.deliveryRatio == 0.0
            else w.deliveryRatio * w.expected as real == w.delivered as real
  {
    hide Delivered, Latencies, Rows;
    Quotient(Delivered(idx, s), |s| * |idx.resolved|);
  }

  lemma WindowFields(idx: Index, s: set<MessageId>, lat: seq<real>)
    requires s <= idx.sentT.Keys && lat == SortedReals(Latencies(idx, s))
    ensures var w := WindowOf(idx, s);
      && w.sent == |s| && w.expected == |s| * |idx.resolved| && w.delivered == Delivered(idx, s)
      && (if lat == [] then w.latencyMsP50 == w.latencyMsMax == 0.0
          else w.latencyMsP50 == lat[|lat| / 2] && w.latencyMsMax == lat[|lat| - 1])
      && |w.byReceiver| == |idx.resolved|
      && forall i :: 0 <= i < |idx.resolved| ==>
           var n := idx.resolved[i];
           w.byReceiver[i] ==
             ReceiverDelivery(n, multiset(idx.resolved)[n] * |set q | q in s && n in Got(idx.recv, q)|, |s|)
  {
    hide Delivered, Latencies, Ratio, Got, SortedReals;
  }

  lemma SortedSamples(idx: Index, s: set<MessageId>, lat: seq<real>)
    requires s <= idx.sentT.Keys && lat == SortedReals(Latencies(idx, s))
    ensures |lat| == Delivered(idx, s) && (forall i, j :: 0 <= i < j < |lat| ==> lat[i] <= lat[j])
    ensures forall x :: x in lat <==> exists q, n :: Sampled(idx, s, q, n, x)
  {
    SampleCount(idx, s);
    SortedBag(Latencies(idx, s), lat);
    forall x { SamplesExact(idx, s, x); }
    hide *;
  }

  lemma SortedBag(bag: multiset<real>, lat: seq<real>)
    requires lat == SortedReals(bag)
    ensures |lat| == |bag| && (forall x :: x in lat <==> x in bag)
    ensures forall i, j :: 0 <= i < j < |lat| ==> lat[i] <= lat[j]
  {
    RealLeTotal();
    assert multiset(lat) == bag;
    assert forall x :: x in lat <==> x in multiset(lat);
    assert forall i, j :: 0 <= i < j < |lat| ==> RealLe(lat[i], lat[j]);
  }

  lemma Quotient(delivered: nat, expected: nat)
    ensures if expected == 0 then Ratio(delivered, expected) == 0.0
            else Ratio(delivered, expected) * expected as real == delivered as real
  {
  }

  lemma {:induction false} SampleCount(idx: Index, s: set<MessageId>)
    requires s <= idx.sentT.Keys
    ensures |Latencies(idx, s)| == Delivered(idx, s)
  {
    if s != {} {
      var q := Any(s);
      BagCount(idx.resolved, Got(idx.recv, q), idx.sentT[q]);
      SampleCount(idx, s - {q});
      hide Hits, LatencyBag;
    }
  }

  lemma {:induction false} BagCount(resolved: seq<string>, got: map<string, real>, sent: real)
    ensures |LatencyBag(resolved, got, sent)| == Hits(resolved, got)
  {
    if resolved != [] { BagCount(resolved[..|resolved| - 1], got, sent); }
  }

  lemma {:induction false} SamplesExact(idx: Index, s: set<MessageId>, x: real)
    requires s <= idx.sentT.Keys
    ensures x in Latencies(idx, s) <==> exists q, n :: Sampled(idx, s, q, n, x)
  {
    if s != {} {
      var p := Any(s);
      SamplesExact(idx, s - {p}, x);
      BagExact(idx.resolved, Got(idx.recv, p), idx.sentT[p], x);
      hide LatencyBag;
      if q, n :| Sampled(idx, s, q, n, x) {
        if q != p { assert Sampled(idx, s - {p}, q, n, x); }
      }
      if n :| n in idx.resolved && n in Got(idx.recv, p) && x == 1000.0 * (Got(idx.recv, p)[n] - idx.sentT[p]) {
        assert Sampled(idx, s, p, n, x);
      }
      if q, n :| Sampled(idx, s - {p}, q, n, x) { assert Sampled(idx, s, q, n, x); }
    }
  }

  lemma {:induction false} BagExact(resolved: seq<string>, got: map<string, real>, sent: real, x: real)
    ensures x in LatencyBag(resolved, got, sent) <==>
              exists n :: n in resolved && n in got && x == 1000.0 * (got[n] - sent)
  {
    if resolved != [] {
      var init, last := resolved[..|resolved| - 1], resolved[|resolved| - 1];
      BagExact(init, got, sent, x);
      assert resolved == init + [last];
      assert forall n :: n in resolved <==> n in init || n == last;
    }
  }

  // ----- Conservation

  lemma {:induction false} HitsBound(resolved: seq<string>, got: map<string, real>)
    ensures Hits(resolved, got) <= |resolved|
  {
    if resolved != [] { HitsBound(resolved[..|resolved| - 1], got); }
  }

  /** Delivered never exceeds expected. */
  lemma {:induction false} DeliveredBound(idx: Index, s: set<MessageId>)
    ensures Delivered(idx, s) <= |s| * |idx.resolved|
  {
    if s != {} {
      var q := Any(s);
      HitsBound(idx.resolved, Got(idx.recv, q));
      DeliveredBound(idx, s - {q});
      AddOne(|s - {q}|, |idx.resolved|);
      hide Hits, Got;
    }
  }

  /** Disjoint sets of messages add up, in every count. */
  lemma WindowsAdd(idx: Index, a: set<MessageId>, b: set<MessageId>)
    requires a !! b
    ensures |a + b| == |a| + |b|
    ensures Delivered(idx, a + b) == Delivered(idx, a) + Delivered(idx, b)
    ensures forall n :: RowCount(idx, a + b, n) == RowCount(idx, a, n) + RowCount(idx, b, n)
  {
    hide Delivered, Copies;
    DeliveredAdds(idx, a, b);
    forall n ensures RowCount(idx, a + b, n) == RowCount(idx, a, n) + RowCount(idx, b, n) {
      assert Heard(idx, a + b, n) == Heard(idx, a, n) + Heard(idx, b, n);
      Distribute(Copies(idx.resolved, n), |Heard(idx, a, n)|, |Heard(idx, b, n)|);
    }
  }

  lemma {:induction false} DeliveredAdds(idx: Index, a: set<MessageId>, b: set<MessageId>)
    requires a !! b
    ensures Delivered(idx, a + b) == Delivered(idx, a) + Delivered(idx, b)
    decreases |a|
  {
    if a == {} {
      assert a + b == b;
    } else {
      hide Delivered, Hits;
      var q := Any(a);
      DeliveredAdds(idx, a - {q}, b);
      DeliveredTake(idx, a, q);
      DeliveredTake(idx, a + b, q);
      assert a + b - {q} == (a - {q}) + b;
    }
  }

  lemma Distribute(c: nat, x: nat, y: nat)
    ensures c * (x + y) == c * x + c * y
  {
  }

  /** Removing a boundary adds the counts of the two phases it joined and leaves the
      other phases as they were. */
  lemma BoundaryRemoved(idx: Index, boundaries: seq<real>, k: nat, i: int)
    requires Ascending(boundaries) && k < |boundaries|
    ensures var fewer := boundaries[..k] + boundaries[k + 1..];
      && Ascending(fewer)
      && PhaseMessages(idx, fewer, k) == PhaseMessages(idx, boundaries, k) + PhaseMessages(idx, boundaries, k + 1)
      && PhaseMessages(idx, boundaries, k) !! PhaseMessages(idx, boundaries, k + 1)
      && Delivered(idx, PhaseMessages(idx, fewer, k)) ==
           Delivered(idx, PhaseMessages(idx, boundaries, k)) + Delivered(idx, PhaseMessages(idx, boundaries, k + 1))
      && |PhaseMessages(idx, fewer, k)| == |PhaseMessages(idx, boundaries, k)| + |PhaseMessages(idx, boundaries, k + 1)|
      && (i < k ==> PhaseMessages(idx, fewer, i) == PhaseMessages(idx, boundaries, i))
      && (i > k ==> PhaseMessages(idx, fewer, i) == PhaseMessages(idx, boundaries, i + 1))
  {
    var fewer := boundaries[..k] + boundaries[k + 1..];
    FewerAscending(boundaries, k);
    var low, high := PhaseMessages(idx, boundaries, k), PhaseMessages(idx, boundaries, k + 1);
    forall q | q in idx.sentT
      ensures InPhase(fewer, k, idx.sentT[q])
            <==> InPhase(boundaries, k, idx.sentT[q]) || InPhase(boundaries, k + 1, idx.sentT[q])
      ensures !(InPhase(boundaries, k, idx.sentT[q]) && InPhase(boundaries, k + 1, idx.sentT[q]))
      ensures i < k ==> (InPhase(fewer, i, idx.sentT[q]) <==> InPhase(boundaries, i, idx.sentT[q]))
      ensures i > k ==> (InPhase(fewer, i, idx.sentT[q]) <==> InPhase(boundaries, i + 1, idx.sentT[q]))
    {
      JoinedPhase(boundaries, k, i, idx.sentT[q]);
    }
    hide InPhase, Ascending;
    assert PhaseMessages(idx, fewer, k) == low + high;
    WindowsAdd(idx, low, high);
  }

  lemma FewerAscending(boundaries: seq<real>, k: nat)
    requires Ascending(boundaries) && k < |boundaries|
    ensures Ascending(boundaries[..k] + boundaries[k + 1..])
  {
  }

  lemma JoinedPhase(boundaries: seq<real>, k: nat, i: int, ts: real)
    requires Ascending(boundaries) && k < |boundaries|
    ensures var fewer := boundaries[..k] + boundaries[k + 1..];
      && (InPhase(fewer, k, ts) <==> InPhase(boundaries, k, ts) || InPhase(boundaries, k + 1, ts))
      && !(InPhase(boundaries, k, ts) && InPhase(boundaries, k + 1, ts))
      && (i < k ==> (InPhase(fewer, i, ts) <==> InPhase(boundaries, i, ts)))
      && (i > k ==> (InPhase(fewer, i, ts) <==> InPhase(boundaries, i + 1, ts)))
  {
    if k > 0 { assert boundaries[k - 1] < boundaries[k]; }
    if k + 1 < |boundaries| { assert boundaries[k] < boundaries[k + 1]; }
  }

  /** Totals of the first `k` phases. */
  ghost function SentUpTo(idx: Index, boundaries: seq<real>, k: nat): nat {
    if k == 0 then 0 else SentUpTo(idx, boundaries, k - 1) + |PhaseMessages(idx, boundaries, k - 1)|
  }

  ghost function DeliveredUpTo(idx: Index, boundaries: seq<real>, k: nat): nat {
    if k == 0 then 0 else DeliveredUpTo(idx, boundaries, k - 1) + Delivered(idx, PhaseMessages(idx, boundaries, k - 1))
  }

  ghost function RowUpTo(idx: Index, boundaries: seq<real>, n: string, k: nat): nat {
    if k == 0 then 0 else RowUpTo(idx, boundaries, n, k - 1) + RowCount(idx, PhaseMessages(idx, boundaries, k - 1), n)
  }

  ghost function EarlyMessages(idx: Index, boundaries: seq<real>, k: nat): set<MessageId> {
    set q | q in idx.sentT && exists i :: 0 <= i < k && InPhase(boundaries, i, idx.sentT[q])
  }

  lemma {:induction false} EarlyTotals(idx: Index, boundaries: seq<real>, n: string, k: nat)
    requires Ascending(boundaries) && k <= |boundaries| + 1
    ensures SentUpTo(idx, boundaries, k) == |EarlyMessages(idx, boundaries, k)|
    ensures DeliveredUpTo(idx, boundaries, k) == Delivered(idx, EarlyMessages(idx, boundaries, k))
    ensures RowUpTo(idx, boundaries, n, k) == RowCount(idx, EarlyMessages(idx, boundaries, k), n)
  {
    hide RowCount, EarlyMessages, PhaseMessages, InPhase, Ascending;
    EarlySplit(idx, boundaries, k);
    if k == 0 {
      EmptyRow(idx, n);
    } else {
      EarlyTotals(idx, boundaries, n, k - 1);
      WindowsAdd(idx, EarlyMessages(idx, boundaries, k - 1), PhaseMessages(idx, boundaries, k - 1));
    }
  }

  lemma EarlySplit(idx: Index, boundaries: seq<real>, k: nat)
    requires Ascending(boundaries)
    ensures k == 0 ==> EarlyMessages(idx, boundaries, k) == {}
    ensures k > 0 ==>
      && EarlyMessages(idx, boundaries, k - 1) !! PhaseMessages(idx, boundaries, k - 1)
      && EarlyMessages(idx, boundaries, k)
           == EarlyMessages(idx, boundaries, k - 1) + PhaseMessages(idx, boundaries, k - 1)
  {
    if k > 0 {
      forall q | q in idx.sentT && InPhase(boundaries, k - 1, idx.sentT[q])
        ensures forall i :: InPhase(boundaries, i, idx.sentT[q]) ==> i == k - 1
      {
        PhaseUnique(boundaries, k - 1, idx.sentT[q]);
      }
      hide InPhase;
    }
  }

  lemma EmptyRow(idx: Index, n: string)
    ensures RowCount(idx, {}, n) == 0
  {
    assert Heard(idx, {}, n) == {};
  }

  /** Every message sent is in exactly one phase, so the phases together count each send,
      each delivery and each receiver's deliveries once. */
  lemma PhasesConserve(idx: Index, boundaries: seq<real>, n: string)
    requires Ascending(boundaries)
    ensures SentUpTo(idx, boundaries, |boundaries| + 1) == |idx.sentT.Keys|
    ensures DeliveredUpTo(idx, boundaries, |boundaries| + 1) == Delivered(idx, idx.sentT.Keys)
    ensures RowUpTo(idx, boundaries, n, |boundaries| + 1) == RowCount(idx, idx.sentT.Keys, n)
  {
    hide RowCount, Delivered;
    EarlyTotals(idx, boundaries, n, |boundaries| + 1);
    var s := EarlyMessages(idx, boundaries, |boundaries| + 1);
    forall q | q in idx.sentT ensures q in s {
      SomePhase(boundaries, |boundaries|, idx.sentT[q]);
    }
    assert s == idx.sentT.Keys;
  }

  lemma {:induction false} SomePhase(boundaries: seq<real>, k: nat, ts: real)
    requires k <= |boundaries| && (k == |boundaries| || ts < boundaries[k])
    ensures exists i :: 0 <= i < |boundaries| + 1 && InPhase(boundaries, i, ts)
    decreases k
  {
    if k > 0 && ts < boundaries[k - 1] {
      SomePhase(boundaries, k - 1, ts);
    } else {
      assert InPhase(boundaries, k, ts);
    }
  }

  // ----- Rows and pairs

  /** Deliveries counted receiver by receiver. */
  function HeardSum(idx: Index, s: set<MessageId>, k: nat): nat
    requires k <= |idx.resolved|
  {
    if k == 0 then 0 else HeardSum(idx, s, k - 1) + |Heard(idx, s, idx.resolved[k - 1])|
  }

  function RowsSum(idx: Index, s: set<MessageId>, k: nat): nat
    requires k <= |idx.resolved|
  {
    if k == 0 then 0 else RowsSum(idx, s, k - 1) + RowCount(idx, s, idx.resolved[k - 1])
  }

  lemma HeardTake(idx: Index, s: set<MessageId>, q: MessageId, n: string)
    requires q in s
    ensures |Heard(idx, s, n)| == |Heard(idx, s - {q}, n)| + if n in Got(idx.recv, q) then 1 else 0
  {
    assert Heard(idx, s, n) == Heard(idx, s - {q}, n) + if n in Got(idx.recv, q) then {q} else {};
  }

  lemma {:induction false} HeardSumTake(idx: Index, s: set<MessageId>, q: MessageId, k: nat)
    requires q in s && k <= |idx.resolved|
    ensures HeardSum(idx, s, k) == HeardSum(idx, s - {q}, k) + Hits(idx.resolved[..k], Got(idx.recv, q))
  {
    if k > 0 {
      HeardSumTake(idx, s, q, k - 1);
      assert idx.resolved[..k][..k - 1] == idx.resolved[..k - 1];
      HeardTake(idx, s, q, idx.resolved[k - 1]);
      hide Heard, Got;
    }
  }

  lemma {:induction false} HeardSumEmpty(idx: Index, k: nat)
    requires k <= |idx.resolved|
    ensures HeardSum(idx, {}, k) == 0
  {
    if k > 0 {
      HeardSumEmpty(idx, k - 1);
      assert Heard(idx, {}, idx.resolved[k - 1]) == {};
    }
  }

  /** Counting by message and counting by receiver give the same total. */
  lemma {:induction false} DeliveredByReceiver(idx: Index, s: set<MessageId>)
    ensures Delivered(idx, s) == HeardSum(idx, s, |idx.resolved|)
  {
    if s == {} {
      HeardSumEmpty(idx, |idx.resolved|);
    } else {
      var q := Any(s);
      DeliveredByReceiver(idx, s - {q});
      HeardSumTake(idx, s, q, |idx.resolved|);
      assert idx.resolved[..|idx.resolved|] == idx.resolved;
    }
  }

  /** A receiver listed twice that heard something. */
  predicate DoubleCounted(idx: Index, s: set<MessageId>, i: int) {
    0 <= i < |idx.resolved| && Copies(idx.resolved, idx.resolved[i]) > 1 && Heard(idx, s, idx.resolved[i]) != {}
  }

  lemma {:induction false} RowsSumPrefix(idx: Index, s: set<MessageId>, k: nat)
    requires k <= |idx.resolved|
    ensures RowsSum(idx, s, k) >= HeardSum(idx, s, k)
    ensures RowsSum(idx, s, k) == HeardSum(idx, s, k) <==> forall i :: i < k ==> !DoubleCounted(idx, s, i)
  {
    if k > 0 {
      RowsSumPrefix(idx, s, k - 1);
      var n := idx.resolved[k - 1];
      assert multiset(idx.resolved)[n] >= 1;
      RowTerm(Copies(idx.resolved, n), |Heard(idx, s, n)|);
      assert DoubleCounted(idx, s, k - 1) <==> Copies(idx.resolved, n) > 1 && |Heard(idx, s, n)| > 0;
      hide DoubleCounted;
    }
  }

  lemma RowTerm(c: nat, h: nat)
    requires c >= 1
    ensures c * h >= h && (c * h == h <==> c == 1 || h == 0)
  {
    if c > 1 && h > 0 { assert c * h >= 2 * h; }
  }

  /** The per-receiver rows add up to the window's deliveries exactly when no receiver that
      heard something is listed twice. */
  lemma RowsSumExact(idx: Index, s: set<MessageId>)
    ensures RowsSum(idx, s, |idx.resolved|) == Delivered(idx, s) <==> forall i :: !DoubleCounted(idx, s, i)
  {
    RowsSumPrefix(idx, s, |idx.resolved|);
    DeliveredByReceiver(idx, s);
    hide DoubleCounted;
    forall i | i >= |idx.resolved| ensures !DoubleCounted(idx, s, i) { OutOfRange(idx, s, i); }
  }

  lemma OutOfRange(idx: Index, s: set<MessageId>, i: int)
    requires i >= |idx.resolved|
    ensures !DoubleCounted(idx, s, i)
  {
  }

  predicate DistinctReceivers(resolved: seq<string>) { forall n :: n in resolved ==> Copies(resolved, n) == 1 }

  /** With distinct receivers no row claims more deliveries than there were messages. */
  lemma RowBound(idx: Index, s: set<MessageId>, n: string)
    requires DistinctReceivers(idx.resolved) && n in idx.resolved
    ensures RowCount(idx, s, n) <= |s|
  {
    SubsetSize(Heard(idx, s, n), s);
  }

  lemma {:induction false} SubsetSize<T>(a: set<T>, b: set<T>)
    requires a <= b
    ensures |a| <= |b|
  {
    assert b == a + (b - a);
  }

  /** The receivers inferred from a log are distinct. */
  lemma InferredDistinct(events: seq<Event>)
    ensures DistinctReceivers(Resolve(events, []))
  {
    var r := Resolve(events, []);
    forall n | n in r ensures Copies(r, n) == 1 {
      assert n in multiset(r);
    }
  }

  ghost function Pairs(idx: Index, s: set<MessageId>): set<(MessageId, string)> {
    set q, n | q in s && n in Got(idx.recv, q) && n in idx.resolved :: (q, n)
  }

  /** A receiver listed twice that heard message `q`. */
  predicate HeardTwice(resolved: seq<string>, got: map<string, real>, n: string) {
    n in got && n in resolved && Copies(resolved, n) > 1
  }

  predicate HeardOnce(resolved: seq<string>, got: map<string, real>) {
    forall n :: n in resolved ==> !HeardTwice(resolved, got, n)
  }

  /** Deliveries are at least the pairs of a message and a receiver in scope that heard it,
      and exactly those pairs if and only if no receiver that heard something is listed twice. */
  lemma {:induction false} DeliveredArePairs(idx: Index, s: set<MessageId>)
    ensures Delivered(idx, s) >= |Pairs(idx, s)|
    ensures Delivered(idx, s) == |Pairs(idx, s)| <==> forall i :: !DoubleCounted(idx, s, i)
  {
    PairsCounted(idx, s);
    hide Delivered, Pairs;
    if forall q :: q in s ==> HeardOnce(idx.resolved, Got(idx.recv, q)) {
      forall i ensures !DoubleCounted(idx, s, i) {
        if DoubleCounted(idx, s, i) { TwiceFound(idx, s, i); }
      }
    } else {
      var q :| q in s && !HeardOnce(idx.resolved, Got(idx.recv, q));
      var n :| n in idx.resolved && HeardTwice(idx.resolved, Got(idx.recv, q), n);
      var i :| 0 <= i < |idx.resolved| && idx.resolved[i] == n;
      assert q in Heard(idx, s, n);
      assert DoubleCounted(idx, s, i);
    }
  }

  lemma TwiceFound(idx: Index, s: set<MessageId>, i: int)
    requires DoubleCounted(idx, s, i)
    ensures exists q :: q in s && !HeardOnce(idx.resolved, Got(idx.recv, q))
  {
    var n := idx.resolved[i];
    var q := Any(Heard(idx, s, n));
    assert HeardTwice(idx.resolved, Got(idx.recv, q), n);
  }

  lemma {:induction false} PairsCounted(idx: Index, s: set<MessageId>)
    ensures Delivered(idx, s) >= |Pairs(idx, s)|
    ensures Delivered(idx, s) == |Pairs(idx, s)| <==> forall q :: q in s ==> HeardOnce(idx.resolved, Got(idx.recv, q))
  {
    if s == {} {
      assert Pairs(idx, s) == {};
    } else {
      var q := Any(s);
      PairsCounted(idx, s - {q});
      PairsOfOne(idx, s, q);
      HitsCounted(idx.resolved, Got(idx.recv, q));
      hide HeardOnce, Hits, Pairs;
      assert forall p :: p in s <==> p == q || p in s - {q};
    }
  }

  lemma PairsOfOne(idx: Index, s: set<MessageId>, q: MessageId)
    requires q in s
    ensures |Pairs(idx, s)| == |Pairs(idx, s - {q})| + |set n | n in Got(idx.recv, q) && n in idx.resolved|
  {
    var own := set n | n in Got(idx.recv, q) && n in idx.resolved;
    var mine := set n | n in own :: (q, n);
    assert Pairs(idx, s) == Pairs(idx, s - {q}) + mine;
    assert Pairs(idx, s - {q}) !! mine;
    PairedSize(q, own);
  }

  lemma {:induction false} PairedSize(q: MessageId, own: set<string>)
    ensures |set n | n in own :: (q, n)| == |own|
  {
    var mine := set n | n in own :: (q, n);
    if own == {} {
      assert mine == {};
    } else {
      var n := Any(own);
      PairedSize(q, own - {n});
      assert mine == (set m | m in own - {n} :: (q, m)) + {(q, n)};
    }
  }

  lemma OneMoreHeard(init: seq<string>, last: string, got: map<string, real>)
    ensures |set n | n in got && n in init + [last]|
         == |set n | n in got && n in init| + if last in got && last !in init then 1 else 0
  {
    var before := set n | n in got && n in init;
    var after := set n | n in got && n in init + [last];
    if last in got {
      assert after == before + {last};
    } else {
      assert after == before;
    }
  }

  lemma {:induction false} HitsCounted(resolved: seq<string>, got: map<string, real>)
    ensures Hits(resolved, got) >= |set n | n in got && n in resolved|
    ensures Hits(resolved, got) == |set n | n in got && n in resolved| <==> HeardOnce(resolved, got)
  {
    if resolved != [] {
      var init, last := resolved[..|resolved| - 1], resolved[|resolved| - 1];
      HitsCounted(init, got);
      OneMoreListed(init, last, got);
      OneMoreHeard(init, last, got);
      assert resolved == init + [last];
      hide HeardOnce, Copies;
    }
  }

  lemma OneMoreListed(init: seq<string>, last: string, got: map<string, real>)
    ensures HeardOnce(init + [last], got) <==> HeardOnce(init, got) && !(last in got && last in init)
  {
    var resolved := init + [last];
    assert forall n :: Copies(resolved, n) == Copies(init, n) + if n == last then 1 else 0;
    assert last in init <==> last in multiset(init);
    if last in got && last in init {
      assert HeardTwice(resolved, got, last);
    } else if HeardOnce(init, got) {
      forall n | n in resolved ensures !HeardTwice(resolved, got, n) {
        if n != last { assert n in init && !HeardTwice(init, got, n); }
      }
    } else {
      var n :| n in init && HeardTwice(init, got, n);
      assert n in resolved && HeardTwice(resolved, got, n);
    }
  }
}
