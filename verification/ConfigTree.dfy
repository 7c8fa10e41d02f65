/** The configuration tree of internal/config/diff.go: what it means for an export to
  cover a desired tree, and the copy-and-remove helpers around the comparison. */
module ConfigTree {
  import opened Text

  datatype Option<+T> = None | Some(value: T)

  /** One channel slot; pskHash is the hex hash of the key, "" for no key. */
  datatype ChannelState = ChannelState(index: int, name: string, pskHash: string, uplink: bool, downlink: bool)

  /** A decoded configuration value. A scalar is its fmt.Sprint text; the channel
      list the exporter emits is kept as typed records. */
  datatype Tree = Scalar(text: string) | ChannelList(list: seq<ChannelState>) | Node(fields: map<string, Tree>)

  type Config = map<string, Tree>

  const PASSWORD_PATH := ["module_config", "mqtt", "password"]

  function SprintChannel(c: ChannelState): string {
    "map[downlinkEnabled:" + Bool(c.downlink) + " index:" + Decimal(c.index) + " name:" + c.name
    + " pskHash:" + c.pskHash + " uplinkEnabled:" + Bool(c.uplink) + "]"
  }

  function SprintChannels(list: seq<ChannelState>): string {
    if list == [] then ""
    else SprintChannel(list[0]) + (if |list| == 1 then "" else " ") + SprintChannels(list[1..])
  }

  function Sprint(t: Tree): string
    requires !t.Node?
  {
    if t.Scalar? then t.text else "[" + SprintChannels(t.list) + "]"
  }

  predicate ScalarEqual(a: Tree, b: Tree)
    requires !a.Node? && !b.Node?
  {
    TrimSpace(Sprint(a)) == TrimSpace(Sprint(b))
  }

  /** Two scalars compare equal exactly when both print as one text with white space
      around it. */
  lemma ScalarEqualExact(a: Tree, b: Tree)
    requires !a.Node? && !b.Node?
    ensures ScalarEqual(a, b) <==>
      exists t, w, x, y, z :: Around(Sprint(a), w, t, x) && Around(Sprint(b), y, t, z)
  {
    TrimEqualExact(Sprint(a), Sprint(b));
    hide TrimSpace, Around, Sprint;
  }

  /** Over the characters the API allows in a region, a preset or a role, only equal texts
      compare equal. */
  lemma NamesEqualExact(a: string, b: string)
    requires IsName(a) && IsName(b)
    ensures ScalarEqual(Scalar(a), Scalar(b)) <==> a == b
  {
    NamesAreTight(a);
    NamesAreTight(b);
    hide TrimSpace;
  }

  // ----- What "converged" means, stated without an algorithm

  /** Every desired key has a live key of the same normal form whose value covers it. */
  ghost predicate Covered(d: Config, l: Config)
    decreases Node(d), 0
  {
    forall k :: k in d ==> KeyCovered(d, k, l)
  }

  ghost predicate KeyCovered(d: Config, k: string, l: Config)
    requires k in d
    decreases d[k], 2
  {
    exists m :: m in l && NormKey(m) == NormKey(k) && CoveredValue(d[k], l[m])
  }

  ghost predicate CoveredValue(d: Tree, l: Tree)
    decreases d, 1
  {
    if d.Node? && l.Node? then Covered(d.fields, l.fields)
    else !d.Node? && !l.Node? && ScalarEqual(d, l)
  }

  /** No two keys of one level share a normal form, at any depth. */
  ghost predicate Unambiguous(l: Config)
    decreases Node(l)
  {
    && (forall a, b :: a in l && b in l && NormKey(a) == NormKey(b) ==> a == b)
    && (forall k :: k in l && l[k].Node? ==> Unambiguous(l[k].fields))
  }

  lemma {:induction false} CoveredValueReflexive(t: Tree)
    ensures CoveredValue(t, t)
    decreases t, 1
  {
    if t.Node? { CoveredReflexive(t.fields); }
  }

  /** Convergence is a preorder, first half. */
  lemma {:induction false} CoveredReflexive(d: Config)
    ensures Covered(d, d)
    decreases Node(d), 0
  {
    forall k | k in d ensures KeyCovered(d, k, d) {
      CoveredValueReflexive(d[k]);
    }
  }

  lemma {:induction false} CoveredValueTransitive(a: Tree, b: Tree, c: Tree)
    requires CoveredValue(a, b) && CoveredValue(b, c)
    ensures CoveredValue(a, c)
    decreases a, 1
  {
    if a.Node? { CoveredTransitive(a.fields, b.fields, c.fields); }
  }

  /** Convergence is a preorder, second half: no hypothesis on colliding keys is needed. */
  lemma {:induction false} CoveredTransitive(a: Config, b: Config, c: Config)
    requires Covered(a, b) && Covered(b, c)
    ensures Covered(a, c)
    decreases Node(a), 0
  {
    forall k | k in a ensures KeyCovered(a, k, c) {
      assert KeyCovered(a, k, b);
      var m :| m in b && NormKey(m) == NormKey(k) && CoveredValue(a[k], b[m]);
      assert KeyCovered(b, m, c);
      var n :| n in c && NormKey(n) == NormKey(m) && CoveredValue(b[m], c[n]);
      CoveredValueTransitive(a[k], b[m], c[n]);
    }
  }

  // ----- Removing a path from a copy

  function RemovePath(m: Config, path: seq<string>): Config
    decreases |path|
  {
    if path == [] then m
    else if |path| == 1 then m - {path[0]}
    else if path[0] in m && m[path[0]].Node? then
      m[path[0] := Node(RemovePath(m[path[0]].fields, path[1..]))]
    else m
  }

  /** The desired tree without the fields a device never echoes. */
  function ForComparison(desired: Config): Config {
    RemovePath(desired, PASSWORD_PATH)
  }

  /** The value under a path of exact keys. */
  function At(m: Config, path: seq<string>): Option<Tree>
    requires path != []
    decreases |path|
  {
    if path[0] !in m then None
    else if |path| == 1 then Some(m[path[0]])
    else if m[path[0]].Node? then At(m[path[0]].fields, path[1..])
    else None
  }

  /** What is written under the MQTT password path, "" when there is none. */
  function Password(m: Config): string {
    match At(m, PASSWORD_PATH)
    case Some(Scalar(text)) => text
    case _ => ""
  }

  lemma {:induction false} RemovePathAt(m: Config, path: seq<string>, q: seq<string>)
    requires path != [] && q != []
    requires !(path <= q) && !(q < path)
    ensures At(RemovePath(m, path), q) == At(m, q)
    decreases |path|
  {
    if q[0] == path[0] && path[0] in m && m[path[0]].Node? && |path| > 1 {
      assert path == [path[0]] + path[1..] && q == [q[0]] + q[1..];
      assert !(path[1..] <= q[1..]) && !(q[1..] < path[1..]);
      RemovePathAt(m[path[0]].fields, path[1..], q[1..]);
    }
  }
}
