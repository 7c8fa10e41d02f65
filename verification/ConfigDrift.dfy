/** Comparing a desired tree with a device's export (internal/config/diff.go): what it
  finds, and how much of that hangs on the order Go ranges over colliding keys in. */
module ConfigDrift {
  import opened Text
  import opened ConfigTree

  // ----- The drift paths, as a bag that no iteration order can change

  function Join(prefix: string, k: string): string {
    if prefix != "" then prefix + "." + k else k
  }

  ghost function Match(l: Config, k: string): (r: Option<Tree>)
    ensures r.Some? <==> exists m :: m in l && NormKey(m) == NormKey(k)
    ensures r.Some? ==> exists m :: m in l && NormKey(m) == NormKey(k) && r.value == l[m]
  {
    if m :| m in l && NormKey(m) == NormKey(k) then Some(l[m]) else None
  }

  ghost function KeyDrift(prefix: string, d: Config, l: Config, k: string): multiset<string>
    requires k in d
    decreases d[k], 2, 0
  {
    var path := Join(prefix, k);
    match Match(l, k)
    case None => multiset{path}
    case Some(lv) => ValueDrift(path, d[k], lv)
  }

  ghost function ValueDrift(path: string, dv: Tree, lv: Tree): multiset<string>
    decreases dv, 1, 0
  {
    if dv.Node? && lv.Node? then DriftBag(path, dv.fields, lv.fields, dv.fields.Keys)
    else if dv.Node? || lv.Node? || !ScalarEqual(dv, lv) then multiset{path}
    else multiset{}
  }

  /** The drift of the desired keys in `keys`. */
  ghost function DriftBag(prefix: string, d: Config, l: Config, keys: set<string>): multiset<string>
    requires keys <= d.Keys
    decreases Node(d), 0, |keys|
  {
    if keys == {} then multiset{}
    else
      var k :| k in keys;
      KeyDrift(prefix, d, l, k) + DriftBag(prefix, d, l, keys - {k})
  }

  /** The bag does not depend on which key is taken first. */
  lemma {:induction false} DriftBagTake(prefix: string, d: Config, l: Config, keys: set<string>, k: string)
    requires keys <= d.Keys && k in keys
    ensures DriftBag(prefix, d, l, keys) == KeyDrift(prefix, d, l, k) + DriftBag(prefix, d, l, keys - {k})
    decreases |keys|
  {
    hide *;
    var j := FirstCompared(prefix, d, l, keys);
    if j != k {
      DriftBagTake(prefix, d, l, keys - {j}, k);
      DriftBagTake(prefix, d, l, keys - {k}, j);
      assert keys - {j} - {k} == keys - {k} - {j};
    }
  }

  lemma FirstCompared(prefix: string, d: Config, l: Config, keys: set<string>) returns (j: string)
    requires keys <= d.Keys && keys != {}
    ensures j in keys && DriftBag(prefix, d, l, keys) == KeyDrift(prefix, d, l, j) + DriftBag(prefix, d, l, keys - {j})
  {
    hide KeyDrift;
    j :| j in keys && DriftBag(prefix, d, l, keys) == KeyDrift(prefix, d, l, j) + DriftBag(prefix, d, l, keys - {j});
  }

  lemma {:induction false} ValueDriftEmpty(path: string, dv: Tree, lv: Tree)
    requires lv.Node? ==> Unambiguous(lv.fields)
    ensures ValueDrift(path, dv, lv) == multiset{} <==> CoveredValue(dv, lv)
    decreases dv, 1, 0
  {
    if dv.Node? && lv.Node? {
      DriftBagEmpty(path, dv.fields, lv.fields, dv.fields.Keys);
    }
  }

  lemma {:induction false} DriftBagEmpty(prefix: string, d: Config, l: Config, keys: set<string>)
    requires keys <= d.Keys && Unambiguous(l)
    ensures DriftBag(prefix, d, l, keys) == multiset{} <==> forall k :: k in keys ==> KeyCovered(d, k, l)
    decreases Node(d), 0, |keys|
  {
    if keys != {} {
      var k :| k in keys;
      DriftBagTake(prefix, d, l, keys, k);
      DriftBagEmpty(prefix, d, l, keys - {k});
      if Match(l, k).Some? {
        ValueDriftEmpty(Join(prefix, k), d[k], Match(l, k).value);
      }
      assert KeyDrift(prefix, d, l, k) == multiset{} <==> KeyCovered(d, k, l);
      assert forall j :: j in keys <==> j == k || j in keys - {k};
    }
  }

  ghost function DriftPaths(d: Config, l: Config): seq<string> {
    SortedStrings(DriftBag("", d, l, d.Keys))
  }

  /** The reported drift is empty exactly when the live tree covers the desired one. */
  lemma DriftPathsEmpty(d: Config, l: Config)
    requires Unambiguous(l)
    ensures DriftPaths(d, l) == [] <==> Covered(d, l)
  {
    DriftBagEmpty("", d, l, d.Keys);
    assert |DriftPaths(d, l)| == |DriftBag("", d, l, d.Keys)|;
  }

  // ----- Which paths are reported

  /** A path of keys as it is reported: joined by dots, with none after an empty beginning. */
  function Dotted(prefix: string, path: seq<string>): string
    decreases |path|
  {
    if path == [] then prefix
    else Dotted(if prefix == "" then path[0] else prefix + "." + path[0], path[1..])
  }

  predicate ValuesDiffer(dv: Tree, lv: Tree) {
    dv.Node? != lv.Node? || (!dv.Node? && !lv.Node? && !ScalarEqual(dv, lv))
  }

  /** The trees part at a path of desired keys: they agree on the sections that lead there,
      and what is desired there is missing in every spelling, or different. */
  ghost predicate Differs(d: Config, l: Config, path: seq<string>)
    decreases |path|, 1
  {
    && path != [] && path[0] in d
    && if |path| == 1 then forall m :: m in l && SameSpelling(m, path[0]) ==> ValuesDiffer(d[path[0]], l[m])
       else d[path[0]].Node? && exists m :: Leads(d, l, path, m)
  }

  ghost predicate Leads(d: Config, l: Config, path: seq<string>, m: string)
    requires |path| > 1 && path[0] in d && d[path[0]].Node?
    decreases |path|, 0
  {
    && m in l && SameSpelling(m, path[0]) && l[m].Node?
    && Differs(d[path[0]].fields, l[m].fields, path[1..])
  }

  ghost predicate ReportedFor(prefix: string, d: Config, l: Config, keys: set<string>, path: seq<string>, p: string) {
    path != [] && path[0] in keys && Differs(d, l, path) && p == Dotted(prefix, path)
  }

  /** What is reported, exactly: the paths at which the trees part, written with dots. */
  lemma DriftPathsExact(d: Config, l: Config, p: string)
    requires Unambiguous(l)
    ensures p in DriftPaths(d, l) <==> exists path :: Differs(d, l, path) && p == Dotted("", path)
  {
    Listed(d, l, p);
    hide *;
    BagPaths("", d, l, d.Keys, p);
    if path :| ReportedFor("", d, l, d.Keys, path, p) { FromTheTop(d, l, path, p); }
    if path :| Differs(d, l, path) && p == Dotted("", path) { FromTheTop(d, l, path, p); }
  }

  lemma Listed(d: Config, l: Config, p: string)
    ensures p in DriftPaths(d, l) <==> p in DriftBag("", d, l, d.Keys)
  {
    hide DriftBag;
    assert p in DriftPaths(d, l) <==> p in multiset(DriftPaths(d, l));
  }

  lemma FromTheTop(d: Config, l: Config, path: seq<string>, p: string)
    ensures ReportedFor("", d, l, d.Keys, path, p) <==> Differs(d, l, path) && p == Dotted("", path)
  {
    hide Dotted;
  }

  lemma {:induction false} BagPaths(prefix: string, d: Config, l: Config, keys: set<string>, p: string)
    requires Unambiguous(l) && keys <= d.Keys
    ensures p in DriftBag(prefix, d, l, keys) <==> exists path :: ReportedFor(prefix, d, l, keys, path, p)
    decreases Node(d), 0, |keys|
  {
    if keys != {} {
      var k :| k in keys;
      DriftBagTake(prefix, d, l, keys, k);
      KeyPaths(prefix, d, l, k, p);
      BagPaths(prefix, d, l, keys - {k}, p);
      hide DriftBag, KeyDrift, Differs, Dotted, Unambiguous;
      if path :| ReportedFor(prefix, d, l, {k}, path, p) { assert ReportedFor(prefix, d, l, keys, path, p); }
      if path :| ReportedFor(prefix, d, l, keys - {k}, path, p) { assert ReportedFor(prefix, d, l, keys, path, p); }
      if path :| ReportedFor(prefix, d, l, keys, path, p) {
        assert if path[0] == k then ReportedFor(prefix, d, l, {k}, path, p)
               else ReportedFor(prefix, d, l, keys - {k}, path, p);
      }
    }
  }

  lemma LongPath(d: Config, l: Config, path: seq<string>)
    requires Differs(d, l, path) && |path| > 1
    ensures d[path[0]].Node? && exists m :: m in l && SameSpelling(m, path[0]) && l[m].Node?
  {
    hide SameSpelling;
    var m :| Leads(d, l, path, m);
  }

  lemma ShortPath(d: Config, l: Config, path: seq<string>, m: string)
    requires Differs(d, l, path) && m in l && SameSpelling(m, path[0]) && d[path[0]].Node? && l[m].Node?
    ensures |path| > 1
  {
    hide SameSpelling;
  }

  /** No section below: only the key itself can be reported. */
  lemma HereOnly(prefix: string, d: Config, l: Config, k: string, p: string)
    requires k in d && (d[k].Node? ==> forall m :: m in l && SameSpelling(m, k) ==> !l[m].Node?)
    ensures (exists path :: ReportedFor(prefix, d, l, {k}, path, p)) <==>
              p == Join(prefix, k) && forall m :: m in l && SameSpelling(m, k) ==> ValuesDiffer(d[k], l[m])
  {
    hide ValuesDiffer, SameSpelling;
    assert Dotted(prefix, [k]) == Join(prefix, k);
    forall path | ReportedFor(prefix, d, l, {k}, path, p) ensures path == [k] {
      if |path| > 1 { LongPath(d, l, path); }
    }
    if p == Join(prefix, k) && Differs(d, l, [k]) { assert ReportedFor(prefix, d, l, {k}, [k], p); }
  }

  /** A section on both sides: what is reported is reported below. */
  lemma DeeperOnly(prefix: string, d: Config, l: Config, k: string, m: string, p: string)
    requires k in d && d[k].Node? && m in l && l[m].Node?
    requires forall j :: j in l ==> (SameSpelling(j, k) <==> j == m)
    ensures var dk, lm := d[k].fields, l[m].fields;
      (exists path :: ReportedFor(prefix, d, l, {k}, path, p)) <==>
        exists rest :: ReportedFor(Join(prefix, k), dk, lm, dk.Keys, rest, p)
  {
    var dk, lm := d[k].fields, l[m].fields;
    hide SameSpelling;
    if path :| ReportedFor(prefix, d, l, {k}, path, p) {
      assert path[0] == k && Dotted(prefix, path) == Dotted(Join(prefix, k), path[1..]);
      assert SameSpelling(m, k);
      ShortPath(d, l, path, m);
      var j :| Leads(d, l, path, j);
      assert SameSpelling(j, k) && j == m;
      assert Differs(dk, lm, path[1..]) && path[1..][0] in dk;
      assert ReportedFor(Join(prefix, k), dk, lm, dk.Keys, path[1..], p);
    }
    if rest :| ReportedFor(Join(prefix, k), dk, lm, dk.Keys, rest, p) {
      var path := [k] + rest;
      assert path[1..] == rest && Dotted(prefix, path) == Dotted(Join(prefix, k), rest);
      assert Differs(dk, lm, rest) && path[0] == k && |path| > 1;
      assert SameSpelling(m, path[0]);
      assert Leads(d, l, path, m);
      assert Differs(d, l, path);
      assert ReportedFor(prefix, d, l, {k}, path, p);
    }
  }

  lemma {:induction false} KeyPaths(prefix: string, d: Config, l: Config, k: string, p: string)
    requires Unambiguous(l) && k in d
    ensures p in KeyDrift(prefix, d, l, k) <==> exists path :: ReportedFor(prefix, d, l, {k}, path, p)
    decreases d[k], 2, 0
  {
    match Match(l, k)
    case None =>
      forall m | m in l ensures !SameSpelling(m, k) { NormKeyExact(m, k); }
      HereOnly(prefix, d, l, k, p);
    case Some(lv) =>
      var m :| m in l && NormKey(m) == NormKey(k) && lv == l[m];
      forall j | j in l ensures SameSpelling(j, k) <==> j == m { NormKeyExact(j, k); }
      if d[k].Node? && lv.Node? {
        BagPaths(Join(prefix, k), d[k].fields, lv.fields, d[k].fields.Keys, p);
        DeeperOnly(prefix, d, l, k, m, p);
      } else {
        HereOnly(prefix, d, l, k, p);
      }
  }

  // ----- Colliding live keys

  /** What the index of live keys by normal form may be after the keys `done`: of several
      keys with one normal form, any may be the one kept. */
  ghost predicate IndexOf(index: Config, l: Config, done: set<string>) {
    && (forall m :: m in done && m in l ==> NormKey(m) in index)
    && (forall n :: n in index ==> exists m :: m in done && m in l && NormKey(m) == n && index[n] == l[m])
  }

  /** The comparison finds nothing, whatever order Go ranges over the live keys in. */
  ghost predicate AlwaysClean(d: Config, l: Config)
    decreases Node(d), 0
  {
    forall index :: IndexOf(index, l, l.Keys) ==> forall k :: k in d ==> CleanKey(d, k, index)
  }

  ghost predicate CleanKey(d: Config, k: string, index: Config)
    requires k in d
    decreases d[k], 2
  {
    NormKey(k) in index && CleanValue(d[k], index[NormKey(k)])
  }

  ghost predicate CleanValue(d: Tree, l: Tree)
    decreases d, 1
  {
    if d.Node? && l.Node? then AlwaysClean(d.fields, l.fields)
    else !d.Node? && !l.Node? && ScalarEqual(d, l)
  }

  /** Every desired key has a live key of its normal form, and every live key of that
      normal form covers it. */
  ghost predicate SurelyCovered(d: Config, l: Config)
    decreases Node(d), 0
  {
    forall k :: k in d ==> SurelyKeyCovered(d, k, l)
  }

  ghost predicate SurelyKeyCovered(d: Config, k: string, l: Config)
    requires k in d
    decreases d[k], 2
  {
    && (exists m :: m in l && NormKey(m) == NormKey(k))
    && (forall m :: m in l && NormKey(m) == NormKey(k) ==> SurelyValue(d[k], l[m]))
  }

  ghost predicate SurelyValue(d: Tree, l: Tree)
    decreases d, 1
  {
    if d.Node? && l.Node? then SurelyCovered(d.fields, l.fields)
    else !d.Node? && !l.Node? && ScalarEqual(d, l)
  }

  /** One more live key is ranged over. */
  lemma IndexMore(index: Config, l: Config, done: set<string>, m: string)
    requires IndexOf(index, l, done) && m in l
    ensures IndexOf(index[NormKey(m) := l[m]], l, done + {m})
  {
    var more := index[NormKey(m) := l[m]];
    hide NormKey;
    forall n | n in more ensures exists j :: j in done + {m} && j in l && NormKey(j) == n && more[n] == l[j] {
      if n == NormKey(m) {
        assert m in done + {m};
      } else {
        var j :| j in done && j in l && NormKey(j) == n && index[n] == l[j];
        assert j in done + {m};
      }
    }
  }

  lemma {:induction false} IndexExists(l: Config, done: set<string>) returns (index: Config)
    requires done <= l.Keys
    ensures IndexOf(index, l, done)
    decreases |done|
  {
    if done == {} {
      index := map[];
    } else {
      var m :| m in done;
      hide IndexOf;
      index := IndexExists(l, done - {m});
      IndexMore(index, l, done - {m}, m);
      index := index[NormKey(m) := l[m]];
      assert done - {m} + {m} == done;
    }
  }

  /** Any live key may be the one its normal form is compared by. */
  lemma MayBeKept(l: Config, m: string) returns (index: Config)
    requires m in l
    ensures IndexOf(index, l, l.Keys) && NormKey(m) in index && index[NormKey(m)] == l[m]
  {
    hide IndexOf, NormKey;
    var before := IndexExists(l, l.Keys);
    IndexAgain(before, l, m);
    index := before[NormKey(m) := l[m]];
  }

  lemma {:induction false} CleanIsSure(d: Config, l: Config)
    ensures AlwaysClean(d, l) <==> SurelyCovered(d, l)
    decreases Node(d), 0
  {
    if AlwaysClean(d, l) {
      forall k | k in d ensures SurelyKeyCovered(d, k, l) {
        CleanKeyIsSure(d, k, l);
      }
    }
    if SurelyCovered(d, l) {
      forall index, k | IndexOf(index, l, l.Keys) && k in d ensures CleanKey(d, k, index) {
        SureKeyIsClean(d, k, l, index);
      }
    }
  }

  lemma {:induction false} CleanKeyIsSure(d: Config, k: string, l: Config)
    requires k in d && AlwaysClean(d, l)
    ensures SurelyKeyCovered(d, k, l)
    decreases d[k], 2
  {
    var any := IndexExists(l, l.Keys);
    assert CleanKey(d, k, any);
    forall m | m in l && NormKey(m) == NormKey(k) ensures SurelyValue(d[k], l[m]) {
      var index := MayBeKept(l, m);
      assert CleanKey(d, k, index);
      CleanValueIsSure(d[k], l[m]);
    }
  }

  lemma {:induction false} SureKeyIsClean(d: Config, k: string, l: Config, index: Config)
    requires k in d && SurelyKeyCovered(d, k, l) && IndexOf(index, l, l.Keys)
    ensures CleanKey(d, k, index)
    decreases d[k], 2
  {
    var m :| m in l && NormKey(m) == NormKey(k) && index[NormKey(k)] == l[m];
    CleanValueIsSure(d[k], l[m]);
  }

  lemma {:induction false} CleanValueIsSure(d: Tree, l: Tree)
    ensures CleanValue(d, l) <==> SurelyValue(d, l)
    decreases d, 1
  {
    if d.Node? && l.Node? { CleanIsSure(d.fields, l.fields); }
  }

  lemma {:induction false} SurelyIsCovered(d: Config, l: Config)
    requires SurelyCovered(d, l)
    ensures Covered(d, l)
    decreases Node(d), 0
  {
    forall k | k in d ensures KeyCovered(d, k, l) {
      assert SurelyKeyCovered(d, k, l);
      var m :| m in l && NormKey(m) == NormKey(k);
      SurelyValueIsCovered(d[k], l[m]);
    }
  }

  lemma {:induction false} SurelyValueIsCovered(d: Tree, l: Tree)
    requires SurelyValue(d, l)
    ensures CoveredValue(d, l)
    decreases d, 1
  {
    if d.Node? { SurelyIsCovered(d.fields, l.fields); }
  }

  /** Without colliding live keys, covered is surely covered. */
  lemma {:induction false} CoveredIsSure(d: Config, l: Config)
    requires Unambiguous(l) && Covered(d, l)
    ensures SurelyCovered(d, l)
    decreases Node(d), 0
  {
    forall k | k in d ensures SurelyKeyCovered(d, k, l) {
      assert KeyCovered(d, k, l);
      var m :| m in l && NormKey(m) == NormKey(k) && CoveredValue(d[k], l[m]);
      CoveredValueIsSure(d[k], l[m]);
      assert forall j :: j in l && NormKey(j) == NormKey(k) ==> j == m;
    }
  }

  lemma {:induction false} CoveredValueIsSure(d: Tree, l: Tree)
    requires CoveredValue(d, l) && (l.Node? ==> Unambiguous(l.fields))
    ensures SurelyValue(d, l)
    decreases d, 1
  {
    if d.Node? { CoveredIsSure(d.fields, l.fields); }
  }

  // ----- Some order finds nothing

  /** Some order of the live keys leaves every desired key clean. Desired keys of one normal
      form are compared with the same live value. */
  ghost predicate MayBeClean(d: Config, l: Config)
    decreases Node(d), 1
  {
    exists index :: IndexOf(index, l, l.Keys) && AllMayBeClean(d, index)
  }

  ghost predicate AllMayBeClean(d: Config, index: Config)
    decreases Node(d), 0
  {
    forall k :: k in d ==> KeyMayBeClean(d, k, index)
  }

  ghost predicate KeyMayBeClean(d: Config, k: string, index: Config)
    requires k in d
    decreases d[k], 3
  {
    NormKey(k) in index && ValueMayBeClean(d[k], index[NormKey(k)])
  }

  ghost predicate ValueMayBeClean(d: Tree, l: Tree)
    decreases d, 2
  {
    if d.Node? && l.Node? then MayBeClean(d.fields, l.fields)
    else !d.Node? && !l.Node? && ScalarEqual(d, l)
  }

  lemma CleanOrder(d: Config, l: Config) returns (index: Config)
    requires MayBeClean(d, l)
    ensures IndexOf(index, l, l.Keys) && AllMayBeClean(d, index)
  {
    hide IndexOf, AllMayBeClean;
    index :| IndexOf(index, l, l.Keys) && AllMayBeClean(d, index);
  }

  lemma OrderIsClean(d: Config, l: Config, index: Config)
    requires IndexOf(index, l, l.Keys) && AllMayBeClean(d, index)
    ensures MayBeClean(d, l)
  {
    hide IndexOf, AllMayBeClean;
  }

  lemma {:induction false} AlwaysIsMaybe(d: Config, l: Config)
    requires AlwaysClean(d, l)
    ensures MayBeClean(d, l)
    decreases Node(d), 0
  {
    var index := IndexExists(l, l.Keys);
    forall k | k in d ensures KeyMayBeClean(d, k, index) {
      assert CleanKey(d, k, index);
      AlwaysValueIsMaybe(d[k], index[NormKey(k)]);
    }
    assert AllMayBeClean(d, index);
  }

  lemma {:induction false} AlwaysValueIsMaybe(d: Tree, l: Tree)
    requires CleanValue(d, l)
    ensures ValueMayBeClean(d, l)
    decreases d, 1
  {
    if d.Node? { AlwaysIsMaybe(d.fields, l.fields); }
  }

  lemma {:induction false} MaybeIsCovered(d: Config, l: Config)
    requires MayBeClean(d, l)
    ensures Covered(d, l)
    decreases Node(d), 0
  {
    var index :| IndexOf(index, l, l.Keys) && AllMayBeClean(d, index);
    forall k | k in d ensures KeyCovered(d, k, l) {
      assert KeyMayBeClean(d, k, index);
      var m :| m in l && NormKey(m) == NormKey(k) && index[NormKey(k)] == l[m];
      MaybeValueIsCovered(d[k], l[m]);
    }
  }

  lemma {:induction false} MaybeValueIsCovered(d: Tree, l: Tree)
    requires ValueMayBeClean(d, l)
    ensures CoveredValue(d, l)
    decreases d, 1
  {
    if d.Node? { MaybeIsCovered(d.fields, l.fields); }
  }

  lemma CleanIsMaybe(d: Config, l: Config)
    ensures AlwaysClean(d, l) ==> MayBeClean(d, l)
  {
    hide AlwaysClean, MayBeClean;
    if AlwaysClean(d, l) { AlwaysIsMaybe(d, l); }
  }

  /** Without colliding desired keys, some order finds nothing exactly when the live tree
      covers the desired one. */
  lemma CoveredIsMaybe(d: Config, l: Config)
    requires Unambiguous(d)
    ensures Covered(d, l) <==> MayBeClean(d, l)
  {
    if Covered(d, l) { CoveredFindsNothing(d, l); }
    if MayBeClean(d, l) { MaybeIsCovered(d, l); }
  }

  lemma {:induction false} CoveredFindsNothing(d: Config, l: Config)
    requires Unambiguous(d) && Covered(d, l)
    ensures MayBeClean(d, l)
    decreases Node(d), 2, 0
  {
    var index := LuckyIndex(d, l, d.Keys);
    assert AllMayBeClean(d, index);
  }

  /** Keep, for each desired key, the live key that covers it. */
  lemma {:induction false} LuckyIndex(d: Config, l: Config, keys: set<string>) returns (index: Config)
    requires Unambiguous(d) && Covered(d, l) && keys <= d.Keys
    ensures IndexOf(index, l, l.Keys) && forall k :: k in keys ==> KeyMayBeClean(d, k, index)
    decreases Node(d), 1, |keys|
  {
    hide *;
    if keys == {} {
      index := IndexExists(l, l.Keys);
    } else {
      var k :| k in keys;
      var before := LuckyIndex(d, l, keys - {k});
      var m := LuckyKey(d, k, l);
      index := before[NormKey(m) := l[m]];
      IndexAgain(before, l, m);
      KeySetClean(d, k, before, NormKey(m), l[m]);
      KeysApart(d, k);
      forall j | j in keys ensures KeyMayBeClean(d, j, index) {
        if j != k { KeyStaysClean(d, j, before, NormKey(m), l[m]); }
      }
    }
  }

  lemma {:induction false} LuckyKey(d: Config, k: string, l: Config) returns (m: string)
    requires Unambiguous(d) && Covered(d, l) && k in d
    ensures m in l && NormKey(m) == NormKey(k) && ValueMayBeClean(d[k], l[m])
    decreases Node(d), 0, 0
  {
    assert KeyCovered(d, k, l);
    m :| m in l && NormKey(m) == NormKey(k) && CoveredValue(d[k], l[m]);
    hide ValueMayBeClean;
    LuckyValue(d[k], l[m]);
  }

  lemma IndexAgain(index: Config, l: Config, m: string)
    requires IndexOf(index, l, l.Keys) && m in l
    ensures IndexOf(index[NormKey(m) := l[m]], l, l.Keys)
  {
    hide *;
    IndexMore(index, l, l.Keys, m);
    assert l.Keys + {m} == l.Keys;
  }

  lemma KeySetClean(d: Config, k: string, index: Config, n: string, v: Tree)
    requires k in d && n == NormKey(k) && ValueMayBeClean(d[k], v)
    ensures KeyMayBeClean(d, k, index[n := v])
  {
    hide ValueMayBeClean, NormKey;
  }

  lemma KeyStaysClean(d: Config, k: string, index: Config, n: string, v: Tree)
    requires k in d && KeyMayBeClean(d, k, index) && NormKey(k) != n
    ensures KeyMayBeClean(d, k, index[n := v])
  {
    hide ValueMayBeClean, NormKey;
  }

  lemma KeysApart(d: Config, k: string)
    requires Unambiguous(d) && k in d
    ensures forall j :: j in d && j != k ==> NormKey(j) != NormKey(k)
  {
    hide NormKey;
  }

  lemma {:induction false} LuckyValue(d: Tree, l: Tree)
    requires CoveredValue(d, l) && (d.Node? ==> Unambiguous(d.fields))
    ensures ValueMayBeClean(d, l)
    decreases d, 3, 0
  {
    if d.Node? { CoveredFindsNothing(d.fields, l.fields); }
  }

  // ----- What a comparison may find

  ghost function Total(parts: map<string, multiset<string>>): multiset<string>
    decreases |parts|
  {
    if parts == map[] then multiset{}
    else
      var k :| k in parts;
      parts[k] + Total(parts - {k})
  }

  lemma {:induction false} TotalTake(parts: map<string, multiset<string>>, k: string)
    requires k in parts
    ensures Total(parts) == parts[k] + Total(parts - {k})
    decreases |parts|
  {
    var j := FirstTaken(parts);
    if j != k {
      hide Total;
      TotalTake(parts - {j}, k);
      TotalTake(parts - {k}, j);
      MinusSwap(parts, j, k);
    }
  }

  lemma FirstTaken(parts: map<string, multiset<string>>) returns (j: string)
    requires parts != map[]
    ensures j in parts && Total(parts) == parts[j] + Total(parts - {j})
  {
    j :| j in parts && Total(parts) == parts[j] + Total(parts - {j});
  }

  lemma MinusSwap<K, V>(m: map<K, V>, j: K, k: K)
    ensures m - {j} - {k} == m - {k} - {j}
  {
  }

  /** The paths one comparison may find: some order of the live keys, and for each desired
      key what the comparison with the live value kept for it may find. */
  ghost predicate MayFind(prefix: string, d: Config, l: Config, bag: multiset<string>)
    decreases Node(d), 1
  {
    exists index, parts :: IndexOf(index, l, l.Keys) && AreParts(prefix, d, index, parts) && bag == Total(parts)
  }

  ghost predicate AreParts(prefix: string, d: Config, index: Config, parts: map<string, multiset<string>>)
    decreases Node(d), 0
  {
    parts.Keys == d.Keys && forall k :: k in d ==> KeyMayFind(prefix, d, k, index, parts[k])
  }

  ghost predicate KeyMayFind(prefix: string, d: Config, k: string, index: Config, bag: multiset<string>)
    requires k in d
    decreases d[k], 3
  {
    if NormKey(k) in index then ValueMayFind(Join(prefix, k), d[k], index[NormKey(k)], bag)
    else bag == multiset{Join(prefix, k)}
  }

  ghost predicate ValueMayFind(path: string, dv: Tree, lv: Tree, bag: multiset<string>)
    decreases dv, 2
  {
    if dv.Node? && lv.Node? then MayFind(path, dv.fields, lv.fields, bag)
    else bag == if dv.Node? || lv.Node? || !ScalarEqual(dv, lv) then multiset{path} else multiset{}
  }

  lemma {:induction false} NothingInParts(parts: map<string, multiset<string>>)
    ensures Total(parts) == multiset{} <==> forall k :: k in parts ==> parts[k] == multiset{}
    decreases |parts|
  {
    if parts != map[] {
      var k :| k in parts;
      TotalTake(parts, k);
      NothingInParts(parts - {k});
      assert forall j :: j in parts <==> j == k || j in parts - {k};
    }
  }

  /** Nothing may be found exactly when some order finds nothing. */
  lemma {:induction false} FindsNothing(prefix: string, d: Config, l: Config)
    ensures MayFind(prefix, d, l, multiset{}) <==> MayBeClean(d, l)
    decreases Node(d), 1
  {
    if MayFind(prefix, d, l, multiset{}) { NothingIsClean(prefix, d, l); }
    if MayBeClean(d, l) { CleanIsNothing(prefix, d, l); }
  }

  lemma {:induction false} NothingIsClean(prefix: string, d: Config, l: Config)
    requires MayFind(prefix, d, l, multiset{})
    ensures MayBeClean(d, l)
    decreases Node(d), 0
  {
    var index: Config, parts :| IndexOf(index, l, l.Keys) && AreParts(prefix, d, index, parts)
        && multiset{} == Total(parts);
    assert parts.Keys == d.Keys && forall k :: k in d ==> KeyMayFind(prefix, d, k, index, parts[k]);
    hide MayFind, AreParts, IndexOf, KeyMayFind, KeyMayBeClean, MayBeClean;
    NothingInParts(parts);
    forall k | k in d ensures KeyMayBeClean(d, k, index) {
      assert KeyMayFind(prefix, d, k, index, parts[k]);
      KeyFindsNothing(prefix, d, k, index);
    }
    OrderIsClean(d, l, index);
  }

  function NoParts(d: Config): map<string, multiset<string>> { map k | k in d :: multiset{} }

  lemma NoDrift(d: Config)
    ensures NoParts(d).Keys == d.Keys && forall k :: k in d ==> NoParts(d)[k] == multiset{}
    ensures Total(NoParts(d)) == multiset{}
  {
    NothingInParts(NoParts(d));
    hide Total;
  }

  lemma {:induction false} CleanIsNothing(prefix: string, d: Config, l: Config)
    requires MayBeClean(d, l)
    ensures MayFind(prefix, d, l, multiset{})
    decreases Node(d), 0
  {
    var index := CleanOrder(d, l);
    assert forall k :: k in d ==> KeyMayBeClean(d, k, index);
    NoDrift(d);
    hide *;
    var parts := NoParts(d);
    forall k | k in parts ensures KeyMayFind(prefix, d, k, index, parts[k]) {
      KeyFindsNothing(prefix, d, k, index);
    }
    FoundAll(prefix, d, l, index, parts);
  }

  lemma {:induction false} KeyFindsNothing(prefix: string, d: Config, k: string, index: Config)
    requires k in d
    ensures KeyMayFind(prefix, d, k, index, multiset{}) <==> KeyMayBeClean(d, k, index)
    decreases d[k], 3
  {
    if NormKey(k) in index && d[k].Node? && index[NormKey(k)].Node? {
      FindsNothing(Join(prefix, k), d[k].fields, index[NormKey(k)].fields);
    }
  }

  /** A comparison that is clean in every order finds nothing. */
  lemma {:induction false} CleanFindsNothing(prefix: string, d: Config, l: Config, bag: multiset<string>)
    requires AlwaysClean(d, l) && MayFind(prefix, d, l, bag)
    ensures bag == multiset{}
    decreases Node(d), 0
  {
    var index: Config, parts :| IndexOf(index, l, l.Keys) && AreParts(prefix, d, index, parts) && bag == Total(parts);
    assert forall k :: k in d ==> CleanKey(d, k, index) && KeyMayFind(prefix, d, k, index, parts[k]);
    assert parts.Keys == d.Keys;
    hide AlwaysClean, MayFind, AreParts, IndexOf, CleanKey, KeyMayFind;
    forall k | k in parts ensures parts[k] == multiset{} {
      CleanKeyFindsNothing(prefix, d, k, index, parts[k]);
    }
    NothingInParts(parts);
  }

  lemma {:induction false} CleanKeyFindsNothing(prefix: string, d: Config, k: string, index: Config,
                                                bag: multiset<string>)
    requires k in d && CleanKey(d, k, index) && KeyMayFind(prefix, d, k, index, bag)
    ensures bag == multiset{}
    decreases d[k], 1
  {
    if d[k].Node? {
      CleanFindsNothing(Join(prefix, k), d[k].fields, index[NormKey(k)].fields, bag);
    }
  }

  /** Every order finds something or nothing. */
  lemma {:induction false} SomeParts(prefix: string, d: Config, index: Config, keys: set<string>)
    returns (parts: map<string, multiset<string>>)
    requires keys <= d.Keys
    ensures parts.Keys == keys && forall k :: k in keys ==> KeyMayFind(prefix, d, k, index, parts[k])
    decreases Node(d), 0, |keys|
  {
    hide *;
    parts := map[];
    if keys != {} {
      var k :| k in keys;
      var before := SomeParts(prefix, d, index, keys - {k});
      var bag := KeyFindsSome(prefix, d, k, index);
      parts := before[k := bag];
    }
  }

  lemma {:induction false} KeyFindsSome(prefix: string, d: Config, k: string, index: Config)
    returns (bag: multiset<string>)
    requires k in d
    ensures KeyMayFind(prefix, d, k, index, bag)
    decreases d[k], 2, 0
  {
    var path := Join(prefix, k);
    if NormKey(k) !in index {
      bag := multiset{path};
    } else if d[k].Node? && index[NormKey(k)].Node? {
      var l := index[NormKey(k)].fields;
      var any := IndexExists(l, l.Keys);
      var parts := SomeParts(path, d[k].fields, any, d[k].fields.Keys);
      assert AreParts(path, d[k].fields, any, parts);
      bag := Total(parts);
    } else {
      bag := if d[k].Node? || index[NormKey(k)].Node? || !ScalarEqual(d[k], index[NormKey(k)]) then multiset{path}
             else multiset{};
    }
  }

  /** A comparison that is not clean in every order may find drift. */
  lemma {:induction false} UncleanFindsDrift(prefix: string, d: Config, l: Config) returns (bag: multiset<string>)
    requires !AlwaysClean(d, l)
    ensures MayFind(prefix, d, l, bag) && bag != multiset{}
    decreases Node(d), 1, 0
  {
    var index: Config, k :| IndexOf(index, l, l.Keys) && k in d && !CleanKey(d, k, index);
    hide AlwaysClean, MayFind, IndexOf, CleanKey, KeyMayFind;
    var parts := SomeParts(prefix, d, index, d.Keys);
    var found := UncleanKeyFinds(prefix, d, k, index);
    bag := Total(parts[k := found]);
    DriftInParts(prefix, d, l, index, parts, k, found);
  }

  lemma DriftInParts(prefix: string, d: Config, l: Config, index: Config, parts: map<string, multiset<string>>,
                     k: string, found: multiset<string>)
    requires IndexOf(index, l, l.Keys) && parts.Keys == d.Keys && k in d
    requires forall j :: j in d ==> KeyMayFind(prefix, d, j, index, parts[j])
    requires KeyMayFind(prefix, d, k, index, found) && found != multiset{}
    ensures MayFind(prefix, d, l, Total(parts[k := found])) && Total(parts[k := found]) != multiset{}
  {
    hide *;
    var all := parts[k := found];
    NothingInParts(all);
    FoundAll(prefix, d, l, index, all);
  }

  lemma {:induction false} UncleanKeyFinds(prefix: string, d: Config, k: string, index: Config)
    returns (bag: multiset<string>)
    requires k in d && !CleanKey(d, k, index)
    ensures KeyMayFind(prefix, d, k, index, bag) && bag != multiset{}
    decreases d[k], 2, 0
  {
    if NormKey(k) in index && d[k].Node? && index[NormKey(k)].Node? {
      bag := UncleanFindsDrift(Join(prefix, k), d[k].fields, index[NormKey(k)].fields);
    } else {
      bag := multiset{Join(prefix, k)};
    }
  }

  /** Without colliding live keys there is one bag of paths to find. */
  lemma {:induction false} FindsOneBag(prefix: string, d: Config, l: Config, bag: multiset<string>)
    requires Unambiguous(l) && MayFind(prefix, d, l, bag)
    ensures bag == DriftBag(prefix, d, l, d.Keys)
    decreases Node(d), 1
  {
    var index: Config, parts :| IndexOf(index, l, l.Keys) && AreParts(prefix, d, index, parts) && bag == Total(parts);
    forall k | k in parts ensures parts[k] == KeyDrift(prefix, d, l, k) {
      KeyFindsOneBag(prefix, d, l, k, index, parts[k]);
    }
    TotalIsBag(prefix, d, l, parts);
  }

  lemma {:induction false} KeyFindsOneBag(prefix: string, d: Config, l: Config, k: string, index: Config,
                                          bag: multiset<string>)
    requires Unambiguous(l) && IndexOf(index, l, l.Keys) && k in d && KeyMayFind(prefix, d, k, index, bag)
    ensures bag == KeyDrift(prefix, d, l, k)
    decreases d[k], 3
  {
    hide DriftBag;
    if NormKey(k) in index {
      var m :| m in l && NormKey(m) == NormKey(k) && index[NormKey(k)] == l[m];
      assert Match(l, k) == Some(l[m]);
      if d[k].Node? && l[m].Node? {
        FindsOneBag(Join(prefix, k), d[k].fields, l[m].fields, bag);
      }
    }
  }

  lemma {:induction false} TotalIsBag(prefix: string, d: Config, l: Config, parts: map<string, multiset<string>>)
    requires parts.Keys <= d.Keys && forall k :: k in parts ==> parts[k] == KeyDrift(prefix, d, l, k)
    ensures Total(parts) == DriftBag(prefix, d, l, parts.Keys)
    decreases |parts|
  {
    if parts != map[] {
      var k :| k in parts;
      hide KeyDrift;
      TotalTake(parts, k);
      TotalIsBag(prefix, d, l, parts - {k});
      assert (parts - {k}).Keys == parts.Keys - {k};
      DriftBagTake(prefix, d, l, parts.Keys, k);
    }
  }

  // ----- What Drift may answer

  /** The answers Drift may give: for some order of the live keys, the paths found, sorted. */
  ghost predicate DriftVerdict(d: Config, l: Config, paths: seq<string>) {
    MayFind("", d, l, multiset(paths)) && paths == SortedStrings(multiset(paths))
  }

  lemma EmptyPaths(paths: seq<string>)
    ensures paths == [] <==> multiset(paths) == multiset{}
    ensures SortedStrings(multiset{}) == []
  {
    assert |multiset(paths)| == |paths|;
  }

  /** An empty answer is possible exactly when some order finds nothing; it is the only
      answer when every order does; and without colliding live keys there is one answer. */
  lemma VerdictMeans(d: Config, l: Config, paths: seq<string>)
    requires DriftVerdict(d, l, paths)
    ensures paths == [] ==> MayBeClean(d, l) && Covered(d, l)
    ensures AlwaysClean(d, l) ==> paths == []
    ensures Unambiguous(l) ==> paths == DriftPaths(d, l)
  {
    hide MayFind, MayBeClean, AlwaysClean, Unambiguous, Covered, DriftBag;
    EmptyPaths(paths);
    FindsNothing("", d, l);
    if paths == [] { MaybeIsCovered(d, l); }
    if AlwaysClean(d, l) { CleanFindsNothing("", d, l, multiset(paths)); }
    if Unambiguous(l) { FindsOneBag("", d, l, multiset(paths)); }
  }

  lemma CleanVerdict(d: Config, l: Config)
    ensures DriftVerdict(d, l, []) <==> MayBeClean(d, l)
  {
    hide MayFind, MayBeClean;
    EmptyPaths([]);
    FindsNothing("", d, l);
  }

  lemma UnluckyExists(d: Config, l: Config) returns (paths: seq<string>)
    ensures DriftVerdict(d, l, paths) && (paths == [] ==> AlwaysClean(d, l))
  {
    hide MayFind, MayBeClean, AlwaysClean;
    if AlwaysClean(d, l) {
      AlwaysIsMaybe(d, l);
      CleanVerdict(d, l);
      paths := [];
    } else {
      var bag := UncleanFindsDrift("", d, l);
      paths := SortedStrings(bag);
      EmptyPaths(paths);
    }
  }

  /** An answer of the unluckiest order: drift whenever some order finds it. */
  ghost function UnluckyVerdict(d: Config, l: Config): (paths: seq<string>)
    ensures DriftVerdict(d, l, paths)
    ensures paths == [] <==> AlwaysClean(d, l)
  {
    assert exists paths :: DriftVerdict(d, l, paths) && (paths == [] ==> AlwaysClean(d, l)) by {
      var paths := UnluckyExists(d, l);
    }
    var paths :| DriftVerdict(d, l, paths) && (paths == [] ==> AlwaysClean(d, l));
    VerdictMeans(d, l, paths);
    paths
  }

  /** A value that is surely covered agrees with the live value at its path, whatever the
      spelling of the last key. */
  lemma {:induction false} SurelyAt(d: Config, l: Config, path: seq<string>, k: string, m: string)
    requires SurelyCovered(d, l) && NormKey(k) == NormKey(m)
    requires At(d, path + [k]).Some? && At(l, path + [m]).Some?
    ensures SurelyValue(At(d, path + [k]).value, At(l, path + [m]).value)
    decreases |path|
  {
    if path == [] {
      assert SurelyKeyCovered(d, k, l);
    } else {
      assert (path + [k])[1..] == path[1..] + [k] && (path + [m])[1..] == path[1..] + [m];
      assert SurelyKeyCovered(d, path[0], l);
      SurelyAt(d[path[0]].fields, l[path[0]].fields, path[1..], k, m);
    }
  }

  // ----- The algorithm

  lemma NoIndex(l: Config)
    ensures IndexOf(map[], l, l.Keys - l.Keys)
  {
  }

  /** The first loop of collectDrift: of several live keys with one normal form,
      the one ranged over last stays. */
  method IndexLive(l: Config) returns (liveByNorm: Config)
    ensures IndexOf(liveByNorm, l, l.Keys)
  {
    liveByNorm := map[];
    var todo := l.Keys;
    NoIndex(l);
    hide *;
    while todo != {}
      invariant todo <= l.Keys && IndexOf(liveByNorm, l, l.Keys - todo)
      decreases |todo|
    {
      var m :| m in todo;
      IndexMore(liveByNorm, l, l.Keys - todo, m);
      assert l.Keys - todo + {m} == l.Keys - (todo - {m});
      liveByNorm := liveByNorm[NormKey(m) := l[m]];
      todo := todo - {m};
    }
    assert l.Keys - todo == l.Keys;
  }

  /** collectDrift: both maps are ranged over in any order. */
  method CollectDrift(prefix: string, d: Config, l: Config) returns (out: seq<string>)
    ensures MayFind(prefix, d, l, multiset(out))
    decreases Node(d), 0
  {
    hide *;
    var liveByNorm := IndexLive(l);
    out := [];
    var todo := d.Keys;
    ghost var parts: map<string, multiset<string>> := map[];
    NothingFound(prefix, d, liveByNorm);
    while todo != {}
      invariant todo <= d.Keys && FoundSoFar(prefix, d, liveByNorm, d.Keys - todo, parts, multiset(out))
      decreases |todo|
    {
      var k :| k in todo;
      var found := CompareKey(prefix, d, k, liveByNorm);
      FoundMore(prefix, d, liveByNorm, d.Keys - todo, parts, multiset(out), k, multiset(found));
      assert d.Keys - todo + {k} == d.Keys - (todo - {k});
      parts := parts[k := multiset(found)];
      out := out + found;
      todo := todo - {k};
    }
    assert d.Keys - todo == d.Keys;
    FoundEnough(prefix, d, l, liveByNorm, parts, multiset(out));
  }

  /** What the desired keys compared so far came to. */
  ghost predicate FoundSoFar(prefix: string, d: Config, index: Config, done: set<string>,
                             parts: map<string, multiset<string>>, bag: multiset<string>) {
    && parts.Keys == done && done <= d.Keys && bag == Total(parts)
    && forall k :: k in parts ==> KeyMayFind(prefix, d, k, index, parts[k])
  }

  lemma NothingFound(prefix: string, d: Config, index: Config)
    ensures FoundSoFar(prefix, d, index, d.Keys - d.Keys, map[], multiset([]))
  {
  }

  lemma FoundMore(prefix: string, d: Config, index: Config, done: set<string>, parts: map<string, multiset<string>>,
                  bag: multiset<string>, k: string, found: multiset<string>)
    requires FoundSoFar(prefix, d, index, done, parts, bag) && k in d && k !in done
    requires KeyMayFind(prefix, d, k, index, found)
    ensures FoundSoFar(prefix, d, index, done + {k}, parts[k := found], bag + found)
  {
    hide KeyMayFind, Total;
    TotalMore(parts, k, found);
  }

  lemma FoundEnough(prefix: string, d: Config, l: Config, index: Config, parts: map<string, multiset<string>>,
                    bag: multiset<string>)
    requires IndexOf(index, l, l.Keys) && FoundSoFar(prefix, d, index, d.Keys, parts, bag)
    ensures MayFind(prefix, d, l, bag)
  {
    hide IndexOf, KeyMayFind, MayFind, Total;
    FoundAll(prefix, d, l, index, parts);
  }

  lemma TotalMore(parts: map<string, multiset<string>>, k: string, bag: multiset<string>)
    requires k !in parts
    ensures Total(parts[k := bag]) == Total(parts) + bag
  {
    hide Total;
    TotalTake(parts[k := bag], k);
    assert parts[k := bag] - {k} == parts;
  }

  lemma FoundAll(prefix: string, d: Config, l: Config, index: Config, parts: map<string, multiset<string>>)
    requires IndexOf(index, l, l.Keys) && parts.Keys == d.Keys
    requires forall k :: k in parts ==> KeyMayFind(prefix, d, k, index, parts[k])
    ensures MayFind(prefix, d, l, Total(parts))
  {
    hide KeyMayFind, IndexOf;
    assert AreParts(prefix, d, index, parts);
  }

  /** The body of collectDrift's loop over desired keys. */
  method CompareKey(prefix: string, d: Config, k: string, liveByNorm: Config) returns (out: seq<string>)
    requires k in d
    ensures KeyMayFind(prefix, d, k, liveByNorm, multiset(out))
    decreases d[k], 2
  {
    hide ValueMayFind;
    var path := Join(prefix, k);
    if NormKey(k) !in liveByNorm {
      return [path];
    }
    out := CompareValue(path, d[k], liveByNorm[NormKey(k)]);
  }

  method CompareValue(path: string, dv: Tree, lv: Tree) returns (out: seq<string>)
    ensures ValueMayFind(path, dv, lv, multiset(out))
    decreases dv, 1
  {
    hide MayFind, ScalarEqual;
    if dv.Node? && lv.Node? {
      out := CollectDrift(path, dv.fields, lv.fields);
    } else if dv.Node? != lv.Node? {
      out := [path];
    } else {
      out := if !ScalarEqual(dv, lv) then [path] else [];
    }
  }

  method Drift(d: Config, l: Config) returns (paths: seq<string>)
    ensures DriftVerdict(d, l, paths)
  {
    var found := CollectDrift("", d, l);
    paths := SortStrings(found);
    hide MayFind;
    SortStringsCanonical(found);
  }
}
