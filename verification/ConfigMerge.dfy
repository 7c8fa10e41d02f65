/** What a write does to a device's stored configuration (internal/device/fake.go),
  and what the next export says about it. */
module ConfigMerge {
  import opened Text
  import opened ConfigTree
  import opened ConfigDrift

  function Merge(dst: Config, src: Config): Config
    decreases Node(src), 0
  {
    map k | k in dst.Keys + src.Keys ::
      if k in src then MergeValue(Entry(dst, k), src[k]) else dst[k]
  }

  function Entry(m: Config, k: string): Option<Tree> {
    if k in m then Some(m[k]) else None
  }

  function MergeValue(was: Option<Tree>, v: Tree): Tree
    decreases v, 1
  {
    if v.Node? then Node(Merge(SubMap(was), v.fields)) else v
  }

  function SubMap(was: Option<Tree>): Config {
    if was.Some? && was.value.Node? then was.value.fields else map[]
  }

  /** mergeMap: the source is ranged over in any order. */
  method MergeMap(dst: Config, src: Config) returns (r: Config)
    ensures r == Merge(dst, src)
    decreases Node(src), 0
  {
    hide Merging;
    MergingStart(dst, src);
    r := dst;
    var todo := src.Keys;
    ghost var done := {};
    while todo != {}
      invariant done !! todo && done + todo == src.Keys
      invariant Merging(dst, src, done, r)
      decreases |todo|
    {
      var k :| k in todo;
      MergingStep(dst, src, done, r, k);
      var merged := MergeEntry(Entry(r, k), src[k]);
      r := r[k := merged];
      todo, done := todo - {k}, done + {k};
    }
    MergingDone(dst, src, r);
  }

  /** `r` is `dst` with the keys `done` of `src` merged in. */
  ghost predicate Merging(dst: Config, src: Config, done: set<string>, r: Config) {
    && done <= src.Keys && r.Keys == dst.Keys + done
    && (forall k :: k in done ==> r[k] == MergeValue(Entry(dst, k), src[k]))
    && (forall k :: k in dst && k !in done ==> r[k] == dst[k])
  }

  lemma MergingStart(dst: Config, src: Config)
    ensures Merging(dst, src, {}, dst)
  {
  }

  lemma MergingStep(dst: Config, src: Config, done: set<string>, r: Config, k: string)
    requires Merging(dst, src, done, r) && k in src && k !in done
    ensures Entry(r, k) == Entry(dst, k)
    ensures Merging(dst, src, done + {k}, r[k := MergeValue(Entry(r, k), src[k])])
  {
  }

  lemma MergingDone(dst: Config, src: Config, r: Config)
    requires Merging(dst, src, src.Keys, r)
    ensures r == Merge(dst, src)
  {
  }

  method MergeEntry(was: Option<Tree>, v: Tree) returns (r: Tree)
    ensures r == MergeValue(was, v)
    decreases v, 1
  {
    if v.Node? {
      var merged := MergeMap(SubMap(was), v.fields);
      r := Node(merged);
    } else {
      r := v;
    }
  }

  function StripWriteOnly(m: Config): Config {
    if "module_config" in m && m["module_config"].Node? then
      var mc := m["module_config"].fields;
      if "mqtt" in mc && mc["mqtt"].Node? then
        m["module_config" := Node(mc["mqtt" := Node(mc["mqtt"].fields - {"password"})])]
      else m
    else m
  }

  /** The device hides exactly the field the comparison ignores. */
  lemma StripIsForComparison(m: Config)
    ensures StripWriteOnly(m) == ForComparison(m)
  {
    assert PASSWORD_PATH[1..] == ["mqtt", "password"] && PASSWORD_PATH[1..][1..] == ["password"];
    if "module_config" in m && m["module_config"].Node? {
      var mc := m["module_config"].fields;
      assert RemovePath(mc, PASSWORD_PATH[1..]) ==
        if "mqtt" in mc && mc["mqtt"].Node? then mc["mqtt" := Node(RemovePath(mc["mqtt"].fields, ["password"]))]
        else mc;
      if !("mqtt" in mc && mc["mqtt"].Node?) {
        assert m["module_config" := Node(mc)] == m;
      }
    }
  }

  // ----- Write, then read back

  lemma {:induction false} MergeValueCovers(was: Option<Tree>, v: Tree)
    ensures CoveredValue(v, MergeValue(was, v))
    decreases v, 1
  {
    if v.Node? { MergeCovers(SubMap(was), v.fields); }
  }

  lemma {:induction false} MergeCovers(live: Config, d: Config)
    ensures Covered(d, Merge(live, d))
    decreases Node(d), 0
  {
    forall k | k in d ensures KeyCovered(d, k, Merge(live, d)) {
      MergeValueCovers(Entry(live, k), d[k]);
      assert k in Merge(live, d);
    }
  }

  lemma {:induction false} RemovePathCovers(live: Config, d: Config, path: seq<string>)
    requires path != []
    ensures Covered(RemovePath(d, path), RemovePath(Merge(live, d), path))
    decreases |path|, 2
  {
    var d', m' := RemovePath(d, path), RemovePath(Merge(live, d), path);
    assert forall k :: k in d' ==> k in d;
    hide RemovePath, Merge, KeyCovered;
    forall k | k in d' ensures KeyCovered(d', k, m') {
      RemovedKeyCovers(live, d, path, k);
    }
  }

  lemma {:induction false} RemovedKeyCovers(live: Config, d: Config, path: seq<string>, k: string)
    requires path != [] && k in d && k in RemovePath(d, path)
    ensures KeyCovered(RemovePath(d, path), k, RemovePath(Merge(live, d), path))
    decreases |path|, 1
  {
    var d', m, m' := RemovePath(d, path), Merge(live, d), RemovePath(Merge(live, d), path);
    var was := Entry(live, k);
    assert k in m && m[k] == MergeValue(was, d[k]);
    hide Covered, Merge;
    if k == path[0] && d[k].Node? {
      RemovedValueCovers(was, d, m, path);
    } else {
      assert d'[k] == d[k] && k in m' && (k != path[0] ==> m'[k] == m[k]);
      hide MergeValue, RemovePath;
      MergeValueCovers(was, d[k]);
    }
    assert CoveredValue(d'[k], m'[k]);
  }

  lemma {:induction false} RemovedValueCovers(was: Option<Tree>, d: Config, m: Config, path: seq<string>)
    requires path != [] && path[0] in RemovePath(d, path) && path[0] in d && d[path[0]].Node?
    requires path[0] in m && m[path[0]] == MergeValue(was, d[path[0]])
    ensures path[0] in RemovePath(m, path)
    ensures CoveredValue(RemovePath(d, path)[path[0]], RemovePath(m, path)[path[0]])
    decreases |path|, 0
  {
    hide Covered, Merge;
    RemovePathCovers(SubMap(was), d[path[0]].fields, path[1..]);
  }

  lemma {:induction false} RemovePathUnambiguous(m: Config, path: seq<string>)
    requires Unambiguous(m)
    ensures Unambiguous(RemovePath(m, path))
    decreases |path|
  {
    if |path| > 1 && path[0] in m && m[path[0]].Node? {
      RemovePathUnambiguous(m[path[0]].fields, path[1..]);
    }
  }

  /** A written configuration reads back without drift. */
  lemma WriteThenRead(live: Config, d: Config)
    ensures Covered(ForComparison(d), StripWriteOnly(Merge(live, d)))
    ensures Unambiguous(Merge(live, d)) ==> DriftPaths(ForComparison(d), StripWriteOnly(Merge(live, d))) == []
  {
    StripIsForComparison(Merge(live, d));
    RemovePathCovers(live, d, PASSWORD_PATH);
    if Unambiguous(Merge(live, d)) {
      RemovePathUnambiguous(Merge(live, d), PASSWORD_PATH);
      DriftPathsEmpty(ForComparison(d), StripWriteOnly(Merge(live, d)));
    }
  }

  /** What is left to remove below key `k`. */
  function Below(path: seq<string>, k: string): seq<string> {
    if |path| > 1 && path[0] == k then path[1..] else []
  }

  /** Wherever a declared key also stands in another spelling, in the device or in the
      declaration, the value stored there agrees. Nothing is asked below a removed path. */
  ghost predicate SpellingsAgree(live: Config, d: Config, path: seq<string>)
    decreases Node(d)
  {
    var d', m' := RemovePath(d, path), RemovePath(Merge(live, d), path);
    && (forall k, j :: k in d' && j in m' && j != k && NormKey(j) == NormKey(k) ==> SurelyValue(d'[k], m'[j]))
    && (forall k :: k in d && k in d' && d[k].Node? ==>
         SpellingsAgree(SubMap(Entry(live, k)), d[k].fields, Below(path, k)))
  }

  lemma RemovedBelow(m: Config, path: seq<string>, k: string)
    requires k in m && k in RemovePath(m, path)
    ensures RemovePath(m, path)[k] == if m[k].Node? then Node(RemovePath(m[k].fields, Below(path, k))) else m[k]
  {
    if m[k].Node? { assert RemovePath(m[k].fields, []) == m[k].fields; }
  }

  lemma SameKeyCovers(live: Config, d: Config, path: seq<string>, k: string)
    requires k in d && k in RemovePath(d, path)
    ensures var d', m' := RemovePath(d, path), RemovePath(Merge(live, d), path);
            && k in m'
            && (SurelyValue(d'[k], m'[k]) <==>
                 (d[k].Node? ==> SurelyCovered(RemovePath(d[k].fields, Below(path, k)),
                                               RemovePath(Merge(SubMap(Entry(live, k)), d[k].fields), Below(path, k)))))
  {
    var m := Merge(live, d);
    assert k in m && m[k] == MergeValue(Entry(live, k), d[k]);
    assert k in RemovePath(m, path);
    RemovedBelow(d, path, k);
    RemovedBelow(m, path, k);
  }

  lemma {:induction false} SameKeyAgrees(live: Config, d: Config, path: seq<string>, k: string)
    requires k in d && k in RemovePath(d, path)
    ensures k in RemovePath(Merge(live, d), path)
    ensures SurelyValue(RemovePath(d, path)[k], RemovePath(Merge(live, d), path)[k]) <==>
              (d[k].Node? ==> SpellingsAgree(SubMap(Entry(live, k)), d[k].fields, Below(path, k)))
    decreases d[k], 1
  {
    SameKeyCovers(live, d, path, k);
    if d[k].Node? { SpellingsExact(SubMap(Entry(live, k)), d[k].fields, Below(path, k)); }
  }

  lemma RemovedKeys(d: Config, path: seq<string>)
    ensures RemovePath(d, path).Keys <= d.Keys
  {
  }

  /** Key by key, the two readings agree. */
  lemma AllSpellings(live: Config, d: Config, path: seq<string>)
    requires RemovePath(d, path).Keys <= d.Keys
    requires forall k :: k in RemovePath(d, path) ==> k in RemovePath(Merge(live, d), path)
    requires forall k :: k in RemovePath(d, path) ==>
      (SurelyValue(RemovePath(d, path)[k], RemovePath(Merge(live, d), path)[k]) <==>
        (d[k].Node? ==> SpellingsAgree(SubMap(Entry(live, k)), d[k].fields, Below(path, k))))
    ensures SurelyCovered(RemovePath(d, path), RemovePath(Merge(live, d), path)) <==> SpellingsAgree(live, d, path)
  {
    var d', m' := RemovePath(d, path), RemovePath(Merge(live, d), path);
    SureKeyByKey(d', m');
    hide RemovePath, Merge, NormKey, SurelyValue, Below, SurelyCovered;
  }

  lemma SureKeyByKey(d: Config, m: Config)
    requires forall k :: k in d ==> k in m
    ensures SurelyCovered(d, m)
       <==> forall k, j :: k in d && j in m && NormKey(j) == NormKey(k) ==> SurelyValue(d[k], m[j])
  {
    hide NormKey, SurelyValue;
  }

  lemma {:induction false} SpellingsExact(live: Config, d: Config, path: seq<string>)
    ensures SurelyCovered(RemovePath(d, path), RemovePath(Merge(live, d), path)) <==> SpellingsAgree(live, d, path)
    decreases Node(d), 0
  {
    var d', m' := RemovePath(d, path), RemovePath(Merge(live, d), path);
    RemovedKeys(d, path);
    hide RemovePath, Merge, NormKey, SurelyValue, Below, SpellingsAgree, SurelyCovered;
    forall k | k in d'
      ensures k in m'
      ensures SurelyValue(d'[k], m'[k]) <==>
                (d[k].Node? ==> SpellingsAgree(SubMap(Entry(live, k)), d[k].fields, Below(path, k)))
    {
      SameKeyAgrees(live, d, path, k);
    }
    AllSpellings(live, d, path);
  }

  /** A written configuration is sure to read back without drift, whatever order the live
      keys are ranged over in, exactly when every other spelling of a declared key agrees. */
  lemma WriteThenReadExact(live: Config, d: Config)
    ensures AlwaysClean(ForComparison(d), StripWriteOnly(Merge(live, d))) <==> SpellingsAgree(live, d, PASSWORD_PATH)
  {
    StripIsForComparison(Merge(live, d));
    CleanIsSure(ForComparison(d), StripWriteOnly(Merge(live, d)));
    SpellingsExact(live, d, PASSWORD_PATH);
  }

  lemma {:induction false} MergeIdempotent(live: Config, d: Config)
    ensures Merge(Merge(live, d), d) == Merge(live, d)
    decreases Node(d)
  {
    var m := Merge(live, d);
    forall k | k in d ensures MergeValue(Some(m[k]), d[k]) == m[k] {
      if d[k].Node? {
        MergeIdempotent(SubMap(Entry(live, k)), d[k].fields);
      }
    }
  }

  /** The path neither is, nor runs through, nor stops inside anything `d` writes. */
  predicate Untouched(d: Config, path: seq<string>)
    requires path != []
    decreases |path|
  {
    path[0] !in d || (|path| > 1 && d[path[0]].Node? && Untouched(d[path[0]].fields, path[1..]))
  }

  lemma {:induction false} MergeFrame(live: Config, d: Config, path: seq<string>)
    requires path != [] && Untouched(d, path)
    ensures At(Merge(live, d), path) == At(live, path)
    decreases |path|
  {
    if path[0] in d {
      MergeFrame(SubMap(Entry(live, path[0])), d[path[0]].fields, path[1..]);
    }
  }

  lemma {:induction false} MergeWrites(live: Config, d: Config, path: seq<string>)
    requires path != [] && At(d, path).Some? && !At(d, path).value.Node?
    ensures At(Merge(live, d), path) == At(d, path)
    decreases |path|
  {
    if |path| > 1 {
      MergeWrites(SubMap(Entry(live, path[0])), d[path[0]].fields, path[1..]);
    }
  }

  /** A tree that writes the MQTT section as a map, and a password only as text. */
  predicate KeepsPasswordShape(d: Config) {
    "module_config" in d ==>
      && d["module_config"].Node?
      && ("mqtt" in d["module_config"].fields ==>
        && d["module_config"].fields["mqtt"].Node?
        && ("password" in d["module_config"].fields["mqtt"].fields ==> Password(d) != ""))
  }

  /** A write either sets the password it declares or, when it declares none, leaves it. */
  lemma MergePassword(live: Config, d: Config)
    ensures Password(d) != "" ==> Password(Merge(live, d)) == Password(d)
    ensures Password(d) == "" && KeepsPasswordShape(d) ==> Password(Merge(live, d)) == Password(live)
  {
    if Password(d) != "" {
      MergeWrites(live, d, PASSWORD_PATH);
    } else if KeepsPasswordShape(d) {
      assert PASSWORD_PATH[1..] == ["mqtt", "password"] && PASSWORD_PATH[1..][1..] == ["password"];
      assert Untouched(d, PASSWORD_PATH);
      MergeFrame(live, d, PASSWORD_PATH);
    }
  }
}
