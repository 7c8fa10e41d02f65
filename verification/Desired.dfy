/** From a node spec and its Secrets to what the convergence step compares and writes
  (internal/config/desired.go, and the channel half of the controller). */
module Desired {
  import opened Text
  import opened ConfigTree
  import opened ConfigDrift
  import opened ConfigMerge
  import opened Channels
  import opened Device
  import opened Reconcile
  import opened Convergence

  datatype Owner = Owner(longName: string, shortName: string)

  datatype MqttSpec = MqttSpec(enabled: bool, address: string, username: string, encryptionEnabled: bool,
                               jsonEnabled: bool, tlsEnabled: bool, root: string)

  datatype SecretRef = SecretRef(name: string, key: string)

  datatype ChannelSpec = ChannelSpec(index: int, name: string, psk: Option<SecretRef>, uplink: bool, downlink: bool)

  datatype NodeSpec = NodeSpec(connection: string, region: string, modemPreset: string, role: string,
                               owner: Option<Owner>, channels: seq<ChannelSpec>, mqtt: Option<MqttSpec>)

  const LORA := ["config", "lora"]
  const DEVICE := ["config", "device"]

  // ----- setPath

  function SetPath(root: Config, path: seq<string>, key: string, value: Tree): Config
    decreases |path|
  {
    if path == [] then root[key := value]
    else root[path[0] := Node(SetPath(SubMap(Entry(root, path[0])), path[1..], key, value))]
  }

  lemma AtReplaced(root: Config, head: string, sub: Config, q: seq<string>)
    requires q != []
    ensures At(root[head := Node(sub)], q) ==
      if q[0] != head then At(root, q) else if |q| == 1 then Some(Node(sub)) else At(sub, q[1..])
  {
  }

  lemma AtBelow(root: Config, q: seq<string>)
    requires |q| > 1
    ensures At(root, q) == At(SubMap(Entry(root, q[0])), q[1..])
  {
  }

  lemma PrefixTail(p: seq<string>, q: seq<string>)
    requires p != [] && q != [] && p[0] == q[0]
    ensures p <= q <==> p[1..] <= q[1..]
  {
    assert p == [p[0]] + p[1..] && q == [q[0]] + q[1..];
  }

  lemma PrefixOfOne(q: seq<string>, p: seq<string>)
    requires |q| == 1 && p != [] && p[0] == q[0]
    ensures q <= p
  {
  }

  /** setPath writes the value it is given at its path, and nothing else that the tree
      already had is lost unless it stood in the way. */
  lemma {:induction false} SetPathWrites(root: Config, path: seq<string>, key: string, value: Tree, q: seq<string>)
    requires q != []
    ensures At(SetPath(root, path, key, value), path + [key]) == Some(value)
    ensures !(path + [key] <= q) && !(q <= path + [key]) ==> At(SetPath(root, path, key, value), q) == At(root, q)
    decreases |path|
  {
    var full := path + [key];
    if path == [] {
      assert [key] <= q <==> q[0] == key;
    } else {
      var sub, rest := SubMap(Entry(root, path[0])), if |q| == 1 then [key] else q[1..];
      SetPathWrites(sub, path[1..], key, value, rest);
      var sub' := SetPath(sub, path[1..], key, value);
      assert SetPath(root, path, key, value) == root[path[0] := Node(sub')];
      assert full[1..] == path[1..] + [key] && full[0] == path[0];
      hide *;
      AtReplaced(root, path[0], sub', full);
      AtReplaced(root, path[0], sub', q);
      if q[0] == path[0] {
        PrefixTail(full, q);
        PrefixTail(q, full);
        if |q| > 1 { AtBelow(root, q); } else { PrefixOfOne(q, full); }
      }
    }
  }

  // ----- What a spec declares, section by section

  function Put(m: Config, c: bool, k: string, v: Tree): Config { if c then m[k := v] else m }

  function LoraSection(spec: NodeSpec): Config {
    Put(Put(Put(map[], spec.region != "", "region", Scalar(spec.region)),
            spec.modemPreset != "", "modemPreset", Scalar(spec.modemPreset)),
        spec.modemPreset != "", "usePreset", Scalar("true"))
  }

  function ConfigSection(spec: NodeSpec): Config {
    Put(Put(map[], spec.region != "" || spec.modemPreset != "", "lora", Node(LoraSection(spec))),
        spec.role != "", "device", Node(map["role" := Scalar(spec.role)]))
  }

  function OwnerSection(owner: Option<Owner>, base: Config): Config {
    if owner.None? then base
    else Put(Put(base, owner.value.longName != "", "owner", Scalar(owner.value.longName)),
             owner.value.shortName != "", "owner_short", Scalar(owner.value.shortName))
  }

  /** The section without its password. */
  function MqttFlags(m: MqttSpec, address: string): Config {
    var enabled := map["enabled" := Scalar(Bool(m.enabled))];
    if !m.enabled then enabled
    else
      var addressed := Put(enabled, address != "", "address", Scalar(address));
      var flagged := addressed["json_enabled" := Scalar(Bool(m.jsonEnabled))]
                              ["encryption_enabled" := Scalar(Bool(m.encryptionEnabled))]
                              ["tls_enabled" := Scalar(Bool(m.tlsEnabled))];
      Put(Put(flagged, m.root != "", "root", Scalar(m.root)), m.username != "", "username", Scalar(m.username))
  }

  function MqttSection(m: MqttSpec, address: string, password: string): Config {
    Put(MqttFlags(m, address), m.enabled && password != "", "password", Scalar(password))
  }

  function RadioSection(spec: NodeSpec): Config {
    Put(map[], spec.region != "" || spec.modemPreset != "" || spec.role != "", "config", Node(ConfigSection(spec)))
  }

  function DesiredConfig(spec: NodeSpec, address: string, password: string): Config {
    var base := OwnerSection(spec.owner, RadioSection(spec));
    if spec.mqtt.None? then base
    else base["module_config" := Node(map["mqtt" := Node(MqttSection(spec.mqtt.value, address, password))])]
  }

  /** BuildDesired: the sections filled in place, one field at a time. */
  method BuildDesired(spec: NodeSpec, address: string, password: string) returns (desired: Config)
    ensures desired == DesiredConfig(spec, address, password)
  {
    hide RadioSection, MqttSection, OwnerSection;
    desired := BuildRadio(spec);
    desired := BuildOwner(spec.owner, desired);
    if spec.mqtt.Some? {
      var mqtt := BuildMqtt(spec.mqtt.value, address, password);
      desired := desired["module_config" := Node(map["mqtt" := Node(mqtt)])];
    }
  }

  method BuildRadio(spec: NodeSpec) returns (desired: Config)
    ensures desired == RadioSection(spec)
  {
    hide SetPath;
    desired := map[];
    ghost var lora: Config := map[];
    if spec.region != "" {
      desired := SetPath(desired, LORA, "region", Scalar(spec.region));
      SetUnder(map[], LORA, map[], "region", Scalar(spec.region));
      lora := lora["region" := Scalar(spec.region)];
    }
    if spec.modemPreset != "" {
      SetUnder(desired, LORA, lora, "modemPreset", Scalar(spec.modemPreset));
      desired := SetPath(desired, LORA, "modemPreset", Scalar(spec.modemPreset));
      lora := lora["modemPreset" := Scalar(spec.modemPreset)];
      SetUnder(desired, LORA, lora, "usePreset", Scalar("true"));
      desired := SetPath(desired, LORA, "usePreset", Scalar("true"));
      lora := lora["usePreset" := Scalar("true")];
    }
    assert lora == LoraSection(spec);
    assert desired ==
      Put(map[], spec.region != "" || spec.modemPreset != "", "config", Node(map["lora" := Node(lora)]));
    if spec.role != "" {
      SetDevice(desired, "role", Scalar(spec.role));
      desired := SetPath(desired, DEVICE, "role", Scalar(spec.role));
    }
  }

  /** setPath into a section of an otherwise empty tree. */
  lemma SetUnder(root: Config, path: seq<string>, section: Config, key: string, value: Tree)
    requires |path| == 2
    requires root == map[path[0] := Node(map[path[1] := Node(section)])] || (root == map[] && section == map[])
    ensures SetPath(root, path, key, value) == map[path[0] := Node(map[path[1] := Node(section[key := value])])]
  {
    var sub := SubMap(Entry(root, path[0]));
    assert path[1..] == [path[1]] && path[1..][1..] == [];
    assert SubMap(Entry(sub, path[1])) == section;
    var inner := Node(section[key := value]);
    assert SetPath(sub, [path[1]], key, value) == sub[path[1] := inner];
    assert sub[path[1] := inner] == map[path[1] := inner];
    assert root[path[0] := Node(map[path[1] := inner])] == map[path[0] := Node(map[path[1] := inner])];
  }

  lemma SetDevice(root: Config, key: string, value: Tree)
    requires root == map[]
          || (root.Keys == {"config"} && root["config"].Node? && root["config"].fields.Keys == {"lora"})
    ensures SetPath(root, DEVICE, key, value) ==
      map["config" := Node(SubMap(Entry(root, "config"))["device" := Node(map[key := value])])]
  {
    var sub := SubMap(Entry(root, "config"));
    assert |"lora"| != |"device"|;
    assert "device" !in sub;
    assert DEVICE[1..] == ["device"] && DEVICE[1..][1..] == [];
    assert SetPath(sub, ["device"], key, value) == sub["device" := Node(map[key := value])];
  }

  method BuildOwner(owner: Option<Owner>, base: Config) returns (desired: Config)
    ensures desired == OwnerSection(owner, base)
  {
    desired := base;
    if owner.Some? {
      if owner.value.longName != "" {
        desired := desired["owner" := Scalar(owner.value.longName)];
      }
      if owner.value.shortName != "" {
        desired := desired["owner_short" := Scalar(owner.value.shortName)];
      }
    }
  }

  method BuildMqtt(m: MqttSpec, address: string, password: string) returns (mqtt: Config)
    ensures mqtt == MqttSection(m, address, password)
  {
    mqtt := map["enabled" := Scalar(Bool(m.enabled))];
    if m.enabled {
      if address != "" {
        mqtt := mqtt["address" := Scalar(address)];
      }
      mqtt := mqtt["json_enabled" := Scalar(Bool(m.jsonEnabled))];
      mqtt := mqtt["encryption_enabled" := Scalar(Bool(m.encryptionEnabled))];
      mqtt := mqtt["tls_enabled" := Scalar(Bool(m.tlsEnabled))];
      if m.root != "" {
        mqtt := mqtt["root" := Scalar(m.root)];
      }
      if m.username != "" {
        mqtt := mqtt["username" := Scalar(m.username)];
      }
    }
    assert mqtt == MqttFlags(m, address);
    if m.enabled && password != "" {
      mqtt := mqtt["password" := Scalar(password)];
    }
  }

  /** The shape every run relies on: no channel list, and a password only under an
      enabled MQTT section. */
  lemma DesiredShape(spec: NodeSpec, address: string, password: string)
    ensures "channels" !in DesiredConfig(spec, address, password)
    ensures KeepsPasswordShape(DesiredConfig(spec, address, password))
    ensures Password(DesiredConfig(spec, address, password)) ==
      if spec.mqtt.Some? && spec.mqtt.value.enabled then password else ""
  {
    var d := DesiredConfig(spec, address, password);
    assert PASSWORD_PATH[1..] == ["mqtt", "password"] && PASSWORD_PATH[1..][1..] == ["password"];
    TopKeys(spec, address, password);
    if spec.mqtt.Some? {
      MqttPassword(spec.mqtt.value, address, password);
      hide MqttSection;
    }
    hide OwnerSection, RadioSection;
  }

  lemma TopKeys(spec: NodeSpec, address: string, password: string)
    ensures var d := DesiredConfig(spec, address, password);
            && "channels" !in d
            && ("module_config" in d <==> spec.mqtt.Some?)
            && ("config" in d <==> "config" in RadioSection(spec))
            && ("config" in d ==> d["config"] == RadioSection(spec)["config"])
  {
    assert |"channels"| == 8 && |"config"| == 6 && |"owner"| == 5 && |"owner_short"| == 11 && |"module_config"| == 13;
    hide ConfigSection, MqttSection;
  }

  lemma MqttPassword(m: MqttSpec, address: string, password: string)
    ensures var s := MqttSection(m, address, password);
            if m.enabled && password != "" then "password" in s && s["password"] == Scalar(password)
            else "password" !in s
  {
    assert |"password"| == 8 && |"enabled"| == 7 && |"address"| == 7 && |"json_enabled"| == 12
        && |"encryption_enabled"| == 18 && |"tls_enabled"| == 11 && |"root"| == 4;
    assert "username"[0] == 'u' && "password"[0] == 'p';
    assert "password" !in MqttFlags(m, address);
  }

  function Said(c: bool, text: string): Option<string> { if c then Some(text) else None }

  /** The text a spec declares at a path, field by field; None where it declares none. */
  function Declared(spec: NodeSpec, address: string, password: string, path: seq<string>): Option<string> {
    if |path| == 1 && spec.owner.Some? then DeclaredOwner(spec.owner.value, path[0])
    else if |path| == 3 && path[0] == "config" && path[1] == "lora" then DeclaredLora(spec, path[2])
    else if |path| == 3 && path[0] == "config" && path[1] == "device" && path[2] == "role" then
      Said(spec.role != "", spec.role)
    else if |path| == 3 && path[0] == "module_config" && path[1] == "mqtt" && spec.mqtt.Some? then
      DeclaredMqtt(spec.mqtt.value, address, password, path[2])
    else None
  }

  function DeclaredOwner(o: Owner, key: string): Option<string> {
    if key == "owner" then Said(o.longName != "", o.longName)
    else if key == "owner_short" then Said(o.shortName != "", o.shortName)
    else None
  }

  function DeclaredLora(spec: NodeSpec, key: string): Option<string> {
    if key == "region" then Said(spec.region != "", spec.region)
    else if key == "modemPreset" then Said(spec.modemPreset != "", spec.modemPreset)
    else if key == "usePreset" then Said(spec.modemPreset != "", "true")
    else None
  }

  function DeclaredMqtt(m: MqttSpec, address: string, password: string, key: string): Option<string> {
    if key == "enabled" then Some(if m.enabled then "true" else "false")
    else if !m.enabled then None
    else if key == "address" then Said(address != "", address)
    else if key == "json_enabled" then Some(if m.jsonEnabled then "true" else "false")
    else if key == "encryption_enabled" then Some(if m.encryptionEnabled then "true" else "false")
    else if key == "tls_enabled" then Some(if m.tlsEnabled then "true" else "false")
    else if key == "root" then Said(m.root != "", m.root)
    else if key == "username" then Said(m.username != "", m.username)
    else if key == "password" then Said(password != "", password)
    else None
  }

  /** The text a tree holds at a path of exact keys. */
  function TextAt(m: Config, path: seq<string>): Option<string>
    requires path != []
  {
    match At(m, path)
    case Some(Scalar(text)) => Some(text)
    case _ => None
  }

  /** The section holds exactly the texts `said`, key by key. */
  ghost predicate Flat(m: Config, said: string -> Option<string>) {
    forall k :: (k in m <==> said(k).Some?) && (k in m ==> m[k] == Scalar(said(k).value))
  }

  lemma FlatText(m: Config, said: string -> Option<string>, path: seq<string>)
    requires path != [] && Flat(m, said)
    ensures TextAt(m, path) == if |path| == 1 then said(path[0]) else None
  {
  }

  lemma OneKey(m: Config, path: seq<string>)
    requires |path| == 1
    ensures TextAt(m, path) == if path[0] in m && m[path[0]].Scalar? then Some(m[path[0]].text) else None
  {
  }

  lemma Below(m: Config, path: seq<string>)
    requires |path| > 1
    ensures TextAt(m, path) ==
      if path[0] in m && m[path[0]].Node? then TextAt(m[path[0]].fields, path[1..]) else None
  {
  }

  /** The tree declares exactly what its spec does, at every path. */
  lemma DesiredExact(spec: NodeSpec, address: string, password: string, path: seq<string>)
    requires path != []
    ensures TextAt(DesiredConfig(spec, address, password), path) == Declared(spec, address, password, path)
  {
    var d, k := DesiredConfig(spec, address, password), path[0];
    TopEntry(spec, address, password, k);
    TopNames();
    hide DesiredConfig, ConfigSection, MqttSection, At, DeclaredOwner, DeclaredLora, DeclaredMqtt, TextAt;
    if |path| == 1 {
      OneKey(d, path);
    } else {
      Below(d, path);
      if k == "config" {
        ConfigExact(spec, path[1..]);
      } else if k == "module_config" && spec.mqtt.Some? {
        MqttExact(spec.mqtt.value, address, password, path[1..]);
      }
    }
  }

  lemma TopNames()
    ensures forall o: Owner :: DeclaredOwner(o, "config") == None && DeclaredOwner(o, "module_config") == None
  {
    assert |"config"| == 6 && |"owner"| == 5 && |"owner_short"| == 11 && |"module_config"| == 13;
  }

  /** The top level of a declared tree, key by key. */
  lemma TopEntry(spec: NodeSpec, address: string, password: string, k: string)
    ensures var d := DesiredConfig(spec, address, password);
      if k == "config" then
        (k in d <==> spec.region != "" || spec.modemPreset != "" || spec.role != "")
        && (k in d ==> d[k] == Node(ConfigSection(spec)))
      else if k == "module_config" then
        (k in d <==> spec.mqtt.Some?)
        && (k in d ==> d[k] == Node(map["mqtt" := Node(MqttSection(spec.mqtt.value, address, password))]))
      else
        var text := if spec.owner.Some? then DeclaredOwner(spec.owner.value, k) else None;
        (k in d <==> text.Some?) && (k in d ==> d[k] == Scalar(text.value))
  {
    assert |"config"| == 6 && |"owner"| == 5 && |"owner_short"| == 11 && |"module_config"| == 13;
    hide ConfigSection, MqttSection;
  }

  /** What a spec declares under its config section. */
  function DeclaredConfig(spec: NodeSpec, path: seq<string>): Option<string> {
    if |path| == 2 && path[0] == "lora" then DeclaredLora(spec, path[1])
    else if |path| == 2 && path[0] == "device" && path[1] == "role" then Said(spec.role != "", spec.role)
    else None
  }

  lemma ConfigExact(spec: NodeSpec, path: seq<string>)
    requires path != []
    ensures TextAt(ConfigSection(spec), path) == DeclaredConfig(spec, path)
    ensures spec.region == "" && spec.modemPreset == "" && spec.role == "" ==> DeclaredConfig(spec, path) == None
  {
    var c := ConfigSection(spec);
    ConfigEntry(spec, path[0]);
    LoraFlat(spec);
    RoleFlat(spec.role);
    var lora, role := k => DeclaredLora(spec, k), k => Said(k == "role", spec.role);
    hide ConfigSection, LoraSection, At, TextAt, Flat;
    if |path| == 1 {
      OneKey(c, path);
    } else {
      Below(c, path);
      if path[0] == "lora" {
        FlatText(LoraSection(spec), lora, path[1..]);
      } else if path[0] == "device" {
        FlatText(map["role" := Scalar(spec.role)], role, path[1..]);
      }
    }
  }

  lemma ConfigEntry(spec: NodeSpec, k: string)
    ensures var c := ConfigSection(spec);
      if k == "lora" then
        (k in c <==> spec.region != "" || spec.modemPreset != "") && (k in c ==> c[k] == Node(LoraSection(spec)))
      else if k == "device" then
        (k in c <==> spec.role != "") && (k in c ==> c[k] == Node(map["role" := Scalar(spec.role)]))
      else k !in c
  {
    assert |"lora"| == 4 && |"device"| == 6;
    hide LoraSection;
  }

  lemma LoraFlat(spec: NodeSpec)
    ensures Flat(LoraSection(spec), k => DeclaredLora(spec, k))
  {
    assert |"region"| == 6 && |"modemPreset"| == 11 && |"usePreset"| == 9;
  }

  lemma RoleFlat(role: string)
    ensures Flat(map["role" := Scalar(role)], k => Said(k == "role", role))
  {
  }

  lemma PasswordApart(m: MqttSpec, address: string, password: string)
    ensures DeclaredMqtt(m, address, password, "password") == Said(m.enabled && password != "", password)
    ensures forall k :: k != "password" ==> DeclaredMqtt(m, address, password, k) == DeclaredMqtt(m, address, "", k)
  {
    assert |"enabled"| == 7 && |"address"| == 7 && |"json_enabled"| == 12 && |"encryption_enabled"| == 18
        && |"tls_enabled"| == 11 && |"root"| == 4 && |"username"| == 8 && |"password"| == 8;
    assert "username"[0] == 'u' && "password"[0] == 'p';
  }

  lemma FlagsKey(m: MqttSpec, address: string, k: string)
    ensures var s, text := MqttFlags(m, address), DeclaredMqtt(m, address, "", k);
            (k in s <==> text.Some?) && (k in s ==> s[k] == Scalar(text.value))
  {
    assert |"enabled"| == 7 && |"address"| == 7 && |"json_enabled"| == 12 && |"encryption_enabled"| == 18
        && |"tls_enabled"| == 11 && |"root"| == 4 && |"username"| == 8 && |"password"| == 8;
    assert "enabled"[0] == 'e' && "address"[0] == 'a' && "username"[0] == 'u' && "password"[0] == 'p';
  }

  lemma MqttKey(m: MqttSpec, address: string, password: string, k: string)
    ensures var s, text := MqttSection(m, address, password), DeclaredMqtt(m, address, password, k);
            (k in s <==> text.Some?) && (k in s ==> s[k] == Scalar(text.value))
  {
    FlagsKey(m, address, k);
    PasswordApart(m, address, password);
    PasswordApart(m, address, "");
    hide MqttFlags, DeclaredMqtt;
  }

  lemma MqttFlat(m: MqttSpec, address: string, password: string)
    ensures Flat(MqttSection(m, address, password), k => DeclaredMqtt(m, address, password, k))
  {
    forall k
      ensures (k in MqttSection(m, address, password) <==> DeclaredMqtt(m, address, password, k).Some?)
      ensures k in MqttSection(m, address, password) ==>
                MqttSection(m, address, password)[k] == Scalar(DeclaredMqtt(m, address, password, k).value)
    {
      MqttKey(m, address, password, k);
    }
    hide MqttSection, DeclaredMqtt;
  }

  lemma MqttExact(m: MqttSpec, address: string, password: string, path: seq<string>)
    requires path != []
    ensures TextAt(map["mqtt" := Node(MqttSection(m, address, password))], path) ==
      if |path| == 2 && path[0] == "mqtt" then DeclaredMqtt(m, address, password, path[1]) else None
  {
    var section, module_ := MqttSection(m, address, password), map["mqtt" := Node(MqttSection(m, address, password))];
    MqttFlat(m, address, password);
    hide MqttSection, At, TextAt, Flat, DeclaredMqtt;
    if |path| == 1 {
      OneKey(module_, path);
    } else {
      Below(module_, path);
      if path[0] == "mqtt" { FlatText(section, k => DeclaredMqtt(m, address, password, k), path[1..]); }
    }
  }

  /** The region and preset a spec declares stand at their paths in what is compared. */
  lemma RadioDeclared(spec: NodeSpec, address: string, password: string)
    ensures var d := ForComparison(DesiredConfig(spec, address, password));
            && (spec.region != "" ==> At(d, LORA + ["region"]) == Some(Scalar(spec.region)))
            && (spec.modemPreset != "" ==> At(d, LORA + ["modemPreset"]) == Some(Scalar(spec.modemPreset)))
  {
    var d := DesiredConfig(spec, address, password);
    LoraAt(spec);
    TopKeys(spec, address, password);
    StripIsForComparison(d);
    var r, p := LORA + ["region"], LORA + ["modemPreset"];
    assert r[0] == p[0] == "config" && r[1..] == ["lora", "region"] && p[1..] == ["lora", "modemPreset"];
    assert |"config"| != |"module_config"|;
    hide ConfigSection, DesiredConfig;
    assert "config" in d ==> "config" in StripWriteOnly(d) && StripWriteOnly(d)["config"] == d["config"];
  }

  lemma LoraAt(spec: NodeSpec)
    ensures var c := ConfigSection(spec);
            && (spec.region != "" ==> At(c, ["lora", "region"]) == Some(Scalar(spec.region)))
            && (spec.modemPreset != "" ==> At(c, ["lora", "modemPreset"]) == Some(Scalar(spec.modemPreset)))
  {
    assert |"lora"| != |"device"| && |"region"| == 6 && |"modemPreset"| == 11 && |"usePreset"| == 9;
    assert ["lora", "region"][1..] == ["region"] && ["lora", "modemPreset"][1..] == ["modemPreset"];
    var c := ConfigSection(spec);
    assert spec.region != "" || spec.modemPreset != "" ==> "lora" in c && c["lora"] == Node(LoraSection(spec));
  }

  // ----- Channels and their Secrets

  datatype KeyProblem = Unreadable | NoSuchKey | Empty | BadLength

  datatype ResolvedKey = Key(key: string) | NoKey(problem: KeyProblem)

  datatype Resolution = Accepted(chans: DesiredChannels) | Rejected(index: int, problem: KeyProblem)

  /** What reading a Secret gives: nothing, no such key, or the key's bytes. */
  type SecretStore = SecretRef -> Option<Option<string>>

  /** The key to write for a channel; "" stands for the public default. */
  function ResolveKey(ch: ChannelSpec, store: SecretStore): ResolvedKey {
    if ch.psk.None? then Key("")
    else
      match store(ch.psk.value)
      case None => NoKey(Unreadable)
      case Some(None) => NoKey(NoSuchKey)
      case Some(Some(data)) =>
        if data == "" then NoKey(Empty)
        else if !ValidChannelPsk(data) then NoKey(BadLength)
        else Key(if IsDefaultPsk(data) then "" else data)
  }

  function Compared(sha: Sha, ch: ChannelSpec, key: string): ChannelState {
    ChannelState(ch.index, ch.name, PskHash(sha, if key == "" then DEFAULT_PSK else key), ch.uplink, ch.downlink)
  }

  function Written(ch: ChannelSpec, key: string): ChannelWrite {
    ChannelWrite(ch.index, ch.name, key, ch.uplink, ch.downlink)
  }

  function ResolveChannels(sha: Sha, channels: seq<ChannelSpec>, store: SecretStore): Resolution {
    if channels == [] then Accepted(DesiredChannels([], []))
    else
      match ResolveChannels(sha, channels[..|channels| - 1], store)
      case Rejected(i, p) => Rejected(i, p)
      case Accepted(before) =>
        var last := channels[|channels| - 1];
        match ResolveKey(last, store)
        case NoKey(p) => Rejected(last.index, p)
        case Key(key) =>
          Accepted(DesiredChannels(before.compare + [Compared(sha, last, key)], before.write + [Written(last, key)]))
  }

  method BuildDesiredChannels(sha: Sha, channels: seq<ChannelSpec>, store: SecretStore) returns (r: Resolution)
    ensures r == ResolveChannels(sha, channels, store)
  {
    hide ResolveKey, Compared, Written;
    var out := DesiredChannels([], []);
    for i := 0 to |channels|
      invariant ResolveChannels(sha, channels[..i], store) == Accepted(out)
    {
      assert channels[..i + 1][..i] == channels[..i];
      var ch := channels[i];
      var key := ResolveKey(ch, store);
      if key.NoKey? {
        RejectionStays(sha, channels, store, i + 1);
        return Rejected(ch.index, key.problem);
      }
      out := DesiredChannels(out.compare + [Compared(sha, ch, key.key)], out.write + [Written(ch, key.key)]);
    }
    assert channels[..|channels|] == channels;
    r := Accepted(out);
  }

  lemma {:induction false} RejectionStays(sha: Sha, channels: seq<ChannelSpec>, store: SecretStore, n: nat)
    requires n <= |channels| && ResolveChannels(sha, channels[..n], store).Rejected?
    ensures ResolveChannels(sha, channels, store) == ResolveChannels(sha, channels[..n], store)
    decreases |channels|
  {
    if n < |channels| {
      assert channels[..|channels| - 1][..n] == channels[..n];
      RejectionStays(sha, channels[..|channels| - 1], store, n);
    } else {
      assert channels[..n] == channels;
    }
  }

  /** Accepted channels pair up with the declared ones, and no declared key is silently
      replaced: the public default is written exactly for a channel without a key or one
      whose Secret holds the public default. */
  lemma {:induction false} ResolvedChannels(sha: Sha, channels: seq<ChannelSpec>, store: SecretStore)
    requires ResolveChannels(sha, channels, store).Accepted?
    ensures var chans := ResolveChannels(sha, channels, store).chans;
            && |chans.compare| == |chans.write| == |channels|
            && forall i :: 0 <= i < |channels| ==>
                 && ResolveKey(channels[i], store).Key?
                 && chans.compare[i] == Compared(sha, channels[i], ResolveKey(channels[i], store).key)
                 && chans.write[i] == Written(channels[i], ResolveKey(channels[i], store).key)
  {
    hide ResolveKey, Compared, Written;
    if channels != [] {
      var init := channels[..|channels| - 1];
      ResolvedChannels(sha, init, store);
      assert forall i :: 0 <= i < |init| ==> init[i] == channels[i];
    }
  }

  lemma NoSilentDowngrade(ch: ChannelSpec, store: SecretStore)
    requires ResolveKey(ch, store).Key?
    ensures ResolveKey(ch, store).key == "" <==>
      ch.psk.None? || (exists data :: store(ch.psk.value) == Some(Some(data)) && IsDefaultPsk(data))
  {
    if ch.psk.Some? {
      assert store(ch.psk.value).Some? && store(ch.psk.value).value.Some?;
      assert store(ch.psk.value) == Some(Some(store(ch.psk.value).value.value));
    }
  }

  /** Every declared channel, Secret by Secret: which key is refused and why, and otherwise
      what is compared and what is written, with the public default for no Secret and for
      one that holds the default in either form. */
  lemma ChannelExact(sha: Sha, ch: ChannelSpec, store: SecretStore)
    ensures ch.psk.None? ==>
      && ResolveKey(ch, store) == Key("")
      && Compared(sha, ch, "") == ChannelState(ch.index, ch.name, sha(['\U{01}']), ch.uplink, ch.downlink)
      && Written(ch, "") == ChannelWrite(ch.index, ch.name, "", ch.uplink, ch.downlink)
    ensures ch.psk.Some? && store(ch.psk.value).None? ==> ResolveKey(ch, store) == NoKey(Unreadable)
    ensures ch.psk.Some? && store(ch.psk.value) == Some(None) ==> ResolveKey(ch, store) == NoKey(NoSuchKey)
    ensures forall data :: ch.psk.Some? && store(ch.psk.value) == Some(Some(data)) ==>
      if data == "" then ResolveKey(ch, store) == NoKey(Empty)
      else if data == ['\U{01}'] || data == EXPANDED_DEFAULT_PSK then ResolveKey(ch, store) == Key("")
      else if |data| != 16 && |data| != 32 then ResolveKey(ch, store) == NoKey(BadLength)
      else
        && ResolveKey(ch, store) == Key(data)
        && Compared(sha, ch, data) == ChannelState(ch.index, ch.name, sha(data), ch.uplink, ch.downlink)
        && Written(ch, data) == ChannelWrite(ch.index, ch.name, data, ch.uplink, ch.downlink)
  {
    assert |EXPANDED_DEFAULT_PSK| == 16;
  }

  /** Channel `k` is the first whose Secret cannot be used. */
  predicate FirstRefused(channels: seq<ChannelSpec>, store: SecretStore, k: int, index: int, problem: KeyProblem) {
    && 0 <= k < |channels| && channels[k].index == index && ResolveKey(channels[k], store) == NoKey(problem)
    && forall j :: 0 <= j < k ==> ResolveKey(channels[j], store).Key?
  }

  /** A set is rejected for the first channel whose Secret cannot be used. */
  lemma {:induction false} RejectedExact(sha: Sha, channels: seq<ChannelSpec>, store: SecretStore, index: int,
                                         problem: KeyProblem)
    ensures ResolveChannels(sha, channels, store) == Rejected(index, problem) <==>
              exists k :: FirstRefused(channels, store, k, index, problem)
  {
    if channels != [] {
      var n := |channels| - 1;
      RejectedExact(sha, channels[..n], store, index, problem);
      LastChannel(sha, channels, store);
      AllUsable(sha, channels[..n], store);
      hide *;
      RefusedStep(channels, store, n, index, problem);
      if k :| FirstRefused(channels[..n], store, k, index, problem) {
        RefusedStep(channels, store, k, index, problem);
      }
      if k :| FirstRefused(channels, store, k, index, problem) {
        RefusedStep(channels, store, k, index, problem);
      }
    }
  }

  lemma LastChannel(sha: Sha, channels: seq<ChannelSpec>, store: SecretStore)
    requires channels != []
    ensures var n, before := |channels| - 1, ResolveChannels(sha, channels[..|channels| - 1], store);
      var r := ResolveChannels(sha, channels, store);
      if before.Rejected? then r == before
      else if ResolveKey(channels[n], store).NoKey? then
        r == Rejected(channels[n].index, ResolveKey(channels[n], store).problem)
      else r.Accepted?
  {
    hide ResolveKey;
  }

  lemma {:induction false} AllUsable(sha: Sha, channels: seq<ChannelSpec>, store: SecretStore)
    ensures ResolveChannels(sha, channels, store).Accepted? <==>
              forall j :: 0 <= j < |channels| ==> ResolveKey(channels[j], store).Key?
  {
    if channels != [] {
      var init := channels[..|channels| - 1];
      AllUsable(sha, init, store);
      LastChannel(sha, channels, store);
      hide ResolveChannels, ResolveKey;
      assert forall j :: 0 <= j < |init| ==> init[j] == channels[j];
    }
  }

  lemma RefusedStep(channels: seq<ChannelSpec>, store: SecretStore, k: int, index: int, problem: KeyProblem)
    requires channels != []
    ensures var n := |channels| - 1;
      FirstRefused(channels, store, k, index, problem) <==>
        if k == n then
          channels[n].index == index && ResolveKey(channels[n], store) == NoKey(problem)
          && forall j :: 0 <= j < n ==> ResolveKey(channels[..n][j], store).Key?
        else FirstRefused(channels[..n], store, k, index, problem)
  {
    hide ResolveKey;
    var init := channels[..|channels| - 1];
    assert forall j :: 0 <= j < |init| ==> init[j] == channels[j];
  }

  predicate DistinctSlots(channels: seq<ChannelSpec>) {
    forall i, j :: 0 <= i < j < |channels| ==> channels[i].index != channels[j].index
  }

  /** What the controller compares is what the device will read back after storing what
      the controller writes, provided no key collides with the expanded default. */
  lemma ResolvedCoherent(sha: Sha, channels: seq<ChannelSpec>, store: SecretStore)
    requires ResolveChannels(sha, channels, store).Accepted? && DistinctSlots(channels)
    requires forall x :: sha(x) == sha(EXPANDED_DEFAULT_PSK) ==> x == EXPANDED_DEFAULT_PSK
    ensures Coherent(sha, ResolveChannels(sha, channels, store).chans)
  {
    ResolvedChannels(sha, channels, store);
    var chans := ResolveChannels(sha, channels, store).chans;
    forall i | 0 <= i < |channels| ensures chans.compare[i] == Readback(sha, StoredChannel(sha, chans.write[i])) {
      CoherentChannel(sha, channels[i], store);
    }
    hide Compared, ResolveKey;
  }

  lemma CoherentChannel(sha: Sha, ch: ChannelSpec, store: SecretStore)
    requires ResolveKey(ch, store).Key?
    requires forall x :: sha(x) == sha(EXPANDED_DEFAULT_PSK) ==> x == EXPANDED_DEFAULT_PSK
    ensures var key := ResolveKey(ch, store).key;
            Compared(sha, ch, key) == Readback(sha, StoredChannel(sha, Written(ch, key)))
  {
    var key := ResolveKey(ch, store).key;
    assert |EXPANDED_DEFAULT_PSK| == 16 && |DEFAULT_PSK| == 1;
    assert key != "" ==> !IsDefaultPsk(key);
  }

  // ----- From a spec to its device

  /** A live tree holds a text at a path: keys in any spelling, and white space around
      the text on either side. */
  ghost predicate Holds(live: Config, path: seq<string>, text: string)
    requires path != []
    decreases |path|
  {
    exists m :: m in live && SameSpelling(m, path[0])
      && (if |path| == 1 then !live[m].Node? && SameButSpace(Sprint(live[m]), text)
          else live[m].Node? && Holds(live[m].fields, path[1..], text))
  }

  ghost predicate SameButSpace(a: string, b: string) {
    exists t, w, x, y, z :: Around(a, w, t, x) && Around(b, y, t, z)
  }

  /** A live tree holds this very name at a path, with at most white space around it. */
  ghost predicate HoldsName(live: Config, path: seq<string>, name: string)
    requires path != []
    decreases |path|
  {
    exists m :: m in live && SameSpelling(m, path[0])
      && (if |path| == 1 then !live[m].Node? && IsJust(Sprint(live[m]), name)
          else live[m].Node? && HoldsName(live[m].fields, path[1..], name))
  }

  /** The name with white space around it, and nothing else if it is a name itself. */
  ghost predicate IsJust(s: string, name: string) {
    (exists before, after :: Around(s, before, name, after)) && (IsName(s) ==> s == name)
  }

  lemma JustTheName(s: string, name: string)
    requires SameButSpace(s, name) && IsName(name)
    ensures IsJust(s, name)
  {
    TrimEqualExact(s, name);
    NamesAreTight(name);
    if IsName(s) { NamesAreTight(s); }
    var before, after := TrimCuts(s);
    hide TrimSpace, IsName, IsSpace;
    assert Around(s, before, name, after);
  }

  lemma {:induction false} NameHeld(live: Config, path: seq<string>, name: string)
    requires path != [] && Holds(live, path, name) && IsName(name)
    ensures HoldsName(live, path, name)
    decreases |path|
  {
    hide IsName, SameButSpace, IsJust, SameSpelling;
    var m :| m in live && SameSpelling(m, path[0])
      && (if |path| == 1 then !live[m].Node? && SameButSpace(Sprint(live[m]), name)
          else live[m].Node? && Holds(live[m].fields, path[1..], name));
    if |path| == 1 {
      JustTheName(Sprint(live[m]), name);
    } else {
      NameHeld(live[m].fields, path[1..], name);
    }
  }

  lemma {:induction false} CoveredHolds(d: Config, l: Config, path: seq<string>, text: string)
    requires path != [] && Covered(d, l) && At(d, path) == Some(Scalar(text))
    ensures Holds(l, path, text)
    decreases |path|
  {
    assert KeyCovered(d, path[0], l);
    var m :| m in l && NormKey(m) == NormKey(path[0]) && CoveredValue(d[path[0]], l[m]);
    NormKeyExact(m, path[0]);
    if |path| == 1 {
      TrimEqualExact(Sprint(l[m]), text);
    } else {
      CoveredHolds(d[path[0]].fields, l[m].fields, path[1..], text);
    }
    hide NormKey, SameSpelling, Around, TrimSpace;
  }

  lemma TopKeySet(spec: NodeSpec, address: string, password: string)
    ensures DesiredConfig(spec, address, password).Keys <= {"config", "owner", "owner_short", "module_config"}
  {
    hide ConfigSection, MqttSection;
  }

  lemma NoChannelsSpelling()
    ensures NormKey("config") != NormKey("channels") && NormKey("owner") != NormKey("channels")
    ensures NormKey("owner_short") != NormKey("channels") && NormKey("module_config") != NormKey("channels")
  {
    hide NormKey;
    assert "config" == "c" + "onfig" && "channels" == "c" + "hannels";
    NormKeyParts("c", "onfig", "hannels");
    assert "" + "owner" == "owner" && "" + "channels" == "channels" && "" + "owner_short" == "owner_short"
        && "" + "module_config" == "module_config";
    NormKeyParts("", "owner", "channels");
    NormKeyParts("", "owner_short", "channels");
    NormKeyParts("", "module_config", "channels");
  }

  lemma SpecNamesNoChannels(spec: NodeSpec, address: string, password: string)
    ensures NamesNoChannels(DesiredConfig(spec, address, password))
  {
    hide NormKey, DesiredConfig;
    TopKeySet(spec, address, password);
    NoChannelsSpelling();
  }

  // ----- No two declared keys of one level share a normal form

  /** Keys whose normal forms are all different. */
  ghost predicate Apart(keys: set<string>) {
    forall a, b :: a in keys && b in keys && NormKey(a) == NormKey(b) ==> a == b
  }

  lemma TopApart()
    ensures Apart({"config", "owner", "owner_short", "module_config"})
  {
    hide NormKey;
    NormKeyHead("config");
    NormKeyHead("owner");
    NormKeyHead("owner_short");
    NormKeyHead("module_config");
    assert "owner_short" == "owner" + "_short" && "_short"[1..] == "short";
    NormKeyConcat("owner", "_short");
    ShortTail();
  }

  lemma ShortTail()
    ensures NormKey("_short") != ""
  {
    assert "_short"[1..] == "short";
    NormKeyHead("short");
  }

  lemma RadioApart()
    ensures Apart({"lora", "device"}) && Apart({"region", "modemPreset", "usePreset"})
  {
    hide NormKey;
    NormKeyHead("lora");
    NormKeyHead("device");
    NormKeyHead("region");
    NormKeyHead("modemPreset");
    NormKeyHead("usePreset");
  }

  const MQTT_KEYS :=
      {"enabled", "address", "json_enabled", "encryption_enabled", "tls_enabled", "root", "username", "password"}

  lemma MqttApart()
    ensures Apart(MQTT_KEYS)
  {
    hide NormKey;
    NormKeyHead("enabled");
    NormKeyHead("address");
    NormKeyHead("json_enabled");
    NormKeyHead("encryption_enabled");
    NormKeyHead("tls_enabled");
    NormKeyHead("root");
    NormKeyHead("username");
    NormKeyHead("password");
    assert "enabled" == "en" + "abled" && "encryption_enabled" == "en" + "cryption_enabled";
    NormKeyParts("en", "abled", "cryption_enabled");
  }

  lemma MqttKeySet(m: MqttSpec, address: string, password: string)
    ensures MqttSection(m, address, password).Keys <= MQTT_KEYS
    ensures forall k :: k in MqttSection(m, address, password) ==> MqttSection(m, address, password)[k].Scalar?
  {
    forall k | k in MqttSection(m, address, password)
      ensures k in MQTT_KEYS && MqttSection(m, address, password)[k].Scalar?
    {
      MqttKey(m, address, password, k);
    }
  }

  lemma FlatUnambiguous(c: Config, keys: set<string>)
    requires Apart(keys) && c.Keys <= keys && forall k :: k in c ==> !c[k].Node?
    ensures Unambiguous(c)
  {
    hide NormKey;
  }

  lemma RadioUnambiguous(spec: NodeSpec)
    ensures Unambiguous(ConfigSection(spec))
  {
    RadioApart();
    var c := ConfigSection(spec);
    assert c.Keys <= {"lora", "device"};
    FlatUnambiguous(LoraSection(spec), {"region", "modemPreset", "usePreset"});
    FlatUnambiguous(map["role" := Scalar(spec.role)], {"role"});
    hide NormKey, LoraSection;
    forall k | k in c && c[k].Node? ensures Unambiguous(c[k].fields) {
      assert c[k] == Node(LoraSection(spec)) || c[k] == Node(map["role" := Scalar(spec.role)]);
    }
  }

  lemma MqttUnambiguous(m: MqttSpec, address: string, password: string)
    ensures Unambiguous(map["mqtt" := Node(MqttSection(m, address, password))])
  {
    MqttApart();
    MqttKeySet(m, address, password);
    FlatUnambiguous(MqttSection(m, address, password), MQTT_KEYS);
    hide NormKey, MqttSection;
  }

  /** What BuildDesired emits never collides with itself. */
  lemma SpecUnambiguous(spec: NodeSpec, address: string, password: string)
    ensures Unambiguous(DesiredConfig(spec, address, password))
  {
    var d := DesiredConfig(spec, address, password);
    TopApart();
    TopKeySet(spec, address, password);
    RadioUnambiguous(spec);
    if spec.mqtt.Some? { MqttUnambiguous(spec.mqtt.value, address, password); }
    forall k | k in d && d[k].Node? ensures Unambiguous(d[k].fields) {
      TopNodes(spec, address, password, k);
    }
    hide DesiredConfig, NormKey;
  }

  lemma TopNodes(spec: NodeSpec, address: string, password: string, k: string)
    requires k in DesiredConfig(spec, address, password) && DesiredConfig(spec, address, password)[k].Node?
    ensures var v := DesiredConfig(spec, address, password)[k];
            || v == Node(ConfigSection(spec))
            || (spec.mqtt.Some? && v == Node(map["mqtt" := Node(MqttSection(spec.mqtt.value, address, password))]))
  {
    hide ConfigSection, MqttSection;
  }

  /** An export that covers what is compared holds every declared field but the password. */
  lemma DeclaredIsHeld(spec: NodeSpec, address: string, password: string, live: Config)
    requires Covered(ForComparison(DesiredConfig(spec, address, password)), live)
    ensures forall path, text :: path != [] && Declared(spec, address, "", path) == Some(text) ==>
              Holds(live, path, text)
  {
    ComparisonIgnoresPassword(spec, address, password);
    hide DesiredConfig, ForComparison, Covered, Declared, Holds;
    forall path, text | path != [] && Declared(spec, address, "", path) == Some(text)
      ensures Holds(live, path, text)
    {
      DesiredExact(spec, address, "", path);
      CoveredHolds(DesiredConfig(spec, address, ""), live, path, text);
    }
  }

  /** For what the operator declares, the comparison may find nothing exactly when the live
      tree covers it. */
  lemma SpecMayBeClean(spec: NodeSpec, address: string, password: string, l: Config)
    ensures var d := ForComparison(DesiredConfig(spec, address, password)); Covered(d, l) <==> MayBeClean(d, l)
  {
    ComparisonIgnoresPassword(spec, address, password);
    SpecUnambiguous(spec, address, "");
    hide DesiredConfig, ForComparison, Unambiguous, Covered, MayBeClean;
    CoveredIsMaybe(DesiredConfig(spec, address, ""), l);
  }

  /** Bounded convergence for a node spec whose channels' Secrets resolve: whatever order
      colliding keys are ranged over in, the loop is Ready in time and stays Ready if and
      only if the comparison does not hang on that order. */
  lemma SpecConvergesExactly(sha: Sha, spec: NodeSpec, address: string, password: string, store: SecretStore,
                             drift: (nat, Config) -> seq<string>, w: Convergence.World)
    requires ResolveChannels(sha, spec.channels, store).Accepted? && DistinctSlots(spec.channels)
    requires forall x :: sha(x) == sha(EXPANDED_DEFAULT_PSK) ==> x == EXPANDED_DEFAULT_PSK
    requires "channels" in w.device.config ==> w.device.config["channels"].ChannelList?
    requires w.device.nodeId != "" && w.prior.applyAttempts <= 3
    ensures var g := GoalOf(sha, spec, address, password, store, drift); SettlesInTime(g, w) <==> Decisive(g, w)
  {
    SpecNamesNoChannels(spec, address, password);
    ResolvedCoherent(sha, spec.channels, store);
    hide DesiredConfig, ResolveChannels, Decisive, NamesNoChannels, Coherent, SettlesInTime;
    ConvergesExactly(GoalOf(sha, spec, address, password, store, drift), w);
  }

  function GoalOf(sha: Sha, spec: NodeSpec, address: string, password: string, store: SecretStore,
                  drift: (nat, Config) -> seq<string>): Goal
    requires ResolveChannels(sha, spec.channels, store).Accepted?
  {
    Goal(sha, DesiredConfig(spec, address, password), ResolveChannels(sha, spec.channels, store).chans, drift)
  }

  // ----- A stale spelling on the device

  const MQTT := ["module_config", "mqtt"]

  predicate Enabled(spec: NodeSpec) { spec.mqtt.Some? && spec.mqtt.value.enabled }

  lemma JsonSpellings()
    ensures NormKey("json_enabled") == NormKey("jsonEnabled")
  {
    hide NormKey;
    assert "json_enabled" == "json" + (['_', 'e'] + "nabled") && "jsonEnabled" == "json" + (['E'] + "nabled");
    NormKeySpelling("json", 'e', 'E', "nabled");
  }

  /** The MQTT section of a declared tree, key by key. */
  lemma MqttAt(spec: NodeSpec, address: string, password: string, k: string)
    requires spec.mqtt.Some?
    ensures var d, section := DesiredConfig(spec, address, password), MqttSection(spec.mqtt.value, address, password);
            if k in section then At(d, MQTT + [k]) == Some(section[k])
            else At(d, MQTT + [k]) == None && Untouched(d, MQTT + [k])
  {
    var d, section := DesiredConfig(spec, address, password), MqttSection(spec.mqtt.value, address, password);
    var path, mc := MQTT + [k], map["mqtt" := Node(section)];
    assert d["module_config"] == Node(mc);
    hide DesiredConfig, MqttSection;
    assert path[0] == "module_config" && path[1..] == ["mqtt", k] && path[1..][1..] == [k];
    assert At(d, path) == At(mc, ["mqtt", k]) == At(section, [k]);
    assert Untouched(d, path) == Untouched(mc, ["mqtt", k]) == Untouched(section, [k]);
  }

  /** The flag is declared in one spelling only. */
  lemma JsonSection(m: MqttSpec, address: string, password: string)
    requires m.enabled
    ensures var s := MqttSection(m, address, password);
            && "json_enabled" in s && s["json_enabled"] == Scalar(Bool(m.jsonEnabled)) && "jsonEnabled" !in s
  {
    MqttKey(m, address, password, "json_enabled");
    MqttKey(m, address, password, "jsonEnabled");
    assert |"json_enabled"| == 12 && |"jsonEnabled"| == 11 && |"enabled"| == 7 && |"address"| == 7
        && |"encryption_enabled"| == 18 && |"root"| == 4 && |"username"| == 8 && |"password"| == 8;
    assert |"tls_enabled"| == 11 && "tls_enabled"[0] == 't' && "jsonEnabled"[0] == 'j';
    hide MqttSection;
  }

  lemma JsonDeclared(spec: NodeSpec, address: string)
    requires Enabled(spec)
    ensures At(DesiredConfig(spec, address, ""), MQTT + ["json_enabled"])
          == Some(Scalar(Bool(spec.mqtt.value.jsonEnabled)))
  {
    hide DesiredConfig, MqttSection, At;
    JsonSection(spec.mqtt.value, address, "");
    MqttAt(spec, address, "", "json_enabled");
  }

  lemma JsonUntouched(spec: NodeSpec, address: string, password: string)
    requires Enabled(spec)
    ensures Untouched(DesiredConfig(spec, address, password), MQTT + ["jsonEnabled"])
  {
    hide DesiredConfig, MqttSection, Untouched;
    JsonSection(spec.mqtt.value, address, password);
    MqttAt(spec, address, password, "jsonEnabled");
  }

  /** The password a spec resolves to plays no part in the comparison. */
  lemma ComparisonIgnoresPassword(spec: NodeSpec, address: string, password: string)
    ensures ForComparison(DesiredConfig(spec, address, password)) == DesiredConfig(spec, address, "")
  {
    var d, bare := DesiredConfig(spec, address, password), DesiredConfig(spec, address, "");
    StripIsForComparison(d);
    TopKeys(spec, address, password);
    if spec.mqtt.Some? {
      var m := spec.mqtt.value;
      MqttPassword(m, address, "");
      assert MqttSection(m, address, password) - {"password"} == MqttSection(m, address, "");
      hide OwnerSection, RadioSection, MqttSection;
      SameButSection(d, bare, MqttSection(m, address, password), MqttSection(m, address, ""));
    }
  }

  lemma SameButSection(d: Config, bare: Config, with: Config, without: Config)
    requires "module_config" in d && d["module_config"] == Node(map["mqtt" := Node(with)])
    requires bare == d["module_config" := Node(map["mqtt" := Node(without)])] && with - {"password"} == without
    ensures StripWriteOnly(d) == bare
  {
    var mc := map["mqtt" := Node(with)];
    assert mc["mqtt" := Node(without)] == map["mqtt" := Node(without)];
  }

  /** What an export shows off the password path and beside the channel list. */
  lemma ExportedAt(config: Config, path: seq<string>)
    requires path != [] && path[0] != "channels"
    requires !(PASSWORD_PATH <= path) && !(path < PASSWORD_PATH)
    ensures At(Exported(config), path) == At(StripWriteOnly(config), path) == At(config, path)
  {
    StripIsForComparison(config);
    RemovePathAt(config, PASSWORD_PATH, path);
    hide StripWriteOnly, ForComparison;
  }

  lemma FlagsDiffer(b: bool)
    ensures !ScalarEqual(Scalar(Bool(b)), Scalar(Bool(!b)))
  {
    assert TrimSpace("true") == "true" && TrimSpace("false") == "false" && |"true"| != |"false"|;
  }

  /** A live tree that holds the opposite flag in the device's own spelling. */
  lemma OppositeIsUnclean(spec: NodeSpec, address: string, l: Config)
    requires Enabled(spec)
    requires At(l, MQTT + ["jsonEnabled"]) == Some(Scalar(Bool(!spec.mqtt.value.jsonEnabled)))
    ensures !AlwaysClean(DesiredConfig(spec, address, ""), l)
  {
    var d := DesiredConfig(spec, address, "");
    JsonSpellings();
    JsonDeclared(spec, address);
    CleanIsSure(d, l);
    FlagsDiffer(spec.mqtt.value.jsonEnabled);
    hide DesiredConfig, AlwaysClean, SurelyCovered, At, NormKey, ScalarEqual;
    if SurelyCovered(d, l) {
      SurelyAt(d, l, MQTT, "json_enabled", "jsonEnabled");
    }
  }

  /** Colliding spellings do misread: whatever else a device stores, a stale `jsonEnabled`
      survives the write of `json_enabled`, and some order of the live keys then finds
      drift in what was just written. */
  lemma CollidingKeysMayMisread(spec: NodeSpec, address: string, password: string, live: Config)
    requires Enabled(spec)
    requires At(live, MQTT + ["jsonEnabled"]) == Some(Scalar(Bool(!spec.mqtt.value.jsonEnabled)))
    ensures var d := DesiredConfig(spec, address, password);
            && !AlwaysClean(ForComparison(d), StripWriteOnly(Merge(live, d)))
            && !AlwaysClean(ForComparison(d), Exported(Merge(live, d)))
            && !AlwaysClean(ForComparison(d), Exported(live))
  {
    var d, path := DesiredConfig(spec, address, password), MQTT + ["jsonEnabled"];
    var m := Merge(live, d);
    JsonUntouched(spec, address, password);
    MergeFrame(live, d, path);
    JsonPath();
    hide DesiredConfig, Merge, Exported, StripWriteOnly, ForComparison, AlwaysClean, At, Untouched;
    ExportedAt(live, path);
    ExportedAt(m, path);
    ComparisonIgnoresPassword(spec, address, password);
    OppositeIsUnclean(spec, address, StripWriteOnly(m));
    OppositeIsUnclean(spec, address, Exported(m));
    OppositeIsUnclean(spec, address, Exported(live));
  }

  lemma JsonPath()
    ensures var path := MQTT + ["jsonEnabled"];
            path[0] != "channels" && !(PASSWORD_PATH <= path) && !(path < PASSWORD_PATH)
  {
    var path := MQTT + ["jsonEnabled"];
    assert path[0] == "module_config" && |"module_config"| != |"channels"|;
    assert path[2] == "jsonEnabled" && PASSWORD_PATH[2] == "password" && |"jsonEnabled"| != |"password"|;
  }

  /** On such a device an unlucky order keeps the loop from ever being Ready. */
  lemma StaleSpellingNeverReady(g: Goal, spec: NodeSpec, address: string, password: string, w: Convergence.World,
                                n: nat)
    requires Unlucky(g) && g.desired == DesiredConfig(spec, address, password) && w.device.nodeId != ""
    requires Enabled(spec)
    requires At(w.device.config, MQTT + ["jsonEnabled"]) == Some(Scalar(Bool(!spec.mqtt.value.jsonEnabled)))
    ensures !ReadyAt(g, w, n)
  {
    hide DesiredConfig, Exported, Merge, ForComparison, AlwaysClean, At, ReadyAt, Unlucky;
    CollidingKeysMayMisread(spec, address, password, w.device.config);
    StaleNeverReady(g, w, n);
  }

  // ----- The fingerprint of what a spec resolves to

  lemma ResolvedLineSafe(sha: Sha, channels: seq<ChannelSpec>, store: SecretStore)
    requires HexDigest(sha) && NamesFit(channels) && ResolveChannels(sha, channels, store).Accepted?
    ensures LineSafe(ResolveChannels(sha, channels, store).chans.compare, DIGEST_LENGTH)
  {
    ResolvedChannels(sha, channels, store);
    var compare := ResolveChannels(sha, channels, store).chans.compare;
    forall c | c in compare ensures SafeChannel(c, DIGEST_LENGTH) {
      var i :| 0 <= i < |compare| && compare[i] == c;
      assert channels[i] in channels;
      ComparedSafe(sha, channels[i], ResolveKey(channels[i], store).key);
    }
  }

  lemma ComparedSafe(sha: Sha, ch: ChannelSpec, key: string)
    requires HexDigest(sha) && |ch.name| <= DIGEST_LENGTH
    ensures SafeChannel(Compared(sha, ch, key), DIGEST_LENGTH)
  {
    var raw := NormalizePsk(if key == "" then DEFAULT_PSK else key);
    assert raw != "" && IsDigest(sha(raw));
  }

  predicate NamesFit(channels: seq<ChannelSpec>) { forall c :: c in channels ==> |c.name| <= DIGEST_LENGTH }

  /** What the controller hashes for a declared tree and its resolved channels. */
  function HashedText(sha: Sha, desired: Config, channels: seq<ChannelSpec>, store: SecretStore): string
    requires ResolveChannels(sha, channels, store).Accepted?
  {
    FingerprintText(WriteOnlyPasswordHash(sha, desired), ResolveChannels(sha, channels, store).chans.compare)
  }

  /** The bound hash in status changes exactly when the declared password's hash or the set
      of resolved channels does, unless the digests of two hashed texts collide. Names may
      hold any characters: the API bounds them well below the length of a digest, and that
      is enough to read the hashed text back. */
  lemma FingerprintTellsSpecsApart(sha: Sha, a: Config, ach: seq<ChannelSpec>, b: Config, bch: seq<ChannelSpec>,
                                   store: SecretStore, store': SecretStore)
    requires HexDigest(sha) && NamesFit(ach) && NamesFit(bch) && DistinctSlots(ach) && DistinctSlots(bch)
    requires ResolveChannels(sha, ach, store).Accepted? && ResolveChannels(sha, bch, store').Accepted?
    requires var x, y := HashedText(sha, a, ach, store), HashedText(sha, b, bch, store');
             sha(x) == sha(y) ==> x == y
    ensures var ca, cb :=
          ResolveChannels(sha, ach, store).chans.compare, ResolveChannels(sha, bch, store').chans.compare;
            var p, q := WriteOnlyPasswordHash(sha, a), WriteOnlyPasswordHash(sha, b);
            SecretsFingerprint(sha, p, ca) == SecretsFingerprint(sha, q, cb) <==> p == q && multiset(ca) == multiset(cb)
  {
    var ca, cb := ResolveChannels(sha, ach, store).chans.compare, ResolveChannels(sha, bch, store').chans.compare;
    ResolvedLineSafe(sha, ach, store);
    ResolvedLineSafe(sha, bch, store');
    ResolvedSlots(sha, ach, store);
    ResolvedSlots(sha, bch, store');
    PasswordHashSafe(sha, a);
    PasswordHashSafe(sha, b);
    hide ResolveChannels, WriteOnlyPasswordHash, LineSafe, DistinctIndices, FingerprintText, HexDigest;
    FingerprintFaithful(sha, WriteOnlyPasswordHash(sha, a), ca, WriteOnlyPasswordHash(sha, b), cb, DIGEST_LENGTH);
  }

  lemma ResolvedSlots(sha: Sha, channels: seq<ChannelSpec>, store: SecretStore)
    requires ResolveChannels(sha, channels, store).Accepted? && DistinctSlots(channels)
    ensures DistinctIndices(ResolveChannels(sha, channels, store).chans.compare)
  {
    ResolvedChannels(sha, channels, store);
    hide ResolveChannels, ResolveKey, PskHash;
  }

  lemma PasswordHashSafe(sha: Sha, desired: Config)
    requires HexDigest(sha)
    ensures '\0' !in WriteOnlyPasswordHash(sha, desired)
  {
    assert IsDigest(sha(Password(desired)));
    hide Password;
  }
}
