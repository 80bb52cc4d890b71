/** contents/salt_resource_model_source.py: the Rundeck resource model source
    that asks the minions for their grains and turns the answer into one
    Rundeck node per minion. */
module ResourceModel {
  import opened Results
  import opened PyValue
  import opened PyStr
  import opened Common
  import opened SaltApi

  /** The variables the source reads, with `prefixVar` as the variable of
      the node-name prefix. */
  function ItemsWith(prefixVar: string): seq<DataItem> {
    [
      DataItem("tgt", "RD_CONFIG_TGT", "str"),
      DataItem("tags", "RD_CONFIG_TAGS", "str"),
      DataItem("attributes", "RD_CONFIG_ATTRIBUTES", "str"),
      DataItem("prefix", prefixVar, "str"),
      DataItem("timeout", "RD_CONFIG_TIMEOUT", "int"),
      DataItem("gather-timeout", "RD_CONFIG_GATHER_TIMEOUT", "int"),
      DataItem("url", "RD_CONFIG_URL", "str"),
      DataItem("eauth", "RD_CONFIG_EAUTH", "str"),
      DataItem("user", "RD_CONFIG_USER", "str"),
      DataItem("password", "RD_CONFIG_PASSWORD", "str"),
      DataItem("verify_ssl", "RD_CONFIG_VERIFYSSL", "bool"),
      DataItem("log-level", "RD_JOB_LOGLEVEL", "str")
    ]
  }

  /** The list as written: the prefix is read from `RD_CONFIG_REFIX`. */
  const SourceItemsAsWritten := ItemsWith("RD_CONFIG_REFIX")

  /** The list with the variable Rundeck exports for the `prefix` property. */
  const SourceItems := ItemsWith("RD_CONFIG_PREFIX")

  /** The settings that must be truthy before the grains are asked for. */
  const SourceRequired: seq<string> := ["url", "eauth", "user", "password"]

  /** The node fields Rundeck reserves; a grain attribute of that name is renamed. */
  const ReservedKeys: set<string> := {"nodename", "hostname", "username", "description", "tags",
    "osFamily", "osArch", "osName", "osVersion", "editUrl", "remoteUrl"}

  /** The fields every node entry is built with before its attributes are added. */
  const FixedFields: set<string> := {"nodename", "osArch", "osName", "osVersion", "osFamily", "tags"}

  /** The grains always asked for. */
  const DefaultGrains: set<string> := {"id", "cpuarch", "os", "os_family", "osrelease"}

  /** The settings the source works on, as `parse_data` leaves them. */
  predicate SourceData(data: map<string, Setting>) {
    "tgt" in data && "tags" in data && "attributes" in data && "prefix" in data &&
    "timeout" in data && "gather-timeout" in data && "url" in data && "eauth" in data &&
    "user" in data && "password" in data && "verify_ssl" in data && "log-level" in data &&
    (data["tgt"].Unset? || data["tgt"].Text?) &&
    (data["tags"].Unset? || data["tags"].Text?) &&
    (data["attributes"].Unset? || data["attributes"].Text?) &&
    (data["prefix"].Unset? || data["prefix"].Text?) &&
    (data["timeout"].Unset? || data["timeout"].Number?) &&
    (data["gather-timeout"].Unset? || data["gather-timeout"].Number?)
  }

  /** A number telling the keys apart: no two keys of the list share their
      length and first letter. */
  function KeyCode(key: string): int {
    if key == [] then 0 else |key| * 128 + key[0] as int
  }

  /** No later item has the key of one of the first six. */
  lemma SourceKeysLast(prefixVar: string)
    ensures forall i :: 0 <= i < 6 ==> LastWith(ItemsWith(prefixVar), i)
  {
    var items := ItemsWith(prefixVar);
    var codes := seq(|items|, i requires 0 <= i < |items| => KeyCode(items[i].key));
    assert codes == [3 * 128 + 't' as int, 4 * 128 + 't' as int, 10 * 128 + 'a' as int, 6 * 128 + 'p' as int,
      7 * 128 + 't' as int, 14 * 128 + 'g' as int, 3 * 128 + 'u' as int, 5 * 128 + 'e' as int,
      4 * 128 + 'u' as int, 8 * 128 + 'p' as int, 10 * 128 + 'v' as int, 9 * 128 + 'l' as int];
    forall i, j | 0 <= i < 6 && i < j < |items| ensures items[j].key != items[i].key {
      assert codes[i] != codes[j];
    }
  }

  /** Whatever the environment holds, a successful `parse_data` gives
      settings of that shape. */
  lemma ParsedSourceData(prefixVar: string, env: map<string, string>, lexer: Lexer)
    requires Parsed(ItemsWith(prefixVar), env, lexer).Ok?
    ensures SourceData(Parsed(ItemsWith(prefixVar), env, lexer).value)
  {
    var items := ItemsWith(prefixVar);
    ParsedHasKeys(items, env, lexer);
    var d := Parsed(items, env, lexer).value;
    assert items[0].key in d && items[1].key in d && items[2].key in d && items[3].key in d;
    assert items[4].key in d && items[5].key in d && items[6].key in d && items[7].key in d;
    assert items[8].key in d && items[9].key in d && items[10].key in d && items[11].key in d;
    SourceKeysLast(prefixVar);
    ParsedShapedAt(items, env, lexer, 0);
    ParsedShapedAt(items, env, lexer, 1);
    ParsedShapedAt(items, env, lexer, 2);
    ParsedShapedAt(items, env, lexer, 3);
    ParsedShapedAt(items, env, lexer, 4);
    ParsedShapedAt(items, env, lexer, 5);
  }

  /** The prefix is the text of its variable, or unset when the variable is. */
  lemma ParsedPrefix(prefixVar: string, env: map<string, string>, lexer: Lexer)
    requires Parsed(ItemsWith(prefixVar), env, lexer).Ok?
    ensures "prefix" in Parsed(ItemsWith(prefixVar), env, lexer).value
    ensures Parsed(ItemsWith(prefixVar), env, lexer).value["prefix"] ==
      if prefixVar in env then Text(env[prefixVar]) else Unset
  {
    var items := ItemsWith(prefixVar);
    SourceKeysLast(prefixVar);
    ParsedShapedAt(items, env, lexer, 3);
    assert items[3] == DataItem("prefix", prefixVar, "str");
  }

  /** As written, the prefix Rundeck exports is never read: with only
      `RD_CONFIG_PREFIX` set the prefix stays unset. */
  lemma PrefixIgnoredAsWritten(env: map<string, string>, lexer: Lexer)
    requires "RD_CONFIG_PREFIX" in env && "RD_CONFIG_REFIX" !in env
    requires Parsed(SourceItemsAsWritten, env, lexer).Ok?
    ensures "prefix" in Parsed(SourceItemsAsWritten, env, lexer).value
    ensures Parsed(SourceItemsAsWritten, env, lexer).value["prefix"] == Unset
  {
    ParsedPrefix("RD_CONFIG_REFIX", env, lexer);
  }

  /** With the corrected variable the prefix is the text Rundeck exports. */
  lemma PrefixReadCorrected(env: map<string, string>, lexer: Lexer)
    requires "RD_CONFIG_PREFIX" in env
    requires Parsed(SourceItems, env, lexer).Ok?
    ensures "prefix" in Parsed(SourceItems, env, lexer).value
    ensures Parsed(SourceItems, env, lexer).value["prefix"] == Text(env["RD_CONFIG_PREFIX"])
  {
    ParsedPrefix("RD_CONFIG_PREFIX", env, lexer);
  }

  /** The target after validation: `*` when none is set. */
  function DefaultedTarget(tgt: Setting): Setting {
    if tgt.Unset? then Text("*") else tgt
  }

  /** `validate_required_inputs`: the first falsy required setting, or else
      the settings with `tgt` defaulted to `*` when it is unset. */
  method ValidateRequiredInputs(data: map<string, Setting>) returns (missing: Option<string>, validated: map<string, Setting>)
    requires SourceData(data)
    ensures missing == FirstFalsy(data, SourceRequired)
    ensures missing.Some? ==> validated == data
    ensures missing.None? ==> validated == data["tgt" := DefaultedTarget(data["tgt"])]
    ensures missing.None? ==>
      validated.Keys == data.Keys &&
      (data["tgt"].Unset? ==> validated["tgt"] == Text("*")) &&
      (!data["tgt"].Unset? ==> validated["tgt"] == data["tgt"]) &&
      forall k :: k in data && k != "tgt" ==> validated[k] == data[k]
    ensures SourceData(validated)
  {
    missing := FirstMissing(data, SourceRequired);
    validated := data;
    if missing.Some? {
      return;
    }
    if validated["tgt"].Unset? {
      validated := validated["tgt" := Text("*")];
    }
    assert validated == data["tgt" := DefaultedTarget(data["tgt"])];
  }

  /** The grain names a comma-separated setting asks for; none when unset. */
  function RequestedNames(v: Setting): (names: set<string>)
    requires v.Unset? || v.Text?
    ensures v.Unset? ==> names == {}
    ensures v.Text? ==> names != {}
    ensures forall name :: name in names ==> ',' !in name
  {
    if v.Text? then
      var parts := Split(v.s, ',');
      var names := set p | p in parts;
      assert parts[0] in names;
      names
    else {}
  }

  /** The names of a setting are exactly the pieces between its commas. */
  lemma RequestedNamesJoin(s: string)
    ensures forall name :: name in RequestedNames(Text(s)) <==> name in Split(s, ',')
    ensures Join(Split(s, ','), ',') == s
  {
    JoinSplit(s, ',');
  }

  /** `tag_grains`. */
  function TagGrains(data: map<string, Setting>): set<string>
    requires SourceData(data)
  {
    RequestedNames(data["tags"])
  }

  /** `attributes_grains`. */
  function AttributeGrains(data: map<string, Setting>): set<string>
    requires SourceData(data)
  {
    RequestedNames(data["attributes"])
  }

  /** `prepare_grains`: the default grains with the tag and attribute grains. */
  function PrepareGrains(data: map<string, Setting>): (grains: set<string>)
    requires SourceData(data)
    ensures DefaultGrains <= grains && TagGrains(data) <= grains && AttributeGrains(data) <= grains
    ensures forall g :: g in grains ==> g in DefaultGrains || g in TagGrains(data) || g in AttributeGrains(data)
  {
    DefaultGrains + TagGrains(data) + AttributeGrains(data)
  }

  /** `order` lists every element of `s` once: one iteration order of the set. */
  predicate IsEnumeration(order: seq<string>, s: set<string>) {
    (forall i, j :: 0 <= i < j < |order| ==> order[i] != order[j]) &&
    (forall x :: x in order ==> x in s) && (forall x :: x in s ==> x in order)
  }

  /** Iterating over a set, as `list(s)` and `for x in s` do, in an order
      the model leaves open. */
  method Enumerate(s: set<string>) returns (order: seq<string>)
    ensures IsEnumeration(order, s)
  {
    order := [];
    var remaining := s;
    while remaining != {}
      invariant forall x :: x in s <==> x in remaining || x in order
      invariant forall x :: x in remaining ==> x !in order
      invariant forall i, j :: 0 <= i < j < |order| ==> order[i] != order[j]
      decreases remaining
    {
      var x :| x in remaining;
      order := order + [x];
      remaining := remaining - {x};
    }
  }

  /** An enumeration has as many elements as the set. */
  lemma {:induction false} EnumerationSize(order: seq<string>, s: set<string>)
    requires IsEnumeration(order, s)
    ensures |order| == |s|
    decreases |order|
  {
    if order != [] {
      var last := order[|order| - 1];
      var init := order[..|order| - 1];
      assert forall x :: x in init ==> x in order;
      assert IsEnumeration(init, s - {last});
      EnumerationSize(init, s - {last});
    }
  }

  /** The arguments of the grains request. */
  function GrainArgs(order: seq<string>): seq<Arg> {
    seq(|order|, i requires 0 <= i < |order| => Plain(Str(order[i])))
  }

  /** The `grains.item` request of lines 73-85 for the grains listed in `order`:
      `kwarg` holds `timeout` and `gather_job_timeout` exactly when those
      settings are set. */
  predicate GrainsRequestFor(data: map<string, Setting>, order: seq<string>, req: LowState)
    requires SourceData(data)
  {
    req.client == "local" && req.tgt == SettingValue(data["tgt"]) && req.fun == "grains.item" &&
    req.arg == GrainArgs(order) && req.fullReturn && req.kwarg.Some? &&
    req.kwarg.value.Keys <= {"timeout", "gather_job_timeout"} &&
    ("timeout" in req.kwarg.value <==> !data["timeout"].Unset?) &&
    ("gather_job_timeout" in req.kwarg.value <==> !data["gather-timeout"].Unset?) &&
    ("timeout" in req.kwarg.value ==> req.kwarg.value["timeout"] == Int(data["timeout"].i)) &&
    ("gather_job_timeout" in req.kwarg.value ==> req.kwarg.value["gather_job_timeout"] == Int(data["gather-timeout"].i))
  }

  /** Lines 73-85: the request starts with an empty `kwarg`, into which the
      timeouts that are set are stored. */
  method GrainsRequest(data: map<string, Setting>, order: seq<string>) returns (req: LowState)
    requires SourceData(data)
    ensures GrainsRequestFor(data, order, req)
  {
    var kwarg: map<string, Value> := map[];
    if !data["timeout"].Unset? {
      kwarg := kwarg["timeout" := Int(data["timeout"].i)];
    }
    if !data["gather-timeout"].Unset? {
      kwarg := kwarg["gather_job_timeout" := Int(data["gather-timeout"].i)];
    }
    req := LowState("local", SettingValue(data["tgt"]), "grains.item", GrainArgs(order), Some(kwarg), true);
  }

  /** The OS family names `get_os_family` rewrites. */
  const FamilyMap: map<string, string> := map["Linux" := "unix", "AIX" := "unix", "MacOS" := "unix",
    "VMware" := "unix", "Windows" := "windows"]

  /** `get_os_family`: a family of the table is rewritten, any other value is
      kept; `None` where the lookup raises because the value is unhashable. */
  function OsFamily(family: Value): (r: Option<Value>)
    ensures r.Some? <==> Hashable(family)
  {
    if !Hashable(family) then None
    else if family.Str? && family.s in FamilyMap then Some(Str(FamilyMap[family.s]))
    else Some(family)
  }

  /** The table: four families are Unix, Windows is Windows, others stay. */
  lemma OsFamilyTable(family: Value)
    requires Hashable(family)
    ensures family in [Str("Linux"), Str("AIX"), Str("MacOS"), Str("VMware")] ==> OsFamily(family) == Some(Str("unix"))
    ensures family == Str("Windows") ==> OsFamily(family) == Some(Str("windows"))
    ensures !(family.Str? && family.s in FamilyMap) ==> OsFamily(family) == Some(family)
  {
  }

  /** Rewriting a family a second time changes nothing. */
  lemma OsFamilyIdempotent(family: Value)
    requires Hashable(family)
    ensures OsFamily(OsFamily(family).value) == OsFamily(family)
  {
    if family.Str? && family.s in FamilyMap {
      var r := FamilyMap[family.s];
      assert r == "unix" || r == "windows";
      assert r[0] == 'u' || r[0] == 'w';
      assert forall k :: k in FamilyMap ==> k[0] != 'u' && k[0] != 'w';
      assert r !in FamilyMap;
    }
  }

  /** The `osArch` of a node: `AMD64` is reported as `x86_64`, any other
      architecture as it is. */
  function OsArch(cpuarch: Value): (r: Value)
    ensures r == Str("x86_64") <==> cpuarch == Str("x86_64") || cpuarch == Str("AMD64")
    ensures r != Str("x86_64") ==> r == cpuarch
  {
    if cpuarch == Str("x86_64") || cpuarch == Str("AMD64") then Str("x86_64") else cpuarch
  }

  /** Normalising an architecture twice changes nothing. */
  lemma OsArchIdempotent(cpuarch: Value)
    ensures OsArch(OsArch(cpuarch)) == OsArch(cpuarch)
  {
  }

  /** What one requested tag grain adds to a node's tags: the elements of a
      list, a truthy value itself, nothing for a missing or falsy value. */
  function TagContribution(grains: map<string, Value>, tag: string): seq<Value> {
    if tag !in grains then []
    else if grains[tag].List? then grains[tag].items
    else if PyValue.Truthy(grains[tag]) then [grains[tag]]
    else []
  }

  /** The tags of a node whose grains are `grains`, the requested tags
      visited in the order `names`. */
  function TagsOf(grains: map<string, Value>, names: seq<string>): seq<Value>
    decreases |names|
  {
    if names == [] then []
    else TagsOf(grains, names[..|names| - 1]) + TagContribution(grains, names[|names| - 1])
  }

  /** The tags of a concatenation of requests are the concatenated tags. */
  lemma {:induction false} TagsOfConcat(grains: map<string, Value>, a: seq<string>, b: seq<string>)
    ensures TagsOf(grains, a + b) == TagsOf(grains, a) + TagsOf(grains, b)
    decreases |b|
  {
    if b == [] {
      assert a + b == a;
    } else {
      var init, last, ab := b[..|b| - 1], b[|b| - 1], a + b;
      assert ab[..|ab| - 1] == a + init && ab[|ab| - 1] == last;
      TagsOfConcat(grains, a, init);
      calc {
        TagsOf(grains, ab);
        TagsOf(grains, a + init) + TagContribution(grains, last);
        TagsOf(grains, a) + TagsOf(grains, init) + TagContribution(grains, last);
        TagsOf(grains, a) + TagsOf(grains, b);
      }
    }
  }

  /** A value is among the tags exactly when some requested tag contributes it. */
  lemma {:induction false} TagsOfMember(grains: map<string, Value>, names: seq<string>, v: Value)
    ensures v in TagsOf(grains, names) <==> exists i :: 0 <= i < |names| && v in TagContribution(grains, names[i])
    decreases |names|
  {
    if names != [] {
      var init := names[..|names| - 1];
      TagsOfMember(grains, init, v);
      if v in TagsOf(grains, init) {
        var i :| 0 <= i < |init| && v in TagContribution(grains, init[i]);
        assert names[i] == init[i];
      }
      if exists i :: 0 <= i < |names| && v in TagContribution(grains, names[i]) {
        var i :| 0 <= i < |names| && v in TagContribution(grains, names[i]);
        if i < |init| {
          assert init[i] == names[i];
        }
      }
    }
  }

  /** `process_tags`: the tags list is extended with a list grain and
      appended to with any other truthy grain. */
  method ProcessTags(grains: map<string, Value>, needed: seq<string>) returns (tags: seq<Value>)
    ensures tags == TagsOf(grains, needed)
  {
    tags := [];
    for i := 0 to |needed|
      invariant tags == TagsOf(grains, needed[..i])
    {
      assert needed[..i + 1][..i] == needed[..i];
      var tag := needed[i];
      var value := if tag in grains then grains[tag] else Null;
      if value.List? {
        tags := tags + value.items;
      } else if PyValue.Truthy(value) {
        tags := tags + [value];
      }
    }
    assert needed[..|needed|] == needed;
  }

  /** The key an attribute is stored under: a reserved name gets `salt-` in front. */
  function AttributeName(name: string): (key: string)
    ensures key !in ReservedKeys
  {
    if name in ReservedKeys then
      var key := "salt-" + name;
      assert key[0] == 's';
      assert forall r :: r in ReservedKeys ==> r[0] != 's';
      key
    else name
  }

  /** Whether a requested attribute grain is kept: present, truthy, and a
      string or an integer. */
  predicate Kept(grains: map<string, Value>, name: string) {
    name in grains && PyValue.Truthy(grains[name]) && IsStrOrInt(grains[name])
  }

  /** The attributes of a node whose grains are `grains`, the requested
      attributes visited in the order `names`. */
  function AttributesOf(grains: map<string, Value>, names: seq<string>): (attrs: map<string, Value>)
    ensures forall k :: k in attrs ==> k !in ReservedKeys && PyValue.Truthy(attrs[k]) && IsStrOrInt(attrs[k])
    decreases |names|
  {
    if names == [] then map[]
    else
      var before := AttributesOf(grains, names[..|names| - 1]);
      var name := names[|names| - 1];
      if Kept(grains, name) then before[AttributeName(name) := grains[name]] else before
  }

  /** The keys of the attributes are the renamed names of the kept
      attributes, and each holds the grain of one such name. */
  lemma {:induction false} AttributesOfKeys(grains: map<string, Value>, names: seq<string>)
    ensures forall i :: 0 <= i < |names| && Kept(grains, names[i]) ==> AttributeName(names[i]) in AttributesOf(grains, names)
    ensures forall k :: k in AttributesOf(grains, names) ==>
      exists i :: 0 <= i < |names| && Kept(grains, names[i]) && AttributeName(names[i]) == k &&
        AttributesOf(grains, names)[k] == grains[names[i]]
    decreases |names|
  {
    if names != [] {
      var init := names[..|names| - 1];
      var last := |names| - 1;
      AttributesOfKeys(grains, init);
      var before := AttributesOf(grains, init);
      var attrs := AttributesOf(grains, names);
      forall i | 0 <= i < |names| && Kept(grains, names[i]) ensures AttributeName(names[i]) in attrs {
        if i < last {
          assert names[i] == init[i];
        }
      }
      forall k | k in attrs
        ensures exists i :: 0 <= i < |names| && Kept(grains, names[i]) && AttributeName(names[i]) == k && attrs[k] == grains[names[i]]
      {
        if Kept(grains, names[last]) && k == AttributeName(names[last]) {
          assert attrs[k] == grains[names[last]];
        } else {
          var i :| 0 <= i < |init| && Kept(grains, init[i]) && AttributeName(init[i]) == k && before[k] == grains[init[i]];
          assert names[i] == init[i];
        }
      }
    }
  }

  /** `process_attributes`: each kept attribute grain is stored under its
      key, a later name overwriting an earlier one with the same key. */
  method ProcessAttributes(grains: map<string, Value>, needed: seq<string>) returns (attrs: map<string, Value>)
    ensures attrs == AttributesOf(grains, needed)
  {
    attrs := map[];
    for i := 0 to |needed|
      invariant attrs == AttributesOf(grains, needed[..i])
    {
      assert needed[..i + 1][..i] == needed[..i];
      var name := needed[i];
      var key := if name in ReservedKeys then "salt-" + name else name;
      var value := if name in grains then grains[name] else Null;
      if PyValue.Truthy(value) && IsStrOrInt(value) {
        attrs := attrs[key := value];
      }
    }
    assert needed[..|needed|] == needed;
  }

  /** The node name of a minion: the prefix in front of the minion id when
      the prefix is truthy. */
  function NodeName(prefix: Setting, minion: string): string
    requires prefix.Unset? || prefix.Text?
  {
    if Common.Truthy(prefix) then prefix.s + minion else minion
  }

  /** Distinct minions never get the same node name. */
  lemma NodeNameInjective(prefix: Setting)
    requires prefix.Unset? || prefix.Text?
    ensures forall m1, m2 :: NodeName(prefix, m1) == NodeName(prefix, m2) ==> m1 == m2
  {
    forall m1, m2 | NodeName(prefix, m1) == NodeName(prefix, m2) ensures m1 == m2 {
      if Common.Truthy(prefix) {
        var p := prefix.s;
        assert (p + m1)[|p|..] == m1;
        assert (p + m2)[|p|..] == m2;
      }
    }
  }

  /** Whether a minion's reply can be read: a dictionary whose `ret` is a
      dictionary of grains holding `cpuarch`, `os`, `osrelease` and a
      hashable `os_family`. Anything else makes the script raise. */
  predicate WellFormedReply(ret: Value) {
    ret.Dict? && "ret" in ret.entries &&
    var grains := ret.entries["ret"];
    grains.Dict? && "cpuarch" in grains.entries && "os" in grains.entries &&
    "osrelease" in grains.entries && "os_family" in grains.entries &&
    Hashable(grains.entries["os_family"])
  }

  /** The node entry for a minion's reply: the fixed fields, then the
      attributes stored over them; `None` where the script raises. */
  function Entry(nodename: string, ret: Value, tagOrder: seq<string>, attrOrder: seq<string>): (e: Option<map<string, Value>>)
    ensures e.Some? <==> WellFormedReply(ret)
  {
    if !ret.Dict? || "ret" !in ret.entries then None
    else
      var grains := ret.entries["ret"];
      if !grains.Dict? || "cpuarch" !in grains.entries || "os" !in grains.entries ||
        "osrelease" !in grains.entries || "os_family" !in grains.entries then None
      else
        var g := grains.entries;
        match OsFamily(g["os_family"])
        case None => None
        case Some(family) =>
          var fixed := map["nodename" := Str(nodename), "osArch" := OsArch(g["cpuarch"]), "osName" := g["os"],
            "osVersion" := g["osrelease"], "osFamily" := family, "tags" := List(TagsOf(g, tagOrder))];
          Some(fixed + AttributesOf(g, attrOrder))
  }

  /** The fixed fields are reserved names. */
  lemma FixedFieldsReserved()
    ensures FixedFields <= ReservedKeys
  {
  }

  /** The attributes never overwrite a fixed field: an entry holds the fixed
      fields as computed from the grains, and besides them only the
      attributes. */
  lemma EntryFields(nodename: string, ret: Value, tagOrder: seq<string>, attrOrder: seq<string>)
    requires WellFormedReply(ret)
    ensures var g := ret.entries["ret"].entries;
      var e := Entry(nodename, ret, tagOrder, attrOrder).value;
      var attrs := AttributesOf(g, attrOrder);
      e.Keys == FixedFields + attrs.Keys &&
      e["nodename"] == Str(nodename) &&
      e["osArch"] == OsArch(g["cpuarch"]) &&
      e["osName"] == g["os"] &&
      e["osVersion"] == g["osrelease"] &&
      e["osFamily"] == OsFamily(g["os_family"]).value &&
      e["tags"] == List(TagsOf(g, tagOrder)) &&
      forall k :: k in attrs ==> e[k] == attrs[k]
  {
    FixedFieldsReserved();
  }

  /** A readable reply's entry, spelled out from its grains. */
  lemma EntryOfGrains(nodename: string, ret: Value, tagOrder: seq<string>, attrOrder: seq<string>)
    requires WellFormedReply(ret)
    ensures var g := ret.entries["ret"].entries;
      Entry(nodename, ret, tagOrder, attrOrder) ==
        Some(map["nodename" := Str(nodename), "osArch" := OsArch(g["cpuarch"]), "osName" := g["os"],
          "osVersion" := g["osrelease"], "osFamily" := OsFamily(g["os_family"]).value,
          "tags" := List(TagsOf(g, tagOrder))] + AttributesOf(g, attrOrder))
  {
  }

  /** The entry of a minion's node; an empty entry where the reply cannot be read. */
  function NodeEntry(replies: map<string, Value>, prefix: Setting, tagOrder: seq<string>, attrOrder: seq<string>, m: string)
    : map<string, Value>
    requires prefix.Unset? || prefix.Text?
  {
    if m in replies && WellFormedReply(replies[m]) then Entry(NodeName(prefix, m), replies[m], tagOrder, attrOrder).value
    else map[]
  }

  /** The nodes of the minions listed in `ids`, visited in that order. */
  function NodesFrom(replies: map<string, Value>, prefix: Setting, tagOrder: seq<string>, attrOrder: seq<string>, ids: seq<string>)
    : map<string, map<string, Value>>
    requires prefix.Unset? || prefix.Text?
    decreases |ids|
  {
    if ids == [] then map[]
    else
      var m := ids[|ids| - 1];
      NodesFrom(replies, prefix, tagOrder, attrOrder, ids[..|ids| - 1])[NodeName(prefix, m) := NodeEntry(replies, prefix, tagOrder, attrOrder, m)]
  }

  /** The node names are those of the listed minions. */
  lemma {:induction false} NodesFromKeys(replies: map<string, Value>, prefix: Setting, tagOrder: seq<string>, attrOrder: seq<string>, ids: seq<string>)
    requires prefix.Unset? || prefix.Text?
    ensures forall k :: k in NodesFrom(replies, prefix, tagOrder, attrOrder, ids) <==> exists m :: m in ids && NodeName(prefix, m) == k
    decreases |ids|
  {
    if ids != [] {
      var init := ids[..|ids| - 1];
      NodesFromKeys(replies, prefix, tagOrder, attrOrder, init);
      assert forall m :: m in ids <==> m in init || m == ids[|ids| - 1];
    }
  }

  /** The node of a listed minion holds that minion's entry. */
  lemma {:induction false} NodesFromAt(replies: map<string, Value>, prefix: Setting, tagOrder: seq<string>, attrOrder: seq<string>, ids: seq<string>, m: string)
    requires prefix.Unset? || prefix.Text?
    requires m in ids
    ensures NodeName(prefix, m) in NodesFrom(replies, prefix, tagOrder, attrOrder, ids)
    ensures NodesFrom(replies, prefix, tagOrder, attrOrder, ids)[NodeName(prefix, m)] == NodeEntry(replies, prefix, tagOrder, attrOrder, m)
    decreases |ids|
  {
    var init := ids[..|ids| - 1];
    var last := ids[|ids| - 1];
    if m != last {
      assert m in init;
      NodesFromAt(replies, prefix, tagOrder, attrOrder, init, m);
      NodeNameInjective(prefix);
    }
  }

  /** The resource model the script prints for the minions' replies, listed
      in the order `ids`, or `None` where it raises on a reply it cannot read. */
  function ResourceModelOf(minions: map<string, Value>, prefix: Setting, tagOrder: seq<string>, attrOrder: seq<string>, ids: seq<string>)
    : Option<map<string, map<string, Value>>>
    requires prefix.Unset? || prefix.Text?
  {
    if exists m :: m in minions && !WellFormedReply(minions[m]) then None
    else Some(NodesFrom(minions, prefix, tagOrder, attrOrder, ids))
  }

  /** The model fails exactly when some reply cannot be read. */
  lemma ResourceModelFails(minions: map<string, Value>, prefix: Setting, tagOrder: seq<string>, attrOrder: seq<string>, ids: seq<string>)
    requires prefix.Unset? || prefix.Text?
    ensures ResourceModelOf(minions, prefix, tagOrder, attrOrder, ids).None? <==> exists m :: m in minions && !WellFormedReply(minions[m])
  {
  }

  /** Every node of the model is named after a minion, and every minion
      has a node. */
  lemma ResourceModelKeys(minions: map<string, Value>, prefix: Setting, tagOrder: seq<string>, attrOrder: seq<string>, ids: seq<string>)
    requires prefix.Unset? || prefix.Text?
    requires IsEnumeration(ids, minions.Keys)
    requires ResourceModelOf(minions, prefix, tagOrder, attrOrder, ids).Some?
    ensures forall k :: k in ResourceModelOf(minions, prefix, tagOrder, attrOrder, ids).value <==>
      exists m :: m in minions && NodeName(prefix, m) == k
  {
    NodesFromKeys(minions, prefix, tagOrder, attrOrder, ids);
  }

  /** A minion's node holds the minion's entry, whose `nodename` is the
      node's own name. */
  lemma ResourceModelNode(minions: map<string, Value>, prefix: Setting, tagOrder: seq<string>, attrOrder: seq<string>, ids: seq<string>, m: string)
    requires prefix.Unset? || prefix.Text?
    requires IsEnumeration(ids, minions.Keys)
    requires ResourceModelOf(minions, prefix, tagOrder, attrOrder, ids).Some? && m in minions
    ensures var model := ResourceModelOf(minions, prefix, tagOrder, attrOrder, ids).value;
      NodeName(prefix, m) in model &&
      model[NodeName(prefix, m)] == Entry(NodeName(prefix, m), minions[m], tagOrder, attrOrder).value &&
      model[NodeName(prefix, m)]["nodename"] == Str(NodeName(prefix, m))
  {
    NodesFromAt(minions, prefix, tagOrder, attrOrder, ids, m);
    EntryFields(NodeName(prefix, m), minions[m], tagOrder, attrOrder);
  }

  /** The order in which the response lists the minions does not change the model. */
  lemma ResourceModelOrderFree(minions: map<string, Value>, prefix: Setting, tagOrder: seq<string>, attrOrder: seq<string>, ids1: seq<string>, ids2: seq<string>)
    requires prefix.Unset? || prefix.Text?
    requires IsEnumeration(ids1, minions.Keys) && IsEnumeration(ids2, minions.Keys)
    ensures ResourceModelOf(minions, prefix, tagOrder, attrOrder, ids1) == ResourceModelOf(minions, prefix, tagOrder, attrOrder, ids2)
  {
    var a := NodesFrom(minions, prefix, tagOrder, attrOrder, ids1);
    var b := NodesFrom(minions, prefix, tagOrder, attrOrder, ids2);
    NodesFromKeys(minions, prefix, tagOrder, attrOrder, ids1);
    NodesFromKeys(minions, prefix, tagOrder, attrOrder, ids2);
    forall k | k in a ensures k in b && a[k] == b[k] {
      var m :| m in ids1 && NodeName(prefix, m) == k;
      assert m in minions && m in ids2;
      NodesFromAt(minions, prefix, tagOrder, attrOrder, ids1, m);
      NodesFromAt(minions, prefix, tagOrder, attrOrder, ids2, m);
    }
    forall k | k in b ensures k in a {
      var m :| m in ids2 && NodeName(prefix, m) == k;
      assert m in minions && m in ids1;
    }
    assert a == b;
  }

  /** Lines 163-176: one minion's entry, built from its fixed fields and
      then updated with its attributes; `None` where a lookup raises. */
  method BuildEntry(nodename: string, ret: Value, tagOrder: seq<string>, attrOrder: seq<string>)
    returns (entry: Option<map<string, Value>>)
    ensures entry == Entry(nodename, ret, tagOrder, attrOrder)
  {
    if !ret.Dict? || "ret" !in ret.entries {
      return None;
    }
    var grains := ret.entries["ret"];
    if !grains.Dict? || "cpuarch" !in grains.entries || "os" !in grains.entries ||
      "osrelease" !in grains.entries || "os_family" !in grains.entries {
      return None;
    }
    var g := grains.entries;
    var family := OsFamily(g["os_family"]);
    if family.None? {
      return None;
    }
    var tags := ProcessTags(g, tagOrder);
    var model := map["nodename" := Str(nodename), "osArch" := OsArch(g["cpuarch"]), "osName" := g["os"],
      "osVersion" := g["osrelease"], "osFamily" := family.value, "tags" := List(tags)];
    var attrs := ProcessAttributes(g, attrOrder);
    model := model + attrs;
    EntryOfGrains(nodename, ret, tagOrder, attrOrder);
    entry := Some(model);
  }

  /** Visiting one more minion whose reply is well formed adds its node. */
  lemma NodesFromStep(replies: map<string, Value>, prefix: Setting, tagOrder: seq<string>, attrOrder: seq<string>,
                      ids: seq<string>, i: int)
    requires prefix.Unset? || prefix.Text?
    requires 0 <= i < |ids| && ids[i] in replies && WellFormedReply(replies[ids[i]])
    ensures NodesFrom(replies, prefix, tagOrder, attrOrder, ids[..i + 1]) ==
      NodesFrom(replies, prefix, tagOrder, attrOrder, ids[..i])[NodeName(prefix, ids[i]) :=
        Entry(NodeName(prefix, ids[i]), replies[ids[i]], tagOrder, attrOrder).value]
  {
    assert ids[..i + 1][..i] == ids[..i];
  }

  /** Lines 161-180: the model is filled one minion at a time, in the order
      `ids` the response lists them in. */
  method GenerateResourceModel(minions: Value, ids: seq<string>, prefix: Setting, tagOrder: seq<string>, attrOrder: seq<string>)
    returns (model: Option<map<string, map<string, Value>>>)
    requires prefix.Unset? || prefix.Text?
    requires minions.Dict? ==> IsEnumeration(ids, minions.entries.Keys)
    ensures model == if minions.Dict? then ResourceModelOf(minions.entries, prefix, tagOrder, attrOrder, ids) else None
  {
    if !minions.Dict? {
      return None;
    }
    var replies := minions.entries;
    var built: map<string, map<string, Value>> := map[];
    for i := 0 to |ids|
      invariant forall j :: 0 <= j < i ==> WellFormedReply(replies[ids[j]])
      invariant built == NodesFrom(replies, prefix, tagOrder, attrOrder, ids[..i])
    {
      var minion := ids[i];
      var nodename := if Common.Truthy(prefix) then prefix.s + minion else minion;
      assert nodename == NodeName(prefix, minion);
      var entry := BuildEntry(nodename, replies[minion], tagOrder, attrOrder);
      if entry.None? {
        assert minion in replies && !WellFormedReply(replies[minion]);
        return None;
      }
      NodesFromStep(replies, prefix, tagOrder, attrOrder, ids, i);
      built := built[nodename := entry.value];
    }
    assert ids[..|ids|] == ids;
    forall m | m in replies ensures WellFormedReply(replies[m]) {
      var j :| 0 <= j < |ids| && ids[j] == m;
    }
    return Some(built);
  }

  /** What one run of `main` leaves behind: the values printed, the errors
      logged, the exit status, the login made and the requests sent. */
  datatype SourceRun = SourceRun(
    printed: seq<Value>,
    logged: seq<string>,
    status: int,
    login: Option<Credentials>,
    sent: seq<LowState>)

  /** The JSON object printed for a model. */
  function ModelValue(model: map<string, map<string, Value>>): Value {
    Dict(map k | k in model :: Dict(model[k]))
  }

  /** `collect_minions_grains`: the grains request is sent after a login,
      and the minions' replies are read out of the response. `minions` is
      `None` when the script stops here, `run` what it has done so far. */
  method CollectMinionsGrains(data: map<string, Setting>, grains: set<string>, loginError: Option<string>, answer: seq<LowState> -> Response)
    returns (minions: Option<Value>, run: SourceRun)
    requires SourceData(data)
    ensures run.logged == [] && |run.sent| <= 1
    ensures run.login == Some(Credentials(SettingValue(data["user"]), SettingValue(data["password"]), SettingValue(data["eauth"])))
    ensures loginError.Some? ==> minions.None? && run.status == 1 && run.sent == [] && run.printed == [Str(loginError.value)]
    ensures loginError.None? ==>
      |run.sent| == 1 && exists order :: IsEnumeration(order, grains) && GrainsRequestFor(data, order, run.sent[0])
    ensures run.sent != [] && answer(run.sent).Raised? ==>
      minions.None? && run.status == 1 && run.printed == [Str(answer(run.sent).message)]
    ensures run.sent != [] && answer(run.sent).Answered? ==>
      minions == MinionsOf(answer(run.sent).body) && run.printed == [] && (minions.None? ==> run.status == 1)
  {
    var order := Enumerate(grains);
    var request := GrainsRequest(data, order);
    var client := new Client(SettingValue(data["url"]), !Common.Truthy(data["verify_ssl"]), loginError, answer);
    var error := client.Login(Credentials(SettingValue(data["user"]), SettingValue(data["password"]), SettingValue(data["eauth"])));
    if error.Some? {
      return None, SourceRun([Str(error.value)], [], 1, client.login, client.sent);
    }
    var response := client.Low(request);
    if response.Raised? {
      return None, SourceRun([Str(response.message)], [], 1, client.login, client.sent);
    }
    minions := MinionsOf(response.body);
    run := SourceRun([], [], if minions.None? then 1 else 0, client.login, client.sent);
  }

  /** `main` from line 211 on. The API answers the login with `loginError`
      and the `low` call with `answer`. */
  method GenerateSource(data: map<string, Setting>, loginError: Option<string>, answer: seq<LowState> -> Response)
    returns (run: SourceRun)
    requires SourceData(data)
    ensures FirstFalsy(data, SourceRequired).Some? ==>
      run == SourceRun([], [NotSentMessage(FirstFalsy(data, SourceRequired).value)], 1, None, [])
    ensures FirstFalsy(data, SourceRequired).None? ==>
      run.logged == [] &&
      run.login == Some(Credentials(SettingValue(data["user"]), SettingValue(data["password"]), SettingValue(data["eauth"])))
    ensures loginError.Some? && run.login.Some? ==>
      run.status == 1 && run.sent == [] && run.printed == [Str(loginError.value)]
    ensures |run.sent| <= 1
    ensures FirstFalsy(data, SourceRequired).None? && loginError.None? ==> |run.sent| == 1
    ensures run.sent != [] ==>
      loginError.None? &&
      exists order :: IsEnumeration(order, PrepareGrains(data)) &&
        GrainsRequestFor(data["tgt" := DefaultedTarget(data["tgt"])], order, run.sent[0])
    ensures run.sent != [] && answer(run.sent).Raised? ==>
      run.status == 1 && run.printed == [Str(answer(run.sent).message)]
    ensures run.sent != [] && answer(run.sent).Answered? ==>
      var minions := MinionsOf(answer(run.sent).body);
      if minions.None? || !minions.value.Dict? then run.status == 1 && run.printed == []
      else exists ids, tagOrder, attrOrder ::
        IsEnumeration(ids, minions.value.entries.Keys) &&
        IsEnumeration(tagOrder, TagGrains(data)) && IsEnumeration(attrOrder, AttributeGrains(data)) &&
        match ResourceModelOf(minions.value.entries, data["prefix"], tagOrder, attrOrder, ids)
        case None => run.status == 1 && run.printed == []
        case Some(model) => run.status == 0 && run.printed == [ModelValue(model)]
  {
    var missing, validated := ValidateRequiredInputs(data);
    if missing.Some? {
      return SourceRun([], [NotSentMessage(missing.value)], 1, None, []);
    }
    assert validated["tags"] == data["tags"] && validated["attributes"] == data["attributes"];
    assert PrepareGrains(validated) == PrepareGrains(data);
    var minions;
    minions, run := CollectMinionsGrains(validated, PrepareGrains(validated), loginError, answer);
    if minions.None? {
      return;
    }
    if !minions.value.Dict? {
      return run.(status := 1);
    }
    var ids := Enumerate(minions.value.entries.Keys);
    var tagOrder := Enumerate(TagGrains(validated));
    var attrOrder := Enumerate(AttributeGrains(validated));
    var model := GenerateResourceModel(minions.value, ids, validated["prefix"], tagOrder, attrOrder);
    if model.None? {
      return run.(status := 1);
    }
    run := run.(printed := [ModelValue(model.value)], status := 0);
  }
}
