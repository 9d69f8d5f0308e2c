/** The facade of aws_list/resources/Aws.py for security groups
    (`Aws_ec2_secgroup`), whose `inbound` and `outbound` accessors turn the
    group's permission rules into text: one line per source CIDR block and
    per source group, each followed by the rule's port range. */
module Ec2SecGroup {
  import opened Outcomes
  import opened Document
  import opened Aws
  import opened Ec2Base

  const RequiredFields: map<string, string> :=
    map["vpcid" := "VpcId", "groupname" := "GroupName", "description" := "Description"]

  /** The metadata keys holding the inbound and the outbound rules. */
  const Inbound: string := "IpPermissions"
  const Outbound: string := "IpPermissionsEgress"

  /** The accessors `Aws_ec2_secgroup` defines itself. */
  const OwnNames: set<string> :=
    {"groupid", "vpcid", "groupname", "description", "inbound", "outbound"}

  const Names: set<string> := OwnNames + InheritedNames

  /** The port suffix of every line of a rule: "(any -> any/any)" for the
      protocol "-1", otherwise " (from -> protocol/to)". The protocol is
      concatenated as it is, so it must be a string; the ports go through
      `str()`. */
  function PortText(rule: Value): Result<string>
  {
    var protocol :- Subscript(rule, "IpProtocol");
    if protocol == Str("-1") then Ok("(any -> any/any)")
    else
      var from :- Subscript(rule, "FromPort");
      var fromText :- Render(from);
      var protocolText :- AsStr(protocol);
      var to :- Subscript(rule, "ToPort");
      var toText :- Render(to);
      Ok(" (" + fromText + " -> " + protocolText + "/" + toText + ")")
  }

  /** A port suffix is never empty and always ends with ")". */
  lemma PortTextShape(rule: Value)
    requires PortText(rule).Ok?
    ensures |PortText(rule).value| > 0 && PortText(rule).value[|PortText(rule).value| - 1] == ')'
  {
  }

  /** `[i[itemKey] for i in rule[listKey]]` when `rule[listKey]` is truthy,
      and nothing otherwise. */
  function Sources(rule: Value, listKey: string, itemKey: string): Result<seq<Value>>
  {
    var entries :- Subscript(rule, listKey);
    if !Truthy(entries) then Ok([])
    else
      var xs :- Items(entries);
      MapAll(xs, FieldOf(itemKey))
  }

  /** `str(source) + port`. */
  function LineOf(port: string): Value -> Result<string>
  {
    v => var text :- Render(v); Ok(text + port)
  }

  /** The lines of one rule: the CIDR blocks of `IpRanges`, then the group
      ids of `UserIdGroupPairs`, each followed by the rule's port suffix. */
  function RuleLines(rule: Value): Result<seq<string>>
  {
    var port :- PortText(rule);
    var cidrs :- Sources(rule, "IpRanges", "CidrIp");
    var cidrLines :- MapAll(cidrs, LineOf(port));
    var groups :- Sources(rule, "UserIdGroupPairs", "GroupId");
    var groupLines :- MapAll(groups, LineOf(port));
    Ok(cidrLines + groupLines)
  }

  /** The lines of every rule under `key`, in rule order. */
  function AllLines(f: Facade, key: string): Result<seq<string>>
  {
    var rules :- Get(f.metadata, key);
    var xs :- Items(rules);
    FlatMapAll(xs, RuleLines)
  }

  /** What `inbound` (key IpPermissions) and `outbound` (key
      IpPermissionsEgress) return: the lines joined by newlines. */
  function RulesText(f: Facade, key: string): Result<string>
  {
    var lines :- AllLines(f, key);
    Ok(Join(lines, "\n"))
  }

  /** The rule text fails only as a lookup or a type check fails: a missing
      key, a value of the wrong shape, or a container passed to `str()`. */
  lemma RulesTextFailure(f: Facade, key: string)
    ensures RulesText(f, key).Err? ==> LookupFailure(RulesText(f, key).error)
  {
    var rules := Get(f.metadata, key);
    if rules.Ok? && Items(rules.value).Ok? {
      var xs := Items(rules.value).value;
      forall i | 0 <= i < |xs| && RuleLines(xs[i]).Err?
        ensures LookupFailure(RuleLines(xs[i]).error)
      {
        RuleLinesFailure(xs[i]);
      }
      MapAllFailure(xs, RuleLines);
    }
  }

  lemma RuleLinesFailure(rule: Value)
    ensures RuleLines(rule).Err? ==> LookupFailure(RuleLines(rule).error)
  {
    var port := PortText(rule);
    PortTextFailure(rule);
    if port.Ok? {
      var cidrs := Sources(rule, "IpRanges", "CidrIp");
      SourcesFailure(rule, "IpRanges", "CidrIp");
      if cidrs.Ok? {
        LineFailure(cidrs.value, port.value);
        if MapAll(cidrs.value, LineOf(port.value)).Ok? {
          var groups := Sources(rule, "UserIdGroupPairs", "GroupId");
          SourcesFailure(rule, "UserIdGroupPairs", "GroupId");
          if groups.Ok? {
            LineFailure(groups.value, port.value);
          }
        }
      }
    }
  }

  lemma PortTextFailure(rule: Value)
    ensures PortText(rule).Err? ==> LookupFailure(PortText(rule).error)
  {
  }

  lemma SourcesFailure(rule: Value, listKey: string, itemKey: string)
    ensures Sources(rule, listKey, itemKey).Err? ==> LookupFailure(Sources(rule, listKey, itemKey).error)
  {
    var entries := Subscript(rule, listKey);
    if entries.Ok? && Truthy(entries.value) && Items(entries.value).Ok? {
      MapAllFailure(Items(entries.value).value, FieldOf(itemKey));
    }
  }

  lemma LineFailure(sources: seq<Value>, port: string)
    ensures MapAll(sources, LineOf(port)).Err? ==> LookupFailure(MapAll(sources, LineOf(port)).error)
  {
    MapAllFailure(sources, LineOf(port));
  }

  /** `getattr(secgroup, name)()` for the accessors of `Aws_ec2_secgroup`. */
  function Accessor(f: Facade, name: string): Result<Value>
  {
    match name
    case "groupid" => Ok(Str(f.resourceId))
    case "vpcid" => Get(f.metadata, "VpcId")
    case "groupname" => Get(f.metadata, "GroupName")
    case "description" => Get(f.metadata, "Description")
    case "inbound" => var text :- RulesText(f, Inbound); Ok(Str(text))
    case "outbound" => var text :- RulesText(f, Outbound); Ok(Str(text))
    case _ => Inherited(f, name)
  }
  /** The class overrides no member it inherits. */
  lemma Inherits(f: Facade, name: string)
    requires name in InheritedNames
    ensures Accessor(f, name) == Inherited(f, name)
  {
    match name
    case "tag_name" =>
    case "all_tags_key" =>
    case "tag_value" =>
    case "find_key" =>
    case "resource_type" =>
    case "resource_id" =>
    case "ec2" =>
    case "metadata" =>
    case "available_types" =>
    case _ => assert false;
  }

  /** A name the class defines, or inherits, never gives AttributeError;
      every other name does. */
  lemma Dispatch(f: Facade, name: string)
    ensures name !in Names <==> Accessor(f, name) == Err(AttributeError(name))
  {
    match name
    case "groupid" =>
    case "vpcid" =>
    case "groupname" =>
    case "description" =>
    case "inbound" => RulesTextFailure(f, Inbound);
    case "outbound" => RulesTextFailure(f, Outbound);
    case _ => InheritedMembers(f, name);
  }


  /** The field accessors fail with KeyError when their field is absent; the
      group id is the facade's resource id; the rule accessors are the
      rule text of their key. */
  lemma RequiredAccessors(f: Facade, name: string)
    requires name in RequiredFields
    ensures Accessor(f, name) == Get(f.metadata, RequiredFields[name])
    ensures Get(f.metadata, RequiredFields[name]).Err? ==> Accessor(f, name) == Err(KeyError(RequiredFields[name]))
    ensures Accessor(f, "groupid") == Ok(Str(f.resourceId))
  {
  }

  lemma RuleAccessors(f: Facade)
    ensures RulesText(f, Inbound).Ok? ==> Accessor(f, "inbound") == Ok(Str(RulesText(f, Inbound).value))
    ensures RulesText(f, Inbound).Err? ==> Accessor(f, "inbound") == Err(RulesText(f, Inbound).error)
    ensures RulesText(f, Outbound).Ok? ==> Accessor(f, "outbound") == Ok(Str(RulesText(f, Outbound).value))
    ensures RulesText(f, Outbound).Err? ==> Accessor(f, "outbound") == Err(RulesText(f, Outbound).error)
  {
  }

  /** Every line of a rule ends with its port suffix, so none is empty. */
  lemma {:induction false} LinesNonEmpty(values: seq<Value>, port: string)
    requires port != "" && MapAll(values, LineOf(port)).Ok?
    ensures AllNonEmpty(MapAll(values, LineOf(port)).value)
  {
    MapAllOk(values, LineOf(port));
    var lines := MapAll(values, LineOf(port)).value;
    forall i | 0 <= i < |lines| ensures lines[i] != "" {
      assert |lines[i]| >= |port|;
    }
  }

  /** The inner loops of `inbound`/`outbound`: for each source, add a
      newline when the text so far is not empty, then `str(source) + port`. */
  method AppendLines(acc: string, ghost done: seq<string>, sources: seq<Value>, port: string)
    returns (r: Result<string>)
    requires AllNonEmpty(done) && acc == Join(done, "\n") && port != ""
    ensures r == (var lines :- MapAll(sources, LineOf(port)); Ok(Join(done + lines, "\n")))
  {
    var text := acc;
    ghost var lines: seq<string> := [];
    assert done + lines == done;
    for j := 0 to |sources|
      invariant MapAll(sources[..j], LineOf(port)) == Ok(lines)
      invariant AllNonEmpty(done + lines)
      invariant text == Join(done + lines, "\n")
    {
      MapAllStep(sources, j, LineOf(port));
      var source := Render(sources[j]);
      if source.Err? {
        MapAllPrefixErr(sources, j + 1, LineOf(port));
        return Err(source.error);
      }
      var line := source.value + port;
      assert |line| >= |port|;
      JoinByHand(done + lines, line, "\n");
      AllNonEmptyAppend(done + lines, [line]);
      if text != "" {
        text := text + "\n";
      }
      text := text + line;
      ConcatAssoc(done, lines, [line]);
      lines := lines + [line];
    }
    assert sources[..|sources|] == sources;
    return Ok(text);
  }

  /** The body of the outer loop of `inbound`/`outbound`: the port suffix,
      then the lines of the CIDR blocks, then those of the source groups. */
  method AppendRule(acc: string, ghost done: seq<string>, rule: Value) returns (r: Result<string>)
    requires AllNonEmpty(done) && acc == Join(done, "\n")
    ensures r == (var lines :- RuleLines(rule); Ok(Join(done + lines, "\n")))
    ensures r.Ok? ==> AllNonEmpty(done + RuleLines(rule).value)
  {
    var port := PortText(rule);
    if port.Err? {
      return Err(port.error);
    }
    PortTextShape(rule);
    var cidrs := Sources(rule, "IpRanges", "CidrIp");
    if cidrs.Err? {
      return Err(cidrs.error);
    }
    var withCidrs := AppendLines(acc, done, cidrs.value, port.value);
    if withCidrs.Err? {
      return withCidrs;
    }
    ghost var cidrLines := MapAll(cidrs.value, LineOf(port.value)).value;
    LinesNonEmpty(cidrs.value, port.value);
    AllNonEmptyAppend(done, cidrLines);
    r := AppendGroups(withCidrs.value, done, cidrLines, rule, port.value);
  }

  /** The second half of the loop body: the lines of the source groups,
      after the lines of the CIDR blocks. */
  method AppendGroups(acc: string, ghost done: seq<string>, ghost cidrLines: seq<string>,
                      rule: Value, port: string)
    returns (r: Result<string>)
    requires PortText(rule) == Ok(port) && port != ""
    requires Sources(rule, "IpRanges", "CidrIp").Ok?
    requires MapAll(Sources(rule, "IpRanges", "CidrIp").value, LineOf(port)) == Ok(cidrLines)
    requires AllNonEmpty(done + cidrLines) && acc == Join(done + cidrLines, "\n")
    ensures r == (var lines :- RuleLines(rule); Ok(Join(done + lines, "\n")))
    ensures r.Ok? ==> AllNonEmpty(done + RuleLines(rule).value)
  {
    var groups := Sources(rule, "UserIdGroupPairs", "GroupId");
    if groups.Err? {
      return Err(groups.error);
    }
    r := AppendLines(acc, done + cidrLines, groups.value, port);
    RuleLinesAfterCidrs(rule, port, Sources(rule, "IpRanges", "CidrIp").value, cidrLines, groups.value);
    if r.Ok? {
      ghost var groupLines := MapAll(groups.value, LineOf(port)).value;
      LinesNonEmpty(groups.value, port);
      AllNonEmptyAppend(done + cidrLines, groupLines);
      ConcatAssoc(done, cidrLines, groupLines);
    }
  }

  lemma RuleLinesAfterCidrs(rule: Value, port: string, cidrs: seq<Value>, cidrLines: seq<string>, groups: seq<Value>)
    requires PortText(rule) == Ok(port)
    requires Sources(rule, "IpRanges", "CidrIp") == Ok(cidrs)
    requires MapAll(cidrs, LineOf(port)) == Ok(cidrLines)
    requires Sources(rule, "UserIdGroupPairs", "GroupId") == Ok(groups)
    ensures RuleLines(rule) == (var groupLines :- MapAll(groups, LineOf(port)); Ok(cidrLines + groupLines))
  {
  }

  /** `inbound()` (key IpPermissions) and `outbound()` (key
      IpPermissionsEgress) as the loops the source writes. */
  method Rules(f: Facade, key: string) returns (r: Result<string>)
    ensures r == RulesText(f, key)
  {
    var rules :- Get(f.metadata, key);
    var xs :- Items(rules);
    var text := "";
    ghost var blocks: seq<seq<string>> := [];
    for i := 0 to |xs|
      invariant MapAll(xs[..i], RuleLines) == Ok(blocks)
      invariant AllNonEmpty(Flatten(blocks))
      invariant text == Join(Flatten(blocks), "\n")
    {
      MapAllStep(xs, i, RuleLines);
      var next := AppendRule(text, Flatten(blocks), xs[i]);
      if next.Err? {
        MapAllPrefixErr(xs, i + 1, RuleLines);
        return Err(next.error);
      }
      FlattenStep(blocks, RuleLines(xs[i]).value);
      text := next.value;
      blocks := blocks + [RuleLines(xs[i]).value];
    }
    assert xs[..|xs|] == xs;
    return Ok(text);
  }

  /** The line count of a rule is its number of CIDR blocks plus its number
      of source groups, and each line ends with the rule's port suffix. */
  lemma RuleLinesCount(rule: Value)
    requires RuleLines(rule).Ok?
    ensures |RuleLines(rule).value| ==
              |Sources(rule, "IpRanges", "CidrIp").value| + |Sources(rule, "UserIdGroupPairs", "GroupId").value|
    ensures forall k :: 0 <= k < |RuleLines(rule).value| ==>
              var line := RuleLines(rule).value[k];
              var port := PortText(rule).value;
              |line| >= |port| && line[|line| - |port|..] == port
  {
    var port := PortText(rule).value;
    var cidrs := Sources(rule, "IpRanges", "CidrIp").value;
    var groups := Sources(rule, "UserIdGroupPairs", "GroupId").value;
    var cidrLines := MapAll(cidrs, LineOf(port)).value;
    var groupLines := MapAll(groups, LineOf(port)).value;
    assert RuleLines(rule).value == cidrLines + groupLines;
    LinesEndWithPort(cidrs, port);
    LinesEndWithPort(groups, port);
    EndsWithPortAppend(cidrLines, groupLines, port);
  }

  /** Each line ends with `port`. */
  predicate EndWithPort(lines: seq<string>, port: string)
  {
    forall k :: 0 <= k < |lines| ==> |lines[k]| >= |port| && lines[k][|lines[k]| - |port|..] == port
  }

  lemma LinesEndWithPort(sources: seq<Value>, port: string)
    requires MapAll(sources, LineOf(port)).Ok?
    ensures |MapAll(sources, LineOf(port)).value| == |sources|
    ensures EndWithPort(MapAll(sources, LineOf(port)).value, port)
  {
    var lines := MapAll(sources, LineOf(port)).value;
    forall k | 0 <= k < |lines|
      ensures |lines[k]| >= |port| && lines[k][|lines[k]| - |port|..] == port
    {
      MapAllAt(sources, LineOf(port), lines, k);
      assert lines[k] == Render(sources[k]).value + port;
    }
  }

  lemma EndsWithPortAppend(a: seq<string>, b: seq<string>, port: string)
    requires EndWithPort(a, port) && EndWithPort(b, port)
    ensures EndWithPort(a + b, port)
  {
    forall k | 0 <= k < |a + b|
      ensures |(a + b)[k]| >= |port| && (a + b)[k][|(a + b)[k]| - |port|..] == port
    {
      if k >= |a| {
        assert (a + b)[k] == b[k - |a|];
      }
    }
  }

  /** Plain strings as document values. */
  function Strs(ss: seq<string>): seq<Value>
  {
    seq(|ss|, i requires 0 <= i < |ss| => Str(ss[i]))
  }

  /** Each text followed by the port suffix. */
  function Suffixed(ss: seq<string>, port: string): seq<string>
  {
    seq(|ss|, i requires 0 <= i < |ss| => ss[i] + port)
  }

  lemma LinesOfStrings(ss: seq<string>, port: string)
    ensures MapAll(Strs(ss), LineOf(port)) == Ok(Suffixed(ss, port))
  {
    MapAllOk(Strs(ss), LineOf(port));
    assert MapAll(Strs(ss), LineOf(port)).value == Suffixed(ss, port);
  }

  /** A rule whose CIDR blocks and source groups are plain strings gives one
      line per CIDR block, then one per group, each followed by the port. */
  lemma RuleOfStrings(rule: Value, port: string, cidrs: seq<string>, groups: seq<string>)
    requires PortText(rule) == Ok(port)
    requires Sources(rule, "IpRanges", "CidrIp") == Ok(Strs(cidrs))
    requires Sources(rule, "UserIdGroupPairs", "GroupId") == Ok(Strs(groups))
    ensures RuleLines(rule) == Ok(Suffixed(cidrs, port) + Suffixed(groups, port))
  {
    LinesOfStrings(cidrs, port);
    LinesOfStrings(groups, port);
  }

  /** The protocol "-1" stands for every protocol and port. */
  lemma AnyProtocolPort(rule: Value)
    requires Subscript(rule, "IpProtocol") == Ok(Str("-1"))
    ensures PortText(rule) == Ok("(any -> any/any)")
  {
  }

  /** A group without rules under `key` shows an empty cell. */
  lemma NoRulesNoText(f: Facade, key: string)
    requires Get(f.metadata, key) == Ok(List([]))
    ensures RulesText(f, key) == Ok("")
  {
  }

  /** A missing rule list is a KeyError naming it. */
  lemma MissingRules(f: Facade, key: string)
    requires Get(f.metadata, key).Err?
    ensures RulesText(f, key) == Err(KeyError(key))
  {
  }

  /** The text can be read back: splitting it on newlines gives the lines
      of every rule, in order, one per source, when the sources themselves
      hold no newline. */
  lemma {:induction false} RulesTextSplits(f: Facade, key: string)
    requires AllLines(f, key).Ok? && |AllLines(f, key).value| > 0
    requires forall k :: 0 <= k < |AllLines(f, key).value| ==> '\n' !in AllLines(f, key).value[k]
    ensures RulesText(f, key).Ok?
    ensures Split(RulesText(f, key).value, '\n') == AllLines(f, key).value
  {
    SplitJoin(AllLines(f, key).value, '\n');
  }

  /** The lines of the rule text come rule by rule: the lines of a list of
      rules are the lines of its first part followed by those of the rest. */
  lemma RuleOrder(xs: seq<Value>, ys: seq<Value>)
    requires FlatMapAll(xs, RuleLines).Ok? && FlatMapAll(ys, RuleLines).Ok?
    ensures FlatMapAll(xs + ys, RuleLines) ==
              Ok(FlatMapAll(xs, RuleLines).value + FlatMapAll(ys, RuleLines).value)
  {
    MapAllAppend(xs, ys, RuleLines);
    FlattenAppend(MapAll(xs, RuleLines).value, MapAll(ys, RuleLines).value);
  }

  // Steps of TcpRuleExample below: the port suffix, the string literals it
  // joins, and the rule's one line.

  /** The port suffix of a TCP rule for port 22. */
  lemma TcpPortExample(rule: Value)
    requires Subscript(rule, "IpProtocol") == Ok(Str("tcp"))
    requires Subscript(rule, "FromPort") == Ok(Num(22)) && Subscript(rule, "ToPort") == Ok(Num(22))
    ensures PortText(rule) == Ok(" (22 -> tcp/22)")
  {
    RenderPort();
    PortSuffix();
    assert Str("tcp") != Str("-1");
    assert PortText(rule) == Ok(" (" + "22" + " -> " + "tcp" + "/" + "22" + ")");
  }

  lemma PortSuffix()
    ensures " (" + "22" + " -> " + "tcp" + "/" + "22" + ")" == " (22 -> tcp/22)"
  {
  }

  lemma RenderPort()
    ensures Render(Num(22)) == Ok("22")
  {
    assert IntToString(22) == "22";
  }

  lemma TcpLineText()
    ensures "10.0.0.0/8" + " (22 -> tcp/22)" == "10.0.0.0/8 (22 -> tcp/22)"
  {
  }

  /** One rule, written out: port 22 over TCP from 10.0.0.0/8, no source
      group. */
  lemma TcpRuleExample(rule: Value)
    requires Subscript(rule, "IpProtocol") == Ok(Str("tcp"))
    requires Subscript(rule, "FromPort") == Ok(Num(22)) && Subscript(rule, "ToPort") == Ok(Num(22))
    requires Sources(rule, "IpRanges", "CidrIp") == Ok([Str("10.0.0.0/8")])
    requires Sources(rule, "UserIdGroupPairs", "GroupId") == Ok([])
    ensures RuleLines(rule) == Ok(["10.0.0.0/8 (22 -> tcp/22)"])
  {
    TcpPortExample(rule);
    assert Strs(["10.0.0.0/8"]) == [Str("10.0.0.0/8")];
    assert Strs([]) == [];
    RuleOfStrings(rule, " (22 -> tcp/22)", ["10.0.0.0/8"], []);
    TcpLines();
  }

  lemma TcpLines()
    ensures Suffixed(["10.0.0.0/8"], " (22 -> tcp/22)") + Suffixed([], " (22 -> tcp/22)") == ["10.0.0.0/8 (22 -> tcp/22)"]
  {
    var line := "10.0.0.0/8 (22 -> tcp/22)";
    TcpLineText();
    var cidrLines := Suffixed(["10.0.0.0/8"], " (22 -> tcp/22)");
    assert |cidrLines| == 1 && cidrLines[0] == line;
    assert cidrLines == [line];
    assert Suffixed([], " (22 -> tcp/22)") == [];
  }
}
