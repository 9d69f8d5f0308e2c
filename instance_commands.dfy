/** The two instance commands of aws_list/resources/instances.py:
    `cmd_num_inst`, which counts the instances per value of one accessor,
    and `cmd_list_instances`, which builds the instance facades and hands
    them to the report `--output` names. */
module InstanceCommands {
  import opened Outcomes
  import opened Document
  import opened Aws
  import opened Pcof
  import opened Reports
  import Ec2Instance
  import Instances
  import InstanceNames
  import InstanceTags

  const NotFound: string := "Error: No instance found"

  // ---------------------------------------------------------------------------
  // cmd_num_inst
  // ---------------------------------------------------------------------------

  /** `all_types.count(v)`. */
  function Count(values: seq<Value>, v: Value): (n: nat)
    ensures n == multiset(values)[v]
  {
    if values == [] then 0
    else
      assert values == values[..|values| - 1] + [values[|values| - 1]];
      Count(values[..|values| - 1], v) + (if values[|values| - 1] == v then 1 else 0)
  }

  /** `all_types`: the accessor `--pertype` names, on every instance found. */
  function PerType(p: Provider, args: Args): Result<seq<Value>>
  {
    var fs :- Found(p, args, "instances", "Instance", NotFound);
    MapAll(fs, AttrOf(InstanceKind, Lower(args.pertype)))
  }

  /** One row per value, in the order given: the value and how many
      instances have it. */
  function CountRows(values: seq<Value>, kinds: seq<Value>): seq<seq<Value>>
  {
    seq(|kinds|, k requires 0 <= k < |kinds| => [kinds[k], Num(Count(values, kinds[k]))])
  }

  /** The command: the rows follow the order in which the loop over the set
      of values visits it, which `order` gives. */
  function NumInstSpec(p: Provider, order: set<Value> -> seq<Value>, args: Args): Result<Table>
  {
    var values :- PerType(p, args);
    var kinds :- SetOf(values);
    MakeTable([args.pertype, "Number"], CountRows(values, order(kinds)), SortOr(args.sortby, args.pertype), [], [], "")
  }

  method CmdNumInst(p: Provider, order: set<Value> -> seq<Value>, args: Args) returns (r: Result<Table>)
    ensures r == NumInstSpec(p, order, args)
    ensures QueryIds(p, "instances", FilterName(args), FilterValue(args)) == Ok([]) ==> r == Err(Exit(NotFound))
  {
    FoundFacades(p, args, "instances", "Instance", NotFound);
    var instances :- FindResources(p, args, "instances", "Instance", NotFound);
    var values :- ForEach(instances, AttrOf(InstanceKind, Lower(args.pertype)));
    var kinds :- SetOf(values);
    var each := order(kinds);
    var rows: seq<seq<Value>> := [];
    for k := 0 to |each|
      invariant rows == CountRows(values, each[..k])
    {
      CountRowsStep(values, each, k);
      rows := rows + [[each[k], Num(Count(values, each[k]))]];
    }
    assert each[..|each|] == each;
    r := PrintTable([args.pertype, "Number"], rows, SortOr(args.sortby, args.pertype), [], [], "");
  }

  lemma CountRowsStep(values: seq<Value>, each: seq<Value>, k: nat)
    requires k < |each|
    ensures CountRows(values, each[..k + 1]) == CountRows(values, each[..k]) + [[each[k], Num(Count(values, each[k]))]]
  {
  }

  /** The sum of the counts of the given values. */
  function TotalCount(values: seq<Value>, kinds: seq<Value>): nat
  {
    if kinds == [] then 0 else TotalCount(values, kinds[..|kinds| - 1]) + Count(values, kinds[|kinds| - 1])
  }

  lemma {:induction false} TotalCountEmpty(kinds: seq<Value>)
    ensures TotalCount([], kinds) == 0
  {
    if kinds != [] {
      TotalCountEmpty(kinds[..|kinds| - 1]);
    }
  }

  /** One more value adds, to the sum of the counts, the number of times it
      is among the kinds counted. */
  lemma {:induction false} TotalCountStep(values: seq<Value>, x: Value, kinds: seq<Value>)
    ensures TotalCount(values + [x], kinds) == TotalCount(values, kinds) + multiset(kinds)[x]
  {
    if kinds != [] {
      var init := kinds[..|kinds| - 1];
      TotalCountStep(values, x, init);
      assert kinds == init + [kinds[|kinds| - 1]];
    }
  }

  /** A value is at most once in a list of distinct values. */
  lemma {:induction false} DistinctOnce(kinds: seq<Value>, x: Value)
    requires DistinctValues(kinds) && x in kinds
    ensures multiset(kinds)[x] == 1
  {
    var init := kinds[..|kinds| - 1];
    var last := kinds[|kinds| - 1];
    assert kinds == init + [last];
    if x == last {
      assert x !in init;
    } else {
      DistinctOnce(init, x);
    }
  }

  /** Counting every value once, over a list that holds each value once,
      counts every element. */
  lemma {:induction false} CountsAddUp(values: seq<Value>, kinds: seq<Value>)
    requires DistinctValues(kinds) && forall v :: v in values ==> v in kinds
    ensures TotalCount(values, kinds) == |values|
  {
    if values == [] {
      TotalCountEmpty(kinds);
    } else {
      var init := values[..|values| - 1];
      var x := values[|values| - 1];
      assert values == init + [x];
      CountsAddUp(init, kinds);
      TotalCountStep(init, x, kinds);
      DistinctOnce(kinds, x);
    }
  }

  /** A `--pertype` that names no accessor of the instance class fails on
      the first instance with AttributeError. */
  lemma UnknownPerType(p: Provider, order: set<Value> -> seq<Value>, args: Args)
    requires Found(p, args, "instances", "Instance", NotFound).Ok? && Lower(args.pertype) !in Ec2Instance.Names
    ensures NumInstSpec(p, order, args) == Err(AttributeError(Lower(args.pertype)))
  {
    FoundFacades(p, args, "instances", "Instance", NotFound);
    var fs := Found(p, args, "instances", "Instance", NotFound).value;
    Ec2Instance.Dispatch(fs[0], Lower(args.pertype));
    assert AttrOf(InstanceKind, Lower(args.pertype))(fs[0]) == Err(AttributeError(Lower(args.pertype)));
    MapAllStops(fs, 0, AttrOf(InstanceKind, Lower(args.pertype)));
  }

  /** Values exist only for a `--pertype` that names an accessor of the
      instance class, since at least one instance was found. */
  lemma PerTypeNamed(p: Provider, args: Args)
    requires PerType(p, args).Ok?
    ensures Lower(args.pertype) in Ec2Instance.Names
  {
    FoundFacades(p, args, "instances", "Instance", NotFound);
    var fs := Found(p, args, "instances", "Instance", NotFound).value;
    MapAllOk(fs, AttrOf(InstanceKind, Lower(args.pertype)));
    assert AttrOf(InstanceKind, Lower(args.pertype))(fs[0]).Ok?;
    ClassesDispatch();
  }

  /** The rows of the count: one per value of the enumeration, each with a
      positive count; every value is in exactly one row; the counts add up
      to the number of values counted. */
  lemma CountRowsMeaning(values: seq<Value>, each: seq<Value>)
    requires DistinctValues(each) && forall v :: v in each <==> v in values
    ensures var rows := CountRows(values, each);
            |rows| == |each| &&
            (forall k :: 0 <= k < |rows| ==>
               rows[k] == [each[k], Num(multiset(values)[each[k]])] && multiset(values)[each[k]] > 0) &&
            (forall j, k :: 0 <= j < k < |rows| ==> rows[j][0] != rows[k][0]) &&
            (forall v :: v in values <==> exists k :: 0 <= k < |rows| && rows[k][0] == v) &&
            TotalCount(values, each) == |values|
  {
    var rows := CountRows(values, each);
    CountsAddUp(values, each);
    forall k | 0 <= k < |each| ensures multiset(values)[each[k]] > 0 {
      assert each[k] in values;
    }
    forall v | v in values ensures exists k :: 0 <= k < |rows| && rows[k][0] == v {
      var k :| 0 <= k < |each| && each[k] == v;
      assert rows[k][0] == v;
    }
  }

  /** The header cannot repeat: "Number" names no instance accessor. */
  lemma NumInstHeader(p: Provider, args: Args)
    requires PerType(p, args).Ok?
    ensures Distinct([args.pertype, "Number"])
  {
    PerTypeNamed(p, args);
    NumberNamesNoAccessor();
  }

  lemma NumberNamesNoAccessor()
    ensures Lower("Number") !in Ec2Instance.Names
  {
    assert Lower("Number") == "number";
  }

  /** The count table exists exactly when the instances, their values and
      the set of values do: the header cannot repeat, because "Number"
      names no accessor. It holds the count rows over the set's order, and
      one value per instance was counted. */
  lemma NumInstTable(p: Provider, order: set<Value> -> seq<Value>, args: Args)
    ensures NumInstSpec(p, order, args).Ok? <==>
              PerType(p, args).Ok? && forall i :: 0 <= i < |PerType(p, args).value| ==> Hashable(PerType(p, args).value[i])
    ensures NumInstSpec(p, order, args).Ok? ==>
              var values := PerType(p, args).value;
              var t := NumInstSpec(p, order, args).value;
              t.header == [args.pertype, "Number"] &&
              t.sortBy == SortColumn([args.pertype, "Number"], SortOr(args.sortby, args.pertype)) &&
              t.rows == CountRows(values, order(SetOf(values).value)) &&
              |values| == |Found(p, args, "instances", "Instance", NotFound).value|
  {
    var values := PerType(p, args);
    if values.Ok? {
      var fs := Found(p, args, "instances", "Instance", NotFound).value;
      MapAllOk(fs, AttrOf(InstanceKind, Lower(args.pertype)));
      NumInstHeader(p, args);
      var kinds := SetOf(values.value);
      if kinds.Ok? {
        var rows := CountRows(values.value, order(kinds.value));
        assert RowsFit([args.pertype, "Number"], rows);
        TableRows([args.pertype, "Number"], rows, SortOr(args.sortby, args.pertype), [], [], "");
      }
    }
  }

  /** The count table: one row per distinct value some instance has, with
      the number of instances that have it, which is positive; every value
      is in exactly one row; the counts add up to the number of instances. */
  lemma NumInstCounts(p: Provider, order: set<Value> -> seq<Value>, args: Args)
    requires IsOrder(order) && NumInstSpec(p, order, args).Ok?
    ensures var values := PerType(p, args).value;
            var t := NumInstSpec(p, order, args).value;
            (forall k :: 0 <= k < |t.rows| ==>
               t.rows[k] == [t.rows[k][0], Num(multiset(values)[t.rows[k][0]])] && multiset(values)[t.rows[k][0]] > 0) &&
            (forall j, k :: 0 <= j < k < |t.rows| ==> t.rows[j][0] != t.rows[k][0]) &&
            (forall v :: v in values <==> exists k :: 0 <= k < |t.rows| && t.rows[k][0] == v) &&
            TotalCount(values, order(SetOf(values).value)) == |Found(p, args, "instances", "Instance", NotFound).value|
  {
    NumInstTable(p, order, args);
    var values := PerType(p, args).value;
    var each := order(SetOf(values).value);
    assert Enumerates(each, SetOf(values).value);
    CountRowsMeaning(values, each);
  }

  // ---------------------------------------------------------------------------
  // cmd_list_instances
  // ---------------------------------------------------------------------------

  /** The report functions of the dictionary `funcs`. */
  datatype Output = TableReport | DetailReport | TagsReport | AmiReport | VolumeReport | SecgroupReport | NamesReport

  /** The dictionary `funcs`, from the names `--output` may give to the
      report each selects. */
  const Funcs: map<string, Output> :=
    map["table" := TableReport, "detail" := DetailReport, "tags" := TagsReport, "ami" := AmiReport,
        "volume" := VolumeReport, "secgroup" := SecgroupReport, "names" := NamesReport]

  /** One report over the instances. */
  function Show(p: Provider, order: set<Value> -> seq<Value>, output: Output, instances: seq<Facade>, sortby: string)
    : Result<Report>
  {
    match output
    case TableReport => var t :- Instances.TableSpec(instances, sortby); Ok(Shown(t))
    case DetailReport => Ok(Details(instances))
    case TagsReport => var t :- InstanceTags.TagsSpec(order, instances); Ok(Shown(t))
    case AmiReport => var t :- Instances.AmiSpec(p, instances, sortby); Ok(Shown(t))
    case VolumeReport => var t :- Instances.VolumeSpec(p, instances, sortby); Ok(Shown(t))
    case SecgroupReport => var t :- Instances.SecGroupSpec(instances, sortby); Ok(Shown(t))
    case NamesReport => var t :- InstanceNames.NamesSpec(p, order, instances, sortby); Ok(Shown(t))
  }

  /** `funcs[args.output](ec2=…, instances=…, sortby=…)`: the report the
      output names, or KeyError for a name the dictionary does not hold. */
  function ShowSpec(p: Provider, order: set<Value> -> seq<Value>, output: string, instances: seq<Facade>, sortby: string)
    : Result<Report>
  {
    if output in Funcs then Show(p, order, Funcs[output], instances, sortby) else Err(KeyError(output))
  }

  function ListInstancesSpec(p: Provider, order: set<Value> -> seq<Value>, args: Args): Result<Report>
  {
    var instances :- Found(p, args, "instances", "Instance", NotFound);
    ShowSpec(p, order, args.output, instances, args.sortby)
  }

  method CmdListInstances(p: Provider, order: set<Value> -> seq<Value>, args: Args) returns (r: Result<Report>)
    ensures r == ListInstancesSpec(p, order, args)
    ensures QueryIds(p, "instances", FilterName(args), FilterValue(args)) == Ok([]) ==> r == Err(Exit(NotFound))
  {
    FoundFacades(p, args, "instances", "Instance", NotFound);
    var instances :- FindResources(p, args, "instances", "Instance", NotFound);
    if args.output !in Funcs {
      return Err(KeyError(args.output));
    }
    var t: Result<Table>;
    match Funcs[args.output] {
      case TableReport => t := Instances.ShowInstancesTable(instances, args.sortby);
      case DetailReport => return Ok(Details(instances));
      case TagsReport => t := InstanceTags.ShowInstancesTags(order, instances);
      case AmiReport => t := Instances.ShowInstancesAmi(p, instances, args.sortby);
      case VolumeReport => t := Instances.ShowInstancesVolume(p, instances, args.sortby);
      case SecgroupReport => t := Instances.ShowInstancesSecgroup(instances, args.sortby);
      case NamesReport => t := InstanceNames.ShowInstancesNames(p, order, instances, args.sortby);
    }
    var table :- t;
    return Ok(Shown(table));
  }

  /** With no instance found the command ends with its message, whatever
      the output names. */
  lemma ListNoneFound(p: Provider, order: set<Value> -> seq<Value>, args: Args)
    requires QueryIds(p, "instances", FilterName(args), FilterValue(args)) == Ok([])
    ensures ListInstancesSpec(p, order, args) == Err(Exit(NotFound))
  {
    FoundFacades(p, args, "instances", "Instance", NotFound);
  }

  /** The report is chosen only once the instances are built: an output the
      dictionary does not hold is then a KeyError. */
  lemma ListUnknownOutput(p: Provider, order: set<Value> -> seq<Value>, args: Args)
    requires Found(p, args, "instances", "Instance", NotFound).Ok? && args.output !in Funcs
    ensures ListInstancesSpec(p, order, args) == Err(KeyError(args.output))
  {
  }

  /** `detail` shows the metadata of the instances found. */
  lemma ListDetail(p: Provider, order: set<Value> -> seq<Value>, args: Args)
    requires Found(p, args, "instances", "Instance", NotFound).Ok? && args.output == "detail"
    ensures ListInstancesSpec(p, order, args) == Ok(Details(Found(p, args, "instances", "Instance", NotFound).value))
  {
  }

  /** Every report but `detail` is a table. */
  lemma ShowShown(p: Provider, order: set<Value> -> seq<Value>, output: Output, instances: seq<Facade>, sortby: string)
    requires Show(p, order, output, instances, sortby).Ok?
    ensures Show(p, order, output, instances, sortby).value.Shown? <==> output != DetailReport
  {
    match output
    case TableReport =>
    case DetailReport =>
    case TagsReport =>
    case AmiReport =>
    case VolumeReport =>
    case SecgroupReport =>
    case NamesReport =>
  }

  /** A listing that succeeds came from an output the dictionary holds, and
      is a table exactly when that output is not `detail`. */
  lemma ListShown(p: Provider, order: set<Value> -> seq<Value>, args: Args)
    requires ListInstancesSpec(p, order, args).Ok?
    ensures args.output in Funcs
    ensures ListInstancesSpec(p, order, args).value.Shown? <==> args.output != "detail"
  {
    var instances := Found(p, args, "instances", "Instance", NotFound).value;
    ShowShown(p, order, Funcs[args.output], instances, args.sortby);
    DetailKey(args.output);
  }

  /** Only the key "detail" selects the detail report. */
  lemma DetailKey(output: string)
    requires output in Funcs
    ensures Funcs[output] == DetailReport <==> output == "detail"
  {
  }
}
