/** `show_instances_names` of aws_list/resources/instances.py: beside each
    instance's id, Name tag and availability zone, the Name tags of its VPC
    and of its subnet, read from facades built once per distinct id. */
module InstanceNames {
  import opened Outcomes
  import opened Document
  import opened Aws
  import opened Pcof
  import opened Reports
  import Ec2Instance
  import Instances

  const NamesHeader: seq<string> := ["InstanceId", "InstanceName", "VpcName", "SubnetName", "AvailabilityZone"]

  // ---------------------------------------------------------------------------
  // The specification
  // ---------------------------------------------------------------------------

  /** `[x for x in xs if x]`. */
  function TruthyOnly(xs: seq<Value>): (r: seq<Value>)
    ensures forall v :: v in r <==> v in xs && Truthy(v)
  {
    if xs == [] then []
    else
      assert xs == xs[..|xs| - 1] + [xs[|xs| - 1]];
      TruthyOnly(xs[..|xs| - 1]) + (if Truthy(xs[|xs| - 1]) then [xs[|xs| - 1]] else [])
  }

  /** `set([i.<field>() for i in instances if i.<field>()])`: the distinct
      non-empty values of one accessor over the instances. */
  function IdSet(instances: seq<Facade>, field: string): Result<set<Value>>
  {
    var values :- MapAll(instances, AttrOf(InstanceKind, field));
    SetOf(TruthyOnly(values))
  }

  /** The facades whose id is `id`, in order. */
  function Matching(fs: seq<Facade>, id: Value): seq<Facade>
  {
    if fs == [] then []
    else Matching(fs[..|fs| - 1], id) + (if Str(fs[|fs| - 1].resourceId) == id then [fs[|fs| - 1]] else [])
  }

  /** `f.tag_name()`, as a function value. */
  function TagNameOf(f: Facade): Result<Value>
  {
    f.TagName()
  }

  /** `names = [f.tag_name() for f in fs if f.resource_id == id]`, then
      `names[0] if names else ""`. */
  function NameAmong(fs: seq<Facade>, id: Value): Result<Value>
  {
    var names :- MapAll(Matching(fs, id), TagNameOf);
    Ok(if names != [] then names[0] else Str(""))
  }

  /** The name, among `fs`, of the facade whose id the instance's accessor
      `field` gives. */
  function NameCell(fs: seq<Facade>, instance: Facade, field: string): Result<Value>
  {
    var id :- Attr(InstanceKind, instance, field);
    NameAmong(fs, id)
  }

  /** The row of one instance, appended cell by cell: `instanceid()`,
      `tag_name()`, the names of its VPC and subnet among the facades built
      for them, `availabilityzone()`. The first failure ends the row. */
  function NamesRow(instance: Facade, vpcs: seq<Facade>, subnets: seq<Facade>): Result<seq<Value>>
  {
    var name :- instance.TagName();
    var vpcName :- NameCell(vpcs, instance, "vpcid");
    var subnetName :- NameCell(subnets, instance, "subnetid");
    var zone :- Attr(InstanceKind, instance, "availabilityzone");
    Ok([Str(instance.resourceId), name, vpcName, subnetName, zone])
  }

  function NamesRowOf(vpcs: seq<Facade>, subnets: seq<Facade>): Facade -> Result<seq<Value>>
  {
    instance => NamesRow(instance, vpcs, subnets)
  }

  /** The whole report. The VPC and subnet facades are built in the order in
      which the loop over the id sets visits them, which `order` gives. */
  function NamesSpec(p: Provider, order: set<Value> -> seq<Value>, instances: seq<Facade>, sortby: string)
    : Result<Table>
  {
    var vpcIds :- IdSet(instances, "vpcid");
    var subnetIds :- IdSet(instances, "subnetid");
    var vpcs :- MapAll(order(vpcIds), Instances.IdLoader(p, "Vpc"));
    var subnets :- MapAll(order(subnetIds), Instances.IdLoader(p, "Subnet"));
    TableOver(MapAll(instances, NamesRowOf(vpcs, subnets)), NamesHeader, SortOr(sortby, "InstanceId"),
              ["InstanceName"], [], "")
  }

  // ---------------------------------------------------------------------------
  // The program
  // ---------------------------------------------------------------------------

  /** The comprehension over the instances, then the set. */
  method CollectIds(instances: seq<Facade>, field: string) returns (r: Result<set<Value>>)
    ensures r == IdSet(instances, field)
  {
    var kept: seq<Value> := [];
    ghost var values: seq<Value> := [];
    for i := 0 to |instances|
      invariant MapAll(instances[..i], AttrOf(InstanceKind, field)) == Ok(values)
      invariant kept == TruthyOnly(values)
    {
      var v := Attr(InstanceKind, instances[i], field);
      MapAllNext(instances, i, AttrOf(InstanceKind, field), values, v);
      if v.Err? {
        return Err(v.error);
      }
      assert (values + [v.value])[..|values|] == values;
      if Truthy(v.value) {
        kept := kept + [v.value];
      }
      values := values + [v.value];
    }
    assert instances[..|instances|] == instances;
    r := SetOf(kept);
  }

  method FindName(fs: seq<Facade>, id: Value) returns (r: Result<Value>)
    ensures r == NameAmong(fs, id)
  {
    var names :- ForEach(Matching(fs, id), TagNameOf);
    return Ok(if names != [] then names[0] else Str(""));
  }

  method LookUpName(fs: seq<Facade>, instance: Facade, field: string) returns (r: Result<Value>)
    ensures r == NameCell(fs, instance, field)
  {
    var id :- Attr(InstanceKind, instance, field);
    r := FindName(fs, id);
  }

  method BuildNamesRow(instance: Facade, vpcs: seq<Facade>, subnets: seq<Facade>) returns (r: Result<seq<Value>>)
    ensures r == NamesRow(instance, vpcs, subnets)
  {
    var name :- instance.TagName();
    var vpcName :- LookUpName(vpcs, instance, "vpcid");
    var subnetName :- LookUpName(subnets, instance, "subnetid");
    var zone :- Attr(InstanceKind, instance, "availabilityzone");
    return Ok([Str(instance.resourceId), name, vpcName, subnetName, zone]);
  }

  method ShowInstancesNames(p: Provider, order: set<Value> -> seq<Value>, instances: seq<Facade>, sortby: string)
    returns (r: Result<Table>)
    ensures r == NamesSpec(p, order, instances, sortby)
  {
    var vpcIds :- CollectIds(instances, "vpcid");
    var subnetIds :- CollectIds(instances, "subnetid");
    var vpcs :- ForEach(order(vpcIds), Instances.IdLoader(p, "Vpc"));
    var subnets :- ForEach(order(subnetIds), Instances.IdLoader(p, "Subnet"));
    var rows: seq<seq<Value>> := [];
    for i := 0 to |instances|
      invariant MapAll(instances[..i], NamesRowOf(vpcs, subnets)) == Ok(rows)
    {
      var row := BuildNamesRow(instances[i], vpcs, subnets);
      MapAllNext(instances, i, NamesRowOf(vpcs, subnets), rows, row);
      if row.Err? {
        return Err(row.error);
      }
      rows := rows + [row.value];
    }
    assert instances[..|instances|] == instances;
    r := PrintTable(NamesHeader, rows, SortOr(sortby, "InstanceId"), ["InstanceName"], [], "");
  }

  // ---------------------------------------------------------------------------
  // Properties
  // ---------------------------------------------------------------------------

  /** No facade has the id: nothing matches. */
  lemma {:induction false} MatchingNone(fs: seq<Facade>, id: Value)
    requires forall j :: 0 <= j < |fs| ==> Str(fs[j].resourceId) != id
    ensures Matching(fs, id) == []
  {
    if fs != [] {
      MatchingNone(fs[..|fs| - 1], id);
    }
  }

  /** Exactly one facade has the id: it alone matches. */
  lemma {:induction false} MatchingOnly(fs: seq<Facade>, id: Value, k: nat)
    requires k < |fs| && Str(fs[k].resourceId) == id
    requires forall j :: 0 <= j < |fs| && j != k ==> Str(fs[j].resourceId) != id
    ensures Matching(fs, id) == [fs[k]]
  {
    var init := fs[..|fs| - 1];
    if k == |fs| - 1 {
      MatchingNone(init, id);
    } else {
      MatchingOnly(init, id, k);
    }
  }

  /** A single match gives its Name tag. */
  lemma NameOfSingle(fs: seq<Facade>, id: Value, g: Facade)
    requires Matching(fs, id) == [g]
    ensures NameAmong(fs, id) == g.TagName()
  {
    assert [g][..0] == [];
    assert MapAll([g], TagNameOf) == (var last :- TagNameOf(g); Ok([] + [last]));
  }

  /** The id set holds the non-empty values of the accessor, and no other. */
  lemma IdSetMembers(instances: seq<Facade>, field: string, ids: set<Value>)
    requires IdSet(instances, field) == Ok(ids)
    ensures forall w :: w in ids ==> Truthy(w)
    ensures forall i :: 0 <= i < |instances| ==>
              Attr(InstanceKind, instances[i], field).Ok? &&
              (Truthy(Attr(InstanceKind, instances[i], field).value) ==> Attr(InstanceKind, instances[i], field).value in ids)
  {
    var values := MapAll(instances, AttrOf(InstanceKind, field)).value;
    MapAllOk(instances, AttrOf(InstanceKind, field));
    assert forall i :: 0 <= i < |instances| ==> values[i] in values;
  }

  /** The facades built from a list of ids: one per id, in order, each
      with that id and the metadata loaded for it. */
  lemma LoadedFromIds(p: Provider, resourceType: string, xs: seq<Value>, fs: seq<Facade>)
    requires MapAll(xs, Instances.IdLoader(p, resourceType)) == Ok(fs)
    ensures |fs| == |xs|
    ensures forall k :: 0 <= k < |fs| ==>
              xs[k].Str? && Str(fs[k].resourceId) == xs[k] && p.load(resourceType, xs[k].s).Loaded? &&
              fs[k] == Facade(resourceType, xs[k].s, p.load(resourceType, xs[k].s).data)
  {
    MapAllOk(xs, Instances.IdLoader(p, resourceType));
    forall k | 0 <= k < |fs|
      ensures xs[k].Str? && Str(fs[k].resourceId) == xs[k] && p.load(resourceType, xs[k].s).Loaded?
      ensures fs[k] == Facade(resourceType, xs[k].s, p.load(resourceType, xs[k].s).data)
    {
      assert Instances.IdLoader(p, resourceType)(xs[k]) == Ok(fs[k]);
    }
  }

  /** Looking an id up among the facades built from an id set: an id of the
      set finds the facade loaded for it, whose Name tag is the answer; an
      empty id finds nothing and gives "". */
  lemma ResolvedName(p: Provider, resourceType: string, order: set<Value> -> seq<Value>, ids: set<Value>,
                     fs: seq<Facade>, v: Value)
    requires IsOrder(order) && MapAll(order(ids), Instances.IdLoader(p, resourceType)) == Ok(fs)
    requires forall w :: w in ids ==> Truthy(w)
    requires Truthy(v) ==> v in ids
    ensures Truthy(v) ==> v.Str? && p.load(resourceType, v.s).Loaded? &&
                          NameAmong(fs, v) == Facade(resourceType, v.s, p.load(resourceType, v.s).data).TagName()
    ensures !Truthy(v) ==> NameAmong(fs, v) == Ok(Str(""))
  {
    var xs := order(ids);
    assert Enumerates(xs, ids);
    LoadedFromIds(p, resourceType, xs, fs);
    if Truthy(v) {
      var k :| 0 <= k < |xs| && xs[k] == v;
      MatchingOnly(fs, v, k);
      NameOfSingle(fs, v, fs[k]);
    } else {
      MatchingNone(fs, v);
    }
  }

  /** The name cell reads the optional field behind the accessor, "" when
      the field is absent. */
  lemma NameCellField(fs: seq<Facade>, instance: Facade, field: string)
    requires field in Ec2Instance.OptionalFields
    ensures NameCell(fs, instance, field) == NameAmong(fs, Optional(instance.metadata, Ec2Instance.OptionalFields[field]))
  {
    Ec2Instance.OptionalAccessors(instance, field);
  }

  /** A row holds the instance id, its Name tag, the VPC and subnet names
      looked up by the instance's VpcId and SubnetId, and the availability
      zone; it exists only when each of the four reads succeeds. */
  lemma NamesRowCells(instance: Facade, vpcs: seq<Facade>, subnets: seq<Facade>, row: seq<Value>)
    requires NamesRow(instance, vpcs, subnets) == Ok(row)
    ensures instance.TagName().Ok? && NameCell(vpcs, instance, "vpcid").Ok?
    ensures NameCell(subnets, instance, "subnetid").Ok? && Attr(InstanceKind, instance, "availabilityzone").Ok?
    ensures row == [Str(instance.resourceId), instance.TagName().value, NameCell(vpcs, instance, "vpcid").value,
                    NameCell(subnets, instance, "subnetid").value, Attr(InstanceKind, instance, "availabilityzone").value]
  {
  }

  /** Cells 3 and 4 of a row are the VPC and subnet names. */
  lemma NameCellsAt(instance: Facade, vpcs: seq<Facade>, subnets: seq<Facade>, row: seq<Value>)
    requires NamesRow(instance, vpcs, subnets) == Ok(row)
    ensures |row| == |NamesHeader|
    ensures NameCell(vpcs, instance, "vpcid") == Ok(row[2]) && NameCell(subnets, instance, "subnetid") == Ok(row[3])
  {
    NamesRowCells(instance, vpcs, subnets, row);
  }

  /** The names table: one row per instance, in order; sorted by the
      requested column or else by InstanceId. It fails only while reading an
      accessor, building a facade or reading a Name tag. */
  lemma NamesTable(p: Provider, order: set<Value> -> seq<Value>, instances: seq<Facade>, sortby: string)
    ensures NamesSpec(p, order, instances, sortby).Ok? ==>
              var t := NamesSpec(p, order, instances, sortby).value;
              t.header == NamesHeader && |t.rows| == |instances| && t.hrules == Frame &&
              t.sortBy == Some(if sortby in NamesHeader then sortby else "InstanceId") &&
              forall i :: 0 <= i < |instances| ==> |t.rows[i]| == |NamesHeader| && t.rows[i][0] == Str(instances[i].resourceId)
  {
    if NamesSpec(p, order, instances, sortby).Ok? {
      var vpcs := MapAll(order(IdSet(instances, "vpcid").value), Instances.IdLoader(p, "Vpc")).value;
      var subnets := MapAll(order(IdSet(instances, "subnetid").value), Instances.IdLoader(p, "Subnet")).value;
      assert Distinct(NamesHeader);
      forall i | 0 <= i < |instances| && NamesRow(instances[i], vpcs, subnets).Ok?
        ensures |NamesRow(instances[i], vpcs, subnets).value| == |NamesHeader|
      {
        NamesRowCells(instances[i], vpcs, subnets, NamesRow(instances[i], vpcs, subnets).value);
      }
      MappedTable(instances, NamesRowOf(vpcs, subnets), NamesHeader, SortOr(sortby, "InstanceId"), ["InstanceName"], [], "");
      var t := NamesSpec(p, order, instances, sortby).value;
      forall i | 0 <= i < |instances|
        ensures |t.rows[i]| == |NamesHeader| && t.rows[i][0] == Str(instances[i].resourceId)
      {
        NamesRowCells(instances[i], vpcs, subnets, t.rows[i]);
      }
    }
  }

  /** A name cell of an instance: the Name tag of the facade loaded for the
      instance's field, or "" when the instance has no such field. */
  lemma CellResolves(p: Provider, resourceType: string, order: set<Value> -> seq<Value>, instances: seq<Facade>,
                     field: string, fs: seq<Facade>, i: nat, cell: Value)
    requires IsOrder(order) && i < |instances| && field in Ec2Instance.OptionalFields
    requires IdSet(instances, field).Ok?
    requires MapAll(order(IdSet(instances, field).value), Instances.IdLoader(p, resourceType)) == Ok(fs)
    requires NameCell(fs, instances[i], field) == Ok(cell)
    ensures var v := Optional(instances[i].metadata, Ec2Instance.OptionalFields[field]);
            (Truthy(v) ==> v.Str? && p.load(resourceType, v.s).Loaded? &&
                           Facade(resourceType, v.s, p.load(resourceType, v.s).data).TagName() == Ok(cell)) &&
            (!Truthy(v) ==> cell == Str(""))
  {
    var ids := IdSet(instances, field).value;
    IdSetMembers(instances, field, ids);
    NameCellField(fs, instances[i], field);
    Ec2Instance.OptionalAccessors(instances[i], field);
    ResolvedName(p, resourceType, order, ids, fs, Optional(instances[i].metadata, Ec2Instance.OptionalFields[field]));
  }

  /** The VpcName cell of an instance is the Name tag of the VPC loaded for
      the instance's VpcId, and "" when the instance has no VpcId; likewise
      the SubnetName cell with its SubnetId. */
  lemma NamesResolve(p: Provider, order: set<Value> -> seq<Value>, instances: seq<Facade>, sortby: string, i: nat)
    requires IsOrder(order) && NamesSpec(p, order, instances, sortby).Ok? && i < |instances|
    ensures var t := NamesSpec(p, order, instances, sortby).value;
            var vpcId := Optional(instances[i].metadata, "VpcId");
            |t.rows| == |instances| && |t.rows[i]| == |NamesHeader| &&
            (Truthy(vpcId) ==> vpcId.Str? && p.load("Vpc", vpcId.s).Loaded? &&
                               Facade("Vpc", vpcId.s, p.load("Vpc", vpcId.s).data).TagName() == Ok(t.rows[i][2])) &&
            (!Truthy(vpcId) ==> t.rows[i][2] == Str(""))
    ensures var t := NamesSpec(p, order, instances, sortby).value;
            var subnetId := Optional(instances[i].metadata, "SubnetId");
            |t.rows| == |instances| && |t.rows[i]| == |NamesHeader| &&
            (Truthy(subnetId) ==> subnetId.Str? && p.load("Subnet", subnetId.s).Loaded? &&
                                  Facade("Subnet", subnetId.s, p.load("Subnet", subnetId.s).data).TagName() == Ok(t.rows[i][3])) &&
            (!Truthy(subnetId) ==> t.rows[i][3] == Str(""))
  {
    var vpcs := MapAll(order(IdSet(instances, "vpcid").value), Instances.IdLoader(p, "Vpc")).value;
    var subnets := MapAll(order(IdSet(instances, "subnetid").value), Instances.IdLoader(p, "Subnet")).value;
    var t := NamesSpec(p, order, instances, sortby).value;
    assert Distinct(NamesHeader);
    TableOverRows(MapAll(instances, NamesRowOf(vpcs, subnets)), NamesHeader, SortOr(sortby, "InstanceId"), ["InstanceName"], [], "");
    MapAllAt(instances, NamesRowOf(vpcs, subnets), t.rows, i);
    NameCellsAt(instances[i], vpcs, subnets, t.rows[i]);
    CellResolves(p, "Vpc", order, instances, "vpcid", vpcs, i, t.rows[i][2]);
    CellResolves(p, "Subnet", order, instances, "subnetid", subnets, i, t.rows[i][3]);
  }
}
