/** The instance reports of aws_list/resources/instances.py that print one
    table row per instance, or per instance and volume: `show_instances_table`,
    `show_instances_ami`, `show_instances_volume` and `show_instances_secgroup`.
    Each takes the instance facades the command built, the provider where it
    builds more facades, and `--sortby`. */
module Instances {
  import opened Outcomes
  import opened Document
  import opened Aws
  import opened Pcof
  import opened Reports
  import Ec2Instance
  import Ec2Ami
  import Ec2Volume


  /** The loader of a facade whose id was read from metadata: only a string
      id is accepted, as the string concatenations of the program need. */
  function IdLoader(p: Provider, resourceType: string): Value -> Result<Facade>
  {
    v => var id :- AsStr(v); NewFacade(p, resourceType, id)
  }

  // ---------------------------------------------------------------------------
  // show_instances_table
  // ---------------------------------------------------------------------------

  const TableHeader: seq<string> :=
    ["InstanceId", "Tag_Name", "VpcId", "AvailabilityZone", "InstanceType", "InstanceState", "KeyName",
     "PrivateIpAddress", "LaunchTime"]

  function TableSpec(instances: seq<Facade>, sortby: string): Result<Table>
  {
    TableOver(MapAll(instances, RowOf(InstanceKind, TableHeader)), TableHeader, SortOr(sortby, "InstanceId"),
              ["PrivateIpAddress", "Tag_Name"], [], "")
  }

  method ShowInstancesTable(instances: seq<Facade>, sortby: string) returns (r: Result<Table>)
    ensures r == TableSpec(instances, sortby)
  {
    var rows :- ProjectRows(InstanceKind, instances, TableHeader);
    r := PrintTable(TableHeader, rows, SortOr(sortby, "InstanceId"), ["PrivateIpAddress", "Tag_Name"], [], "");
  }

  /** The first column of every instance table is the instance id. */
  lemma IdColumn(f: Facade)
    ensures Attr(InstanceKind, f, Lower("InstanceId")) == Ok(Str(f.resourceId))
  {
    assert Lower("InstanceId") == "instanceid";
  }

  /** The instance table: one row per instance, in order, each as wide as
      the header; sorted by the requested column or else by InstanceId.
      Only an accessor can make it fail. */
  lemma InstanceTable(instances: seq<Facade>, sortby: string)
    ensures TableSpec(instances, sortby).Ok? <==> MapAll(instances, RowOf(InstanceKind, TableHeader)).Ok?
    ensures TableSpec(instances, sortby).Ok? ==>
              var t := TableSpec(instances, sortby).value;
              t.header == TableHeader && MapAll(instances, RowOf(InstanceKind, TableHeader)) == Ok(t.rows) &&
              t.sortBy == Some(if sortby in TableHeader then sortby else "InstanceId")
  {
    TableHeaderDistinct();
    SortedByDefault(TableHeader, sortby, "InstanceId");
    FacadeTable(InstanceKind, instances, TableHeader, SortOr(sortby, "InstanceId"), ["PrivateIpAddress", "Tag_Name"], [], "");
  }

  lemma TableHeaderDistinct()
    ensures |TableHeader| == 9 && Distinct(TableHeader) && TableHeader[0] == "InstanceId" && "" !in TableHeader
  {
  }

  /** The first cell of every row is the id of its instance. */
  lemma InstanceTableIds(instances: seq<Facade>, sortby: string)
    requires TableSpec(instances, sortby).Ok?
    ensures var t := TableSpec(instances, sortby).value;
            |t.rows| == |instances| &&
            forall i :: 0 <= i < |instances| ==> |t.rows[i]| == |TableHeader| && t.rows[i][0] == Str(instances[i].resourceId)
  {
    InstanceTable(instances, sortby);
    ColumnCells(InstanceKind, instances, TableHeader, 0);
    forall i | 0 <= i < |instances| {
      IdColumn(instances[i]);
    }
  }

  // ---------------------------------------------------------------------------
  // Rows that join an instance with another facade
  // ---------------------------------------------------------------------------

  /** The columns of a report that shows, beside some columns of an
      instance, columns of another facade built from an id the instance
      holds: the instance's class and columns, the other facade's type and
      class, and its columns. */
  datatype Joined = Joined(ownKind: Kind, own: seq<string>, otherType: string, otherKind: Kind, other: seq<string>)

  /** The row of an instance joined with the facade built for the id that
      `id` reads: the instance's cells are computed before the id is. */
  function JoinRow(p: Provider, instance: Facade, j: Joined, id: Result<Value>): Result<seq<Value>>
  {
    var own :- MapAll(j.own, CellOf(j.ownKind, instance));
    var key :- id;
    var other :- IdLoader(p, j.otherType)(key);
    var rest :- MapAll(j.other, CellOf(j.otherKind, other));
    Ok(own + rest)
  }

  function JoinRowOf(p: Provider, instance: Facade, j: Joined): Value -> Result<seq<Value>>
  {
    id => JoinRow(p, instance, j, Ok(id))
  }

  /** The loop over the ids: one joined row per id, stopping at the first
      failure. */
  method BuildJoinRows(p: Provider, instance: Facade, j: Joined, ids: seq<Value>) returns (r: Result<seq<seq<Value>>>)
    ensures r == MapAll(ids, JoinRowOf(p, instance, j))
  {
    var rows: seq<seq<Value>> := [];
    for k := 0 to |ids|
      invariant MapAll(ids[..k], JoinRowOf(p, instance, j)) == Ok(rows)
    {
      var row := BuildJoinRow(p, instance, j, Ok(ids[k]));
      MapAllNext(ids, k, JoinRowOf(p, instance, j), rows, row);
      if row.Err? {
        return Err(row.error);
      }
      rows := rows + [row.value];
    }
    assert ids[..|ids|] == ids;
    return Ok(rows);
  }

  method BuildJoinRow(p: Provider, instance: Facade, j: Joined, id: Result<Value>) returns (r: Result<seq<Value>>)
    ensures r == JoinRow(p, instance, j, id)
  {
    var own :- ForEach(j.own, CellOf(j.ownKind, instance));
    var key :- id;
    var other :- IdLoader(p, j.otherType)(key);
    var rest :- ForEach(j.other, CellOf(j.otherKind, other));
    return Ok(own + rest);
  }

  /** A joined row exists exactly when the instance's cells do, `id` is a
      string the provider loads a facade for, and that facade's cells do;
      the row then has a cell per column of either part. */
  lemma JoinRowParts(p: Provider, instance: Facade, j: Joined, id: Value)
    ensures JoinRow(p, instance, j, Ok(id)).Ok? <==>
              MapAll(j.own, CellOf(j.ownKind, instance)).Ok? && id.Str? &&
              NewFacade(p, j.otherType, id.s).Ok? &&
              MapAll(j.other, CellOf(j.otherKind, NewFacade(p, j.otherType, id.s).value)).Ok?
    ensures JoinRow(p, instance, j, Ok(id)).Ok? ==>
              |JoinRow(p, instance, j, Ok(id)).value| == |j.own| + |j.other| &&
              p.load(j.otherType, id.s).Loaded? &&
              NewFacade(p, j.otherType, id.s) == Ok(Facade(j.otherType, id.s, p.load(j.otherType, id.s).data))
  {
    MapAllOk(j.own, CellOf(j.ownKind, instance));
    if id.Str? && NewFacade(p, j.otherType, id.s).Ok? {
      MapAllOk(j.other, CellOf(j.otherKind, NewFacade(p, j.otherType, id.s).value));
    }
  }

  /** Cell `k` of a joined row: the instance's accessor for its own columns,
      then the accessor of the facade loaded for `id`. */
  lemma JoinRowCell(p: Provider, instance: Facade, j: Joined, id: Value, k: nat)
    requires JoinRow(p, instance, j, Ok(id)).Ok?
    ensures id.Str? && |JoinRow(p, instance, j, Ok(id)).value| == |j.own| + |j.other|
    ensures var row := JoinRow(p, instance, j, Ok(id)).value;
            var other := Facade(j.otherType, id.s, p.load(j.otherType, id.s).data);
            (k < |j.own| ==> Attr(j.ownKind, instance, Lower(j.own[k])) == Ok(row[k])) &&
            (|j.own| <= k < |j.own| + |j.other| ==> Attr(j.otherKind, other, Lower(j.other[k - |j.own|])) == Ok(row[k]))
  {
    JoinRowParts(p, instance, j, id);
    if k < |j.own| {
      JoinRowOwnCell(p, instance, j, id, k);
    } else if k < |j.own| + |j.other| {
      JoinRowOtherCell(p, instance, j, id, k);
    }
  }

  lemma JoinRowOwnCell(p: Provider, instance: Facade, j: Joined, id: Value, k: nat)
    requires JoinRow(p, instance, j, Ok(id)).Ok? && k < |j.own|
    ensures k < |JoinRow(p, instance, j, Ok(id)).value|
    ensures Attr(j.ownKind, instance, Lower(j.own[k])) == Ok(JoinRow(p, instance, j, Ok(id)).value[k])
  {
    JoinRowParts(p, instance, j, id);
    RowCells(j.ownKind, instance, j.own);
  }

  lemma JoinRowOtherCell(p: Provider, instance: Facade, j: Joined, id: Value, k: nat)
    requires JoinRow(p, instance, j, Ok(id)).Ok? && |j.own| <= k < |j.own| + |j.other|
    ensures id.Str? && k < |JoinRow(p, instance, j, Ok(id)).value|
    ensures Attr(j.otherKind, Facade(j.otherType, id.s, p.load(j.otherType, id.s).data), Lower(j.other[k - |j.own|])) ==
            Ok(JoinRow(p, instance, j, Ok(id)).value[k])
  {
    JoinRowParts(p, instance, j, id);
    RowCells(j.otherKind, NewFacade(p, j.otherType, id.s).value, j.other);
  }

  /** `names` are the accessor names `columns` call: each column lowered. */
  predicate Lowered(columns: seq<string>, names: seq<string>)
  {
    |names| == |columns| && forall k :: 0 <= k < |names| ==> Lower(columns[k]) == names[k]
  }

  /** The cells of a joined row named by the accessors its columns call:
      `ownNames` and `otherNames` are the lowered column names. */
  lemma JoinRowNamed(p: Provider, instance: Facade, j: Joined, id: Value, ownNames: seq<string>, otherNames: seq<string>)
    requires JoinRow(p, instance, j, Ok(id)).Ok?
    requires Lowered(j.own, ownNames) && Lowered(j.other, otherNames)
    ensures id.Str? && p.load(j.otherType, id.s).Loaded?
    ensures var row := JoinRow(p, instance, j, Ok(id)).value;
            var other := Facade(j.otherType, id.s, p.load(j.otherType, id.s).data);
            |row| == |ownNames| + |otherNames| &&
            (forall k :: 0 <= k < |ownNames| ==> Attr(j.ownKind, instance, ownNames[k]) == Ok(row[k])) &&
            (forall k :: 0 <= k < |otherNames| ==> Attr(j.otherKind, other, otherNames[k]) == Ok(row[|ownNames| + k]))
  {
    JoinRowParts(p, instance, j, id);
    JoinRowOwnNamed(p, instance, j, id, ownNames);
    JoinRowOtherNamed(p, instance, j, id, ownNames, otherNames);
  }

  lemma JoinRowOwnNamed(p: Provider, instance: Facade, j: Joined, id: Value, ownNames: seq<string>)
    requires JoinRow(p, instance, j, Ok(id)).Ok? && Lowered(j.own, ownNames)
    ensures forall k :: 0 <= k < |ownNames| ==>
              k < |JoinRow(p, instance, j, Ok(id)).value| &&
              Attr(j.ownKind, instance, ownNames[k]) == Ok(JoinRow(p, instance, j, Ok(id)).value[k])
  {
    forall k | 0 <= k < |ownNames|
      ensures k < |JoinRow(p, instance, j, Ok(id)).value|
      ensures Attr(j.ownKind, instance, ownNames[k]) == Ok(JoinRow(p, instance, j, Ok(id)).value[k])
    {
      JoinRowCell(p, instance, j, id, k);
    }
  }

  lemma JoinRowOtherNamed(p: Provider, instance: Facade, j: Joined, id: Value, ownNames: seq<string>, otherNames: seq<string>)
    requires JoinRow(p, instance, j, Ok(id)).Ok? && Lowered(j.own, ownNames) && Lowered(j.other, otherNames)
    ensures id.Str?
    ensures forall k :: 0 <= k < |otherNames| ==>
              |ownNames| + k < |JoinRow(p, instance, j, Ok(id)).value| &&
              Attr(j.otherKind, Facade(j.otherType, id.s, p.load(j.otherType, id.s).data), otherNames[k]) ==
              Ok(JoinRow(p, instance, j, Ok(id)).value[|ownNames| + k])
  {
    JoinRowParts(p, instance, j, id);
    forall k | 0 <= k < |otherNames|
      ensures |ownNames| + k < |JoinRow(p, instance, j, Ok(id)).value|
      ensures Attr(j.otherKind, Facade(j.otherType, id.s, p.load(j.otherType, id.s).data), otherNames[k]) ==
              Ok(JoinRow(p, instance, j, Ok(id)).value[|ownNames| + k])
    {
      JoinRowCell(p, instance, j, id, |ownNames| + k);
    }
  }

  /** A joined row exists only when its id was read. */
  lemma JoinRowRead(p: Provider, instance: Facade, j: Joined, id: Result<Value>)
    requires JoinRow(p, instance, j, id).Ok?
    ensures id.Ok? && JoinRow(p, instance, j, id) == JoinRow(p, instance, j, Ok(id.value))
  {
  }

  /** JoinRowNamed for an id that is read, and may fail to be read. */
  lemma JoinRowNamedBy(p: Provider, instance: Facade, j: Joined, id: Result<Value>,
                       ownNames: seq<string>, otherNames: seq<string>, row: seq<Value>)
    requires JoinRow(p, instance, j, id) == Ok(row)
    requires Lowered(j.own, ownNames) && Lowered(j.other, otherNames)
    ensures id.Ok? && id.value.Str? && p.load(j.otherType, id.value.s).Loaded?
    ensures |row| == |ownNames| + |otherNames|
    ensures forall k :: 0 <= k < |ownNames| ==> Attr(j.ownKind, instance, ownNames[k]) == Ok(row[k])
    ensures forall k :: 0 <= k < |otherNames| ==>
              Attr(j.otherKind, Facade(j.otherType, id.value.s, p.load(j.otherType, id.value.s).data), otherNames[k]) ==
              Ok(row[|ownNames| + k])
  {
    JoinRowRead(p, instance, j, id);
    JoinRowNamed(p, instance, j, id.value, ownNames, otherNames);
  }

  /** The first of `columns` is the facade's own id. */
  ghost predicate LeadsWithId(kind: Kind, columns: seq<string>)
  {
    |columns| > 0 && forall f: Facade :: Attr(kind, f, Lower(columns[0])) == Ok(Str(f.resourceId))
  }

  /** When both parts lead with their facade's id, a joined row starts with
      the instance id and its other part with `id`. */
  lemma JoinRowIds(p: Provider, instance: Facade, j: Joined, id: Value)
    requires JoinRow(p, instance, j, Ok(id)).Ok? && LeadsWithId(j.ownKind, j.own) && LeadsWithId(j.otherKind, j.other)
    ensures id.Str? && p.load(j.otherType, id.s).Loaded?
    ensures var row := JoinRow(p, instance, j, Ok(id)).value;
            |row| == |j.own| + |j.other| && row[0] == Str(instance.resourceId) && row[|j.own|] == id
  {
    JoinRowParts(p, instance, j, id);
    JoinRowCell(p, instance, j, id, 0);
    JoinRowCell(p, instance, j, id, |j.own|);
  }

  /** Every row of a successful join loop names the instance and its id. */
  lemma JoinRowsIds(p: Provider, instance: Facade, j: Joined, ids: seq<Value>)
    requires MapAll(ids, JoinRowOf(p, instance, j)).Ok?
    requires LeadsWithId(j.ownKind, j.own) && LeadsWithId(j.otherKind, j.other)
    ensures var rows := MapAll(ids, JoinRowOf(p, instance, j)).value;
            |rows| == |ids| &&
            forall k :: 0 <= k < |ids| ==>
              |rows[k]| == |j.own| + |j.other| && rows[k][0] == Str(instance.resourceId) && rows[k][|j.own|] == ids[k]
  {
    var rows := MapAll(ids, JoinRowOf(p, instance, j)).value;
    MapAllOk(ids, JoinRowOf(p, instance, j));
    forall k | 0 <= k < |ids|
      ensures |rows[k]| == |j.own| + |j.other| && rows[k][0] == Str(instance.resourceId) && rows[k][|j.own|] == ids[k]
    {
      JoinRowIds(p, instance, j, ids[k]);
    }
  }

  // ---------------------------------------------------------------------------
  // show_instances_ami
  // ---------------------------------------------------------------------------

  const AmiHeader: seq<string> := ["InstanceId", "Tag_Name", "ImageId", "Description", "OwnerId", "ImageOwnerAlias"]

  /** Three instance columns, then three columns of the image. */
  const AmiOwnColumns: seq<string> := ["InstanceId", "Tag_Name", "ImageId"]
  const AmiImageColumns: seq<string> := ["Description", "OwnerId", "ImageOwnerAlias"]
  const AmiJoin: Joined := Joined(InstanceKind, AmiOwnColumns, "Image", AmiKind, AmiImageColumns)

  /** One row: the instance joined with the image of its ImageId. */
  function AmiRow(p: Provider, instance: Facade): Result<seq<Value>>
  {
    JoinRow(p, instance, AmiJoin, Ec2Instance.ImageId(instance))
  }

  function AmiRowOf(p: Provider): Facade -> Result<seq<Value>>
  {
    ImageRowOf(p, AmiJoin)
  }

  /** The row of an instance joined by `j` with the image `imageid()` names. */
  function ImageRowOf(p: Provider, j: Joined): Facade -> Result<seq<Value>>
  {
    f => JoinRow(p, f, j, Ec2Instance.ImageId(f))
  }

  function AmiSpec(p: Provider, instances: seq<Facade>, sortby: string): Result<Table>
  {
    TableOver(MapAll(instances, AmiRowOf(p)), AmiHeader, SortOr(sortby, "InstanceId"), ["Description", "Tag_Name"], [], "")
  }

  /** The loop over the instances: one joined row per instance, stopping at
      the first failure. */
  method BuildImageRows(p: Provider, j: Joined, instances: seq<Facade>) returns (r: Result<seq<seq<Value>>>)
    ensures r == MapAll(instances, ImageRowOf(p, j))
  {
    var rows: seq<seq<Value>> := [];
    for i := 0 to |instances|
      invariant MapAll(instances[..i], ImageRowOf(p, j)) == Ok(rows)
    {
      var row := BuildJoinRow(p, instances[i], j, Ec2Instance.ImageId(instances[i]));
      MapAllNext(instances, i, ImageRowOf(p, j), rows, row);
      if row.Err? {
        return Err(row.error);
      }
      rows := rows + [row.value];
    }
    assert instances[..|instances|] == instances;
    return Ok(rows);
  }

  method ShowInstancesAmi(p: Provider, instances: seq<Facade>, sortby: string) returns (r: Result<Table>)
    ensures r == AmiSpec(p, instances, sortby)
  {
    var rows :- BuildImageRows(p, AmiJoin, instances);
    r := PrintTable(AmiHeader, rows, SortOr(sortby, "InstanceId"), ["Description", "Tag_Name"], [], "");
  }

  /** The accessors the image report calls on the instance and the image. */
  const AmiOwnNames: seq<string> := ["instanceid", "tag_name", "imageid"]
  const AmiImageNames: seq<string> := ["description", "ownerid", "imageowneralias"]

  lemma AmiColumns()
    ensures AmiJoin.own + AmiJoin.other == AmiHeader
    ensures Lowered(AmiJoin.own, AmiOwnNames) && Lowered(AmiJoin.other, AmiImageNames)
    ensures AmiJoin.ownKind == InstanceKind && AmiJoin.otherKind == AmiKind && AmiJoin.otherType == "Image"
    ensures ReadsImageId(AmiJoin.ownKind, AmiOwnNames[2])
  {
    ImageIdColumn();
    AmiJoinColumns();
    AmiOwnLowered();
    AmiImageLowered();
  }

  lemma AmiJoinColumns()
    ensures AmiJoin.own == AmiOwnColumns && AmiJoin.other == AmiImageColumns
    ensures AmiOwnColumns + AmiImageColumns == AmiHeader
  {
  }

  lemma AmiOwnLowered()
    ensures Lowered(AmiOwnColumns, AmiOwnNames)
  {
    assert Lower("InstanceId") == "instanceid";
    assert Lower("Tag_Name") == "tag_name";
    assert Lower("ImageId") == "imageid";
  }

  lemma AmiImageLowered()
    ensures Lowered(AmiImageColumns, AmiImageNames)
  {
    assert Lower("Description") == "description";
    assert Lower("OwnerId") == "ownerid";
    assert Lower("ImageOwnerAlias") == "imageowneralias";
  }

  /** The accessor `name` of `kind` is `imageid()`. */
  ghost predicate ReadsImageId(kind: Kind, name: string)
  {
    forall f: Facade :: Attr(kind, f, name) == Ec2Instance.ImageId(f)
  }

  /** The ImageId column and `instance.imageid()` read the same field. */
  lemma ImageIdColumn()
    ensures ReadsImageId(InstanceKind, "imageid")
  {
    forall f: Facade ensures Attr(InstanceKind, f, "imageid") == Ec2Instance.ImageId(f) {
      ImageIdCell(f);
    }
  }

  lemma ImageIdCell(f: Facade)
    ensures Attr(InstanceKind, f, "imageid") == Ec2Instance.ImageId(f)
  {
  }

  /** A row joined on `imageid()` whose own column `m` is ImageId pairs the
      instance with its image: its own cells are the instance's accessors,
      cell `m` is the image id, a string the provider loads, and the other
      cells are the accessors of the image loaded for it. */
  lemma ImageRowParts(p: Provider, j: Joined, instance: Facade, ownNames: seq<string>, otherNames: seq<string>,
                      m: nat, row: seq<Value>)
    requires JoinRow(p, instance, j, Ec2Instance.ImageId(instance)) == Ok(row)
    requires Lowered(j.own, ownNames) && Lowered(j.other, otherNames)
    requires m < |ownNames| && ReadsImageId(j.ownKind, ownNames[m])
    ensures |row| == |ownNames| + |otherNames| && row[m].Str? && p.load(j.otherType, row[m].s).Loaded?
    ensures Ec2Instance.ImageId(instance) == Ok(row[m])
    ensures forall k :: 0 <= k < |ownNames| ==> Attr(j.ownKind, instance, ownNames[k]) == Ok(row[k])
    ensures forall k :: 0 <= k < |otherNames| ==>
              Attr(j.otherKind, Facade(j.otherType, row[m].s, p.load(j.otherType, row[m].s).data), otherNames[k]) ==
              Ok(row[|ownNames| + k])
  {
    JoinRowNamedBy(p, instance, j, Ec2Instance.ImageId(instance), ownNames, otherNames, row);
  }

  /** Each row is as wide as the header. */
  lemma AmiRowsFit(p: Provider, instances: seq<Facade>)
    ensures forall i :: 0 <= i < |instances| && AmiRowOf(p)(instances[i]).Ok? ==>
              |AmiRowOf(p)(instances[i]).value| == |AmiHeader|
  {
    AmiJoinColumns();
    ImageRowsFit(p, AmiJoin, instances);
  }

  /** Every joined row has a cell per column of either part. */
  lemma ImageRowsFit(p: Provider, j: Joined, instances: seq<Facade>)
    ensures forall i :: 0 <= i < |instances| && ImageRowOf(p, j)(instances[i]).Ok? ==>
              |ImageRowOf(p, j)(instances[i]).value| == |j.own| + |j.other|
  {
    forall i | 0 <= i < |instances| && ImageRowOf(p, j)(instances[i]).Ok?
      ensures |ImageRowOf(p, j)(instances[i]).value| == |j.own| + |j.other|
    {
      var id := Ec2Instance.ImageId(instances[i]);
      JoinRowRead(p, instances[i], j, id);
      JoinRowParts(p, instances[i], j, id.value);
    }
  }

  lemma AmiHeaderDistinct()
    ensures |AmiHeader| == 6 && Distinct(AmiHeader) && AmiHeader[0] == "InstanceId" && "" !in AmiHeader
  {
  }

  /** The image table: one row per instance, in order, as AmiRow builds it;
      sorted by the requested column or else by InstanceId. */
  lemma AmiTable(p: Provider, instances: seq<Facade>, sortby: string)
    ensures AmiSpec(p, instances, sortby).Ok? <==> MapAll(instances, AmiRowOf(p)).Ok?
    ensures AmiSpec(p, instances, sortby).Ok? ==>
              var t := AmiSpec(p, instances, sortby).value;
              t.header == AmiHeader && |t.rows| == |instances| &&
              t.sortBy == Some(if sortby in AmiHeader then sortby else "InstanceId") &&
              forall i :: 0 <= i < |instances| ==> AmiRow(p, instances[i]) == Ok(t.rows[i])
  {
    AmiHeaderDistinct();
    SortedByDefault(AmiHeader, sortby, "InstanceId");
    AmiRowsFit(p, instances);
    MappedTable(instances, AmiRowOf(p), AmiHeader, SortOr(sortby, "InstanceId"), ["Description", "Tag_Name"], [], "");
  }

  // ---------------------------------------------------------------------------
  // show_instances_volume
  // ---------------------------------------------------------------------------

  const VolumeHeader: seq<string> :=
    ["InstanceId", "Tag_Name", "VolumeId", "Size", "VolumeType", "Device", "State", "DeleteOnTermination"]

  /** Two instance columns, then six columns of the volume. */
  const VolumeOwnColumns: seq<string> := ["InstanceId", "Tag_Name"]
  const VolumeColumns: seq<string> := ["VolumeId", "Size", "VolumeType", "Device", "State", "DeleteOnTermination"]
  const VolumeJoin: Joined := Joined(InstanceKind, VolumeOwnColumns, "Volume", VolumeKind, VolumeColumns)

  function VolumeRowOf(p: Provider, instance: Facade): Value -> Result<seq<Value>>
  {
    JoinRowOf(p, instance, VolumeJoin)
  }

  /** The rows of one instance: one per volume id, in mapping order. */
  function VolumeRows(p: Provider, instance: Facade): Result<seq<seq<Value>>>
  {
    var ids :- Ec2Instance.GetVolumesIds(instance);
    MapAll(ids, VolumeRowOf(p, instance))
  }

  function VolumeRowsOf(p: Provider): Facade -> Result<seq<seq<Value>>>
  {
    f => VolumeRows(p, f)
  }

  function VolumeSpec(p: Provider, instances: seq<Facade>, sortby: string): Result<Table>
  {
    TableOver(FlatMapAll(instances, VolumeRowsOf(p)), VolumeHeader, SortOr(sortby, "InstanceId"), ["Tag_Name"], ["Size"], "")
  }

  method BuildVolumeRows(p: Provider, instance: Facade) returns (r: Result<seq<seq<Value>>>)
    ensures r == VolumeRows(p, instance)
  {
    var ids :- Ec2Instance.GetVolumesIds(instance);
    r := BuildJoinRows(p, instance, VolumeJoin, ids);
  }

  method ShowInstancesVolume(p: Provider, instances: seq<Facade>, sortby: string) returns (r: Result<Table>)
    ensures r == VolumeSpec(p, instances, sortby)
  {
    var rows: seq<seq<Value>> := [];
    ghost var blocks: seq<seq<seq<Value>>> := [];
    for i := 0 to |instances|
      invariant MapAll(instances[..i], VolumeRowsOf(p)) == Ok(blocks)
      invariant rows == Flatten(blocks)
    {
      var block := BuildVolumeRows(p, instances[i]);
      MapAllNext(instances, i, VolumeRowsOf(p), blocks, block);
      if block.Err? {
        return Err(block.error);
      }
      FlattenStep(blocks, block.value);
      rows := rows + block.value;
      blocks := blocks + [block.value];
    }
    assert instances[..|instances|] == instances;
    r := PrintTable(VolumeHeader, rows, SortOr(sortby, "InstanceId"), ["Tag_Name"], ["Size"], "");
  }

  /** The instance part and the volume part each lead with their id. */
  lemma VolumeJoinIds()
    ensures VolumeJoin.own + VolumeJoin.other == VolumeHeader
    ensures |VolumeJoin.own| == 2 && |VolumeJoin.other| == 6
    ensures LeadsWithId(InstanceKind, VolumeJoin.own) && LeadsWithId(VolumeKind, VolumeJoin.other)
  {
    VolumeJoinColumns();
    VolumeHeaderColumns();
    InstanceLeadsWithId(VolumeOwnColumns);
    VolumeLeadsWithId();
  }

  lemma VolumeJoinColumns()
    ensures VolumeJoin.own == VolumeOwnColumns && VolumeJoin.other == VolumeColumns
  {
  }

  lemma VolumeHeaderColumns()
    ensures VolumeOwnColumns + VolumeColumns == VolumeHeader
    ensures |VolumeOwnColumns| == 2 && |VolumeColumns| == 6 && VolumeOwnColumns[0] == "InstanceId"
  {
  }

  lemma InstanceLeadsWithId(columns: seq<string>)
    requires |columns| > 0 && columns[0] == "InstanceId"
    ensures LeadsWithId(InstanceKind, columns)
  {
    forall f: Facade
      ensures Attr(InstanceKind, f, Lower(columns[0])) == Ok(Str(f.resourceId))
    {
      IdColumn(f);
    }
  }

  lemma VolumeLeadsWithId()
    ensures LeadsWithId(VolumeKind, VolumeColumns)
  {
    assert Lower("VolumeId") == "volumeid";
    forall f: Facade
      ensures Attr(VolumeKind, f, "volumeid") == Ok(Str(f.resourceId))
    {
      Ec2Volume.RequiredAccessors(f, "size");
    }
  }

  /** An instance contributes one row per volume id of its block device
      mappings, in mapping order, each naming the instance and the volume;
      an instance without mappings contributes no row. */
  lemma InstanceVolumeRows(p: Provider, instance: Facade)
    ensures Get(instance.metadata, "BlockDeviceMappings") == Ok(List([])) ==> VolumeRows(p, instance) == Ok([])
    ensures VolumeRows(p, instance).Ok? ==>
              var ids := Ec2Instance.GetVolumesIds(instance).value;
              var rows := VolumeRows(p, instance).value;
              |rows| == |ids| &&
              forall k :: 0 <= k < |ids| ==> |rows[k]| == 8 && rows[k][0] == Str(instance.resourceId) && rows[k][2] == ids[k]
  {
    if VolumeRows(p, instance).Ok? {
      var ids := Ec2Instance.GetVolumesIds(instance).value;
      var rows := VolumeRows(p, instance).value;
      VolumeJoinIds();
      JoinRowsIds(p, instance, VolumeJoin, ids);
    }
  }

  /** The volume table: the rows of every instance in turn, as many in all
      as the instances have volumes; sorted by the requested column or else
      by InstanceId. */
  lemma VolumeTable(p: Provider, instances: seq<Facade>, sortby: string)
    ensures VolumeSpec(p, instances, sortby).Ok? <==> MapAll(instances, VolumeRowsOf(p)).Ok?
    ensures VolumeSpec(p, instances, sortby).Ok? ==>
              var blocks := MapAll(instances, VolumeRowsOf(p)).value;
              var t := VolumeSpec(p, instances, sortby).value;
              t.header == VolumeHeader && t.rows == Flatten(blocks) && |t.rows| == TotalLength(blocks) &&
              |blocks| == |instances| &&
              (forall i :: 0 <= i < |instances| ==> VolumeRows(p, instances[i]) == Ok(blocks[i])) &&
              t.sortBy == Some(if sortby in VolumeHeader then sortby else "InstanceId")
  {
    VolumeHeaderDistinct();
    SortedByDefault(VolumeHeader, sortby, "InstanceId");
    VolumeBlocksFit(p, instances);
    FlatMappedTable(instances, VolumeRowsOf(p), VolumeHeader, SortOr(sortby, "InstanceId"), ["Tag_Name"], ["Size"], "");
  }

  lemma VolumeHeaderDistinct()
    ensures |VolumeHeader| == 8 && Distinct(VolumeHeader) && VolumeHeader[0] == "InstanceId" && "" !in VolumeHeader
  {
  }

  /** Every instance's block of rows is as wide as the header. */
  lemma VolumeBlocksFit(p: Provider, instances: seq<Facade>)
    ensures forall i :: 0 <= i < |instances| && VolumeRowsOf(p)(instances[i]).Ok? ==>
              RowsFit(VolumeHeader, VolumeRowsOf(p)(instances[i]).value)
  {
    forall i | 0 <= i < |instances| && VolumeRowsOf(p)(instances[i]).Ok?
      ensures RowsFit(VolumeHeader, VolumeRowsOf(p)(instances[i]).value)
    {
      InstanceVolumeRows(p, instances[i]);
    }
  }

  /** Size is aligned right, Tag_Name left, every other column centred. */
  lemma VolumeAlign(p: Provider, instances: seq<Facade>, sortby: string, c: string)
    requires VolumeSpec(p, instances, sortby).Ok? && c in VolumeHeader
    ensures var align := VolumeSpec(p, instances, sortby).value.align;
            c in align && align[c] == (if c == "Size" then Right else if c == "Tag_Name" then Left else Center)
  {
    var rows := FlatMapAll(instances, VolumeRowsOf(p)).value;
    TableAlign(VolumeHeader, rows, SortOr(sortby, "InstanceId"), ["Tag_Name"], ["Size"], "", c);
  }

  // ---------------------------------------------------------------------------
  // show_instances_secgroup
  // ---------------------------------------------------------------------------

  const SecGroupHeader: seq<string> := ["InstanceId", "Tag_Name", "SecurityGroups"]

  /** The line of one security group: `GroupId -> GroupName`. */
  function GroupLine(group: Value): Result<string>
  {
    var id :- Subscript(group, "GroupId");
    var idText :- AsStr(id);
    var name :- Subscript(group, "GroupName");
    var nameText :- AsStr(name);
    Ok(idText + " -> " + nameText)
  }

  /** The SecurityGroups cell: one line per group, in order. */
  function GroupsCell(instance: Facade): Result<Value>
  {
    var groups :- Ec2Instance.Accessor(instance, "securitygroups");
    var gs :- Items(groups);
    var lines :- MapAll(gs, GroupLine);
    Ok(Str(Join(lines, "\n")))
  }

  function SecGroupCellOf(instance: Facade): string -> Result<Value>
  {
    column => if column == "SecurityGroups" then GroupsCell(instance) else Attr(InstanceKind, instance, Lower(column))
  }

  /** One row: a cell per header column, in header order. */
  function SecGroupRow(instance: Facade): Result<seq<Value>>
  {
    MapAll(SecGroupHeader, SecGroupCellOf(instance))
  }

  function SecGroupSpec(instances: seq<Facade>, sortby: string): Result<Table>
  {
    TableOver(MapAll(instances, SecGroupRow), SecGroupHeader, SortOr(sortby, "InstanceId"),
              ["Tag_Name", "SecurityGroups"], [], "ALL")
  }

  /** Every group line holds " -> ", so none is empty. */
  lemma GroupLinesNonEmpty(gs: seq<Value>)
    requires MapAll(gs, GroupLine).Ok?
    ensures AllNonEmpty(MapAll(gs, GroupLine).value)
  {
    MapAllOk(gs, GroupLine);
    var lines := MapAll(gs, GroupLine).value;
    forall i | 0 <= i < |lines|
      ensures lines[i] != ""
    {
      GroupLineNonEmpty(gs[i]);
    }
  }

  lemma GroupLineNonEmpty(group: Value)
    requires GroupLine(group).Ok?
    ensures GroupLine(group).value != ""
  {
  }

  /** One step of a join by hand keeps the text equal to the join. */
  lemma JoinStep(lines: seq<string>, text: string, line: string)
    requires AllNonEmpty(lines) && text == Join(lines, "\n") && line != ""
    ensures AllNonEmpty(lines + [line])
    ensures (if text != "" then text + "\n" else text) + line == Join(lines + [line], "\n")
  {
    JoinByHand(lines, line, "\n");
    AllNonEmptyAppend(lines, [line]);
  }

  /** The cell built by hand, as the program does: a newline before every
      line but the first. */
  method GroupsText(instance: Facade) returns (r: Result<Value>)
    ensures r == GroupsCell(instance)
  {
    var groups :- Ec2Instance.Accessor(instance, "securitygroups");
    var gs :- Items(groups);
    var text := "";
    ghost var lines: seq<string> := [];
    for k := 0 to |gs|
      invariant MapAll(gs[..k], GroupLine) == Ok(lines)
      invariant AllNonEmpty(lines) && text == Join(lines, "\n")
    {
      var line := GroupLine(gs[k]);
      MapAllNext(gs, k, GroupLine, lines, line);
      if line.Err? {
        return Err(line.error);
      }
      GroupLineNonEmpty(gs[k]);
      JoinStep(lines, text, line.value);
      if text != "" {
        text := text + "\n";
      }
      text := text + line.value;
      lines := lines + [line.value];
    }
    assert gs[..|gs|] == gs;
    return Ok(Str(text));
  }

  /** The loop over the header's columns, given the header. */
  method BuildSecGroupRow(instance: Facade, header: seq<string>) returns (r: Result<seq<Value>>)
    ensures r == MapAll(header, SecGroupCellOf(instance))
  {
    var row: seq<Value> := [];
    for j := 0 to |header|
      invariant MapAll(header[..j], SecGroupCellOf(instance)) == Ok(row)
    {
      var cell: Result<Value>;
      if header[j] == "SecurityGroups" {
        cell := GroupsText(instance);
      } else {
        cell := Attr(InstanceKind, instance, Lower(header[j]));
      }
      MapAllNext(header, j, SecGroupCellOf(instance), row, cell);
      if cell.Err? {
        return Err(cell.error);
      }
      row := row + [cell.value];
    }
    assert header[..|header|] == header;
    return Ok(row);
  }

  method ShowInstancesSecgroup(instances: seq<Facade>, sortby: string) returns (r: Result<Table>)
    ensures r == SecGroupSpec(instances, sortby)
  {
    var rows: seq<seq<Value>> := [];
    for i := 0 to |instances|
      invariant MapAll(instances[..i], SecGroupRow) == Ok(rows)
    {
      var row := BuildSecGroupRow(instances[i], SecGroupHeader);
      MapAllNext(instances, i, SecGroupRow, rows, row);
      if row.Err? {
        return Err(row.error);
      }
      rows := rows + [row.value];
    }
    assert instances[..|instances|] == instances;
    r := PrintTable(SecGroupHeader, rows, SortOr(sortby, "InstanceId"), ["Tag_Name", "SecurityGroups"], [], "ALL");
  }

  /** A group line exists exactly for a dictionary whose GroupId and
      GroupName are strings, and is `id -> name`. */
  lemma GroupLineShape(group: Value)
    ensures GroupLine(group).Ok? <==>
              group.Map? && Get(group.entries, "GroupId").Ok? && Get(group.entries, "GroupId").value.Str? &&
              Get(group.entries, "GroupName").Ok? && Get(group.entries, "GroupName").value.Str?
    ensures GroupLine(group).Ok? ==>
              GroupLine(group).value ==
                Get(group.entries, "GroupId").value.s + " -> " + Get(group.entries, "GroupName").value.s
  {
  }

  /** The SecurityGroups cell lists one line per group of the instance, in
      order: "" for an instance without groups, and lines that split back
      apart at the newlines when no id or name holds one. */
  lemma {:induction false} GroupsCellLines(instance: Facade, gs: seq<Value>)
    requires Get(instance.metadata, "SecurityGroups") == Ok(List(gs)) && MapAll(gs, GroupLine).Ok?
    ensures var lines := MapAll(gs, GroupLine).value;
            GroupsCell(instance) == Ok(Str(Join(lines, "\n"))) && |lines| == |gs| &&
            (forall k :: 0 <= k < |gs| ==> GroupLine(gs[k]) == Ok(lines[k])) &&
            (gs == [] ==> GroupsCell(instance) == Ok(Str(""))) &&
            (gs != [] && (forall k :: 0 <= k < |gs| ==> '\n' !in lines[k]) ==> Split(Join(lines, "\n"), '\n') == lines)
  {
    var lines := MapAll(gs, GroupLine).value;
    MapAllOk(gs, GroupLine);
    Ec2Instance.RequiredAccessors(instance, "securitygroups");
    if gs != [] && (forall k :: 0 <= k < |gs| ==> '\n' !in lines[k]) {
      SplitJoin(lines, '\n');
    }
  }

  /** A row has three cells: the instance id, its Tag_Name, and its
      SecurityGroups cell. */
  lemma SecGroupRowCells(instance: Facade, row: seq<Value>)
    requires SecGroupRow(instance) == Ok(row)
    ensures |row| == 3 && row[0] == Str(instance.resourceId) && GroupsCell(instance) == Ok(row[2])
  {
    MapAllAt(SecGroupHeader, SecGroupCellOf(instance), row, 0);
    MapAllAt(SecGroupHeader, SecGroupCellOf(instance), row, 2);
    IdColumn(instance);
  }

  /** The security group table: one row per instance, in order, whose third
      cell is the instance's SecurityGroups cell; a rule between every row;
      sorted by the requested column or else by InstanceId. */
  lemma SecGroupTable(instances: seq<Facade>, sortby: string)
    ensures SecGroupSpec(instances, sortby).Ok? <==> MapAll(instances, SecGroupRow).Ok?
    ensures SecGroupSpec(instances, sortby).Ok? ==>
              var t := SecGroupSpec(instances, sortby).value;
              t.header == SecGroupHeader && |t.rows| == |instances| && t.hrules == All &&
              t.sortBy == Some(if sortby in SecGroupHeader then sortby else "InstanceId") &&
              forall i :: 0 <= i < |instances| ==> SecGroupRow(instances[i]) == Ok(t.rows[i])
  {
    assert Distinct(SecGroupHeader);
    forall i | 0 <= i < |instances| && SecGroupRow(instances[i]).Ok?
      ensures |SecGroupRow(instances[i]).value| == |SecGroupHeader|
    {
      SecGroupRowCells(instances[i], SecGroupRow(instances[i]).value);
    }
    MappedTable(instances, SecGroupRow, SecGroupHeader, SortOr(sortby, "InstanceId"), ["Tag_Name", "SecurityGroups"], [], "ALL");
  }
}
