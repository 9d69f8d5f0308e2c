/** `cmd_list_volumes` of aws_list/resources/volumes.py: lists the volumes,
    or shows their metadata with `--detail`. */
module Volumes {
  import opened Outcomes
  import opened Document
  import opened Aws
  import opened Pcof
  import opened Reports
  import Ec2Volume

  const Header: seq<string> :=
    ["VolumeId", "VolumeType", "State", "AvailabilityZone", "Size", "CreateTime", "InstanceId", "Device",
     "DeleteOnTermination"]

  const NotFound: string := "Error: No volumes found"

  /** The command's constants: collection, facade type, message, header,
      default sort column, right-aligned columns. */
  const Command: Listing :=
    Listing("volumes", "Volume", VolumeKind, NotFound, Header, "InstanceId", [], ["Size"], "")

  method CmdListVolumes(p: Provider, args: Args) returns (r: Result<Report>)
    ensures r == ListSpec(p, args, Command)
    ensures QueryIds(p, "volumes", FilterName(args), FilterValue(args)) == Ok([]) ==> r == Err(Exit(NotFound))
  {
    FoundFacades(p, args, "volumes", "Volume", NotFound);
    r := ListResources(p, args, Command);
  }

  /** Every column of the header names an accessor of the volume class, so
      no cell fails with AttributeError. */
  lemma ColumnsDefined()
    ensures forall j :: 0 <= j < |Header| ==> Lower(Header[j]) in Ec2Volume.Names
  {
    FirstColumnsDefined();
    LastColumnsDefined();
  }

  lemma FirstColumnsDefined()
    ensures forall j :: 0 <= j < 5 ==> Lower(Header[j]) in Ec2Volume.Names
  {
    assert Lower("VolumeId") == "volumeid";
    assert Lower("VolumeType") == "volumetype";
    assert Lower("State") == "state";
    assert Lower("AvailabilityZone") == "availabilityzone";
    assert Lower("Size") == "size";
  }

  lemma LastColumnsDefined()
    ensures forall j :: 5 <= j < |Header| ==> Lower(Header[j]) in Ec2Volume.Names
  {
    assert Lower("CreateTime") == "createtime";
    assert Lower("InstanceId") == "instanceid";
    assert Lower("Device") == "device";
    assert Lower("DeleteOnTermination") == "deleteontermination";
  }

  /** The volume table: the fixed header, sorted by the requested column or
      else by the attached InstanceId; a sort column the table does not have
      falls back to the first column, VolumeId. Only building the facades or
      computing a cell can fail. */
  lemma VolumeTable(p: Provider, args: Args)
    requires !args.detail
    ensures var found := Found(p, args, "volumes", "Volume", NotFound);
            ListSpec(p, args, Command).Ok? <==> found.Ok? && MapAll(found.value, RowOf(VolumeKind, Header)).Ok?
    ensures ListSpec(p, args, Command).Ok? ==>
              var t := ListSpec(p, args, Command).value.table;
              ListSpec(p, args, Command).value.Shown? && t.header == Header && t.hrules == Frame &&
              t.sortBy == Some(if args.sortby == "" then "InstanceId"
                               else if args.sortby in Header then args.sortby else "VolumeId")
  {
    assert Distinct(Header);
    ListingTable(p, args, Command);
  }

  /** The first column is the volume id. */
  lemma IdColumn(f: Facade)
    ensures Attr(VolumeKind, f, Lower(Header[0])) == Ok(Str(f.resourceId))
  {
    assert Lower(Header[0]) == "volumeid";
  }

  /** The first cell of every row is the volume id the query returned. */
  lemma VolumeRows(p: Provider, args: Args)
    requires !args.detail && ListSpec(p, args, Command).Ok?
    ensures var ids := QueryIds(p, "volumes", FilterName(args), FilterValue(args)).value;
            var t := ListSpec(p, args, Command).value.table;
            |t.rows| == |ids| &&
            forall i :: 0 <= i < |ids| ==> |t.rows[i]| == |Header| && t.rows[i][0] == Str(ids[i])
  {
    forall f: Facade ensures Attr(VolumeKind, f, Lower(Header[0])) == Ok(Str(f.resourceId)) {
      IdColumn(f);
    }
    ListingIds(p, args, Command);
  }

  /** Size is aligned right, every other column is centred. */
  lemma VolumeAlign(p: Provider, args: Args, c: string)
    requires ListSpec(p, args, Command).Ok? && ListSpec(p, args, Command).value.Shown?
    requires c in Header
    ensures var align := ListSpec(p, args, Command).value.table.align;
            c in align && align[c] == (if c == "Size" then Right else Center)
  {
    ListingAlign(p, args, Command, c);
  }
}
