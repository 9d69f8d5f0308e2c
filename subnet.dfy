/** `cmd_list_subnets` of aws_list/resources/subnet.py: lists the subnets,
    or shows their metadata with `--detail`. */
module Subnet {
  import opened Outcomes
  import opened Document
  import opened Aws
  import opened Pcof
  import opened Reports
  import Ec2Subnet

  const Header: seq<string> :=
    ["SubnetId", "Tag_Name", "VpcId", "CidrBlock", "AvailableIpAddressCount", "AvailabilityZone",
     "DefaultForAz", "State"]

  const NotFound: string := "Error: No subnet found"

  /** The command's constants: collection, facade type, message, header,
      default sort column, left-aligned columns. */
  const Command: Listing :=
    Listing("subnets", "Subnet", SubnetKind, NotFound, Header, "SubnetId", ["CidrBlock", "Tag_Name"], [], "")

  method CmdListSubnets(p: Provider, args: Args) returns (r: Result<Report>)
    ensures r == ListSpec(p, args, Command)
    ensures QueryIds(p, "subnets", FilterName(args), FilterValue(args)) == Ok([]) ==> r == Err(Exit(NotFound))
  {
    FoundFacades(p, args, "subnets", "Subnet", NotFound);
    r := ListResources(p, args, Command);
  }

  /** Every column of the header names an accessor of the subnet class, so
      no cell fails with AttributeError. */
  lemma ColumnsDefined()
    ensures forall j :: 0 <= j < |Header| ==> Lower(Header[j]) in Ec2Subnet.Names
  {
    FirstColumnsDefined();
    LastColumnsDefined();
  }

  lemma FirstColumnsDefined()
    ensures forall j :: 0 <= j < 4 ==> Lower(Header[j]) in Ec2Subnet.Names
  {
    assert Lower("SubnetId") == "subnetid";
    assert Lower("Tag_Name") == "tag_name";
    assert Lower("VpcId") == "vpcid";
    assert Lower("CidrBlock") == "cidrblock";
  }

  lemma LastColumnsDefined()
    ensures forall j :: 4 <= j < |Header| ==> Lower(Header[j]) in Ec2Subnet.Names
  {
    assert Lower("AvailableIpAddressCount") == "availableipaddresscount";
    assert Lower("AvailabilityZone") == "availabilityzone";
    assert Lower("DefaultForAz") == "defaultforaz";
    assert Lower("State") == "state";
  }

  /** The subnet table: the fixed header, one row per subnet, sorted by the
      requested column or else by SubnetId, which is also the fallback for
      a column the table does not have. Only building the facades or
      computing a cell can fail. */
  lemma SubnetTable(p: Provider, args: Args)
    requires !args.detail
    ensures var found := Found(p, args, "subnets", "Subnet", NotFound);
            ListSpec(p, args, Command).Ok? <==> found.Ok? && MapAll(found.value, RowOf(SubnetKind, Header)).Ok?
    ensures ListSpec(p, args, Command).Ok? ==>
              var t := ListSpec(p, args, Command).value.table;
              ListSpec(p, args, Command).value.Shown? && t.header == Header && t.hrules == Frame &&
              t.sortBy == Some(if args.sortby in Header then args.sortby else "SubnetId")
  {
    HeaderDistinct();
    SortedByDefault(Header, args.sortby, "SubnetId");
    ListingTable(p, args, Command);
  }

  lemma HeaderDistinct()
    ensures Distinct(Header) && Header[0] == "SubnetId" && "" !in Header
  {
  }

  /** The first column is the subnet id. */
  lemma IdColumn(f: Facade)
    ensures Attr(SubnetKind, f, Lower(Header[0])) == Ok(Str(f.resourceId))
  {
    assert Lower(Header[0]) == "subnetid";
  }

  /** The first cell of every row is the subnet id the query returned. */
  lemma SubnetRows(p: Provider, args: Args)
    requires !args.detail && ListSpec(p, args, Command).Ok?
    ensures var ids := QueryIds(p, "subnets", FilterName(args), FilterValue(args)).value;
            var t := ListSpec(p, args, Command).value.table;
            |t.rows| == |ids| &&
            forall i :: 0 <= i < |ids| ==> |t.rows[i]| == |Header| && t.rows[i][0] == Str(ids[i])
  {
    forall f: Facade ensures Attr(SubnetKind, f, Lower(Header[0])) == Ok(Str(f.resourceId)) {
      IdColumn(f);
    }
    ListingIds(p, args, Command);
  }

  /** CidrBlock and Tag_Name are aligned left, every other column is centred. */
  lemma SubnetAlign(p: Provider, args: Args, c: string)
    requires ListSpec(p, args, Command).Ok? && ListSpec(p, args, Command).value.Shown?
    requires c in Header
    ensures var align := ListSpec(p, args, Command).value.table.align;
            c in align && align[c] == (if c in ["CidrBlock", "Tag_Name"] then Left else Center)
  {
    ListingAlign(p, args, Command, c);
  }
}
