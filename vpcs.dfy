/** `cmd_list_vpcs` of aws_list/resources/vpcs.py: lists the VPCs, or shows
    their metadata with `--detail`. */
module Vpcs {
  import opened Outcomes
  import opened Document
  import opened Aws
  import opened Pcof
  import opened Reports
  import Ec2Vpc

  const Header: seq<string> :=
    ["VpcId", "Tag_Name", "CidrBlock", "DhcpOptionsId", "IsDefault", "InstanceTenancy", "State"]

  const NotFound: string := "Error: No vpcs found"

  /** The command's constants: collection, facade type, message, header,
      default sort column, left-aligned columns. */
  const Command: Listing :=
    Listing("vpcs", "Vpc", VpcKind, NotFound, Header, "VpcId", ["CidrBlock"], [], "")

  method CmdListVpcs(p: Provider, args: Args) returns (r: Result<Report>)
    ensures r == ListSpec(p, args, Command)
    ensures QueryIds(p, "vpcs", FilterName(args), FilterValue(args)) == Ok([]) ==> r == Err(Exit(NotFound))
  {
    FoundFacades(p, args, "vpcs", "Vpc", NotFound);
    r := ListResources(p, args, Command);
  }

  /** Every column of the header names an accessor of the VPC class, so no
      cell fails with AttributeError. */
  lemma ColumnsDefined()
    ensures forall j :: 0 <= j < |Header| ==> Lower(Header[j]) in Ec2Vpc.Names
  {
    assert Lower("VpcId") == "vpcid";
    assert Lower("Tag_Name") == "tag_name";
    assert Lower("CidrBlock") == "cidrblock";
    assert Lower("DhcpOptionsId") == "dhcpoptionsid";
    assert Lower("IsDefault") == "isdefault";
    assert Lower("InstanceTenancy") == "instancetenancy";
    assert Lower("State") == "state";
  }

  /** The VPC table: the fixed header, sorted by the requested column or
      else by VpcId, which is also the fallback for a column the table does
      not have. Only building the facades or computing a cell can fail. */
  lemma VpcTable(p: Provider, args: Args)
    requires !args.detail
    ensures var found := Found(p, args, "vpcs", "Vpc", NotFound);
            ListSpec(p, args, Command).Ok? <==> found.Ok? && MapAll(found.value, RowOf(VpcKind, Header)).Ok?
    ensures ListSpec(p, args, Command).Ok? ==>
              var t := ListSpec(p, args, Command).value.table;
              ListSpec(p, args, Command).value.Shown? && t.header == Header && t.hrules == Frame &&
              t.sortBy == Some(if args.sortby in Header then args.sortby else "VpcId")
  {
    HeaderDistinct();
    SortedByDefault(Header, args.sortby, "VpcId");
    ListingTable(p, args, Command);
  }

  lemma HeaderDistinct()
    ensures Distinct(Header) && Header[0] == "VpcId" && "" !in Header
  {
  }

  /** The first column is the VPC id. */
  lemma IdColumn(f: Facade)
    ensures Attr(VpcKind, f, Lower(Header[0])) == Ok(Str(f.resourceId))
  {
    assert Lower(Header[0]) == "vpcid";
  }

  /** The first cell of every row is the VPC id the query returned. */
  lemma VpcRows(p: Provider, args: Args)
    requires !args.detail && ListSpec(p, args, Command).Ok?
    ensures var ids := QueryIds(p, "vpcs", FilterName(args), FilterValue(args)).value;
            var t := ListSpec(p, args, Command).value.table;
            |t.rows| == |ids| &&
            forall i :: 0 <= i < |ids| ==> |t.rows[i]| == |Header| && t.rows[i][0] == Str(ids[i])
  {
    forall f: Facade ensures Attr(VpcKind, f, Lower(Header[0])) == Ok(Str(f.resourceId)) {
      IdColumn(f);
    }
    ListingIds(p, args, Command);
  }

  /** CidrBlock is aligned left, every other column is centred. */
  lemma VpcAlign(p: Provider, args: Args, c: string)
    requires ListSpec(p, args, Command).Ok? && ListSpec(p, args, Command).value.Shown?
    requires c in Header
    ensures var align := ListSpec(p, args, Command).value.table.align;
            c in align && align[c] == (if c == "CidrBlock" then Left else Center)
  {
    ListingAlign(p, args, Command, c);
  }
}
