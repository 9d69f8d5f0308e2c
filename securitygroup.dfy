/** `cmd_list_securitygroup` of aws_list/resources/securitygroup.py: lists
    the security groups, with their rule texts under `--rules`, or shows
    their metadata with `--detail`. */
module SecurityGroup {
  import opened Outcomes
  import opened Document
  import opened Aws
  import opened Pcof
  import opened Reports
  import Ec2SecGroup

  const RulesHeader: seq<string> := ["GroupId", "VpcId", "GroupName", "InBound", "OutBound"]
  const DefaultHeader: seq<string> := ["GroupId", "VpcId", "GroupName", "Description"]

  const NotFound: string := "Error: No security group found"

  /** The header `--rules` selects. */
  function HeaderFor(rules: bool): seq<string>
  {
    if rules then RulesHeader else DefaultHeader
  }

  /** The command's constants: collection, facade type, message, header,
      default sort column, left-aligned columns and a rule after every row. */
  function Command(args: Args): Listing
  {
    Listing("security_groups", "SecurityGroup", SecGroupKind, NotFound, HeaderFor(args.rules), "GroupId",
            ["GroupName", "Description", "InBound", "OutBound"], [], "ALL")
  }

  method CmdListSecurityGroup(p: Provider, args: Args) returns (r: Result<Report>)
    ensures r == ListSpec(p, args, Command(args))
    ensures QueryIds(p, "security_groups", FilterName(args), FilterValue(args)) == Ok([]) ==>
              r == Err(Exit(NotFound))
  {
    FoundFacades(p, args, "security_groups", "SecurityGroup", NotFound);
    r := ListResources(p, args, Command(args));
  }

  /** Every column of both headers names an accessor of the security group
      class, so no cell fails with AttributeError. */
  lemma ColumnsDefined()
    ensures forall j :: 0 <= j < |RulesHeader| ==> Lower(RulesHeader[j]) in Ec2SecGroup.Names
    ensures forall j :: 0 <= j < |DefaultHeader| ==> Lower(DefaultHeader[j]) in Ec2SecGroup.Names
  {
    assert Lower("GroupId") == "groupid";
    assert Lower("VpcId") == "vpcid";
    assert Lower("GroupName") == "groupname";
    assert Lower("InBound") == "inbound";
    assert Lower("OutBound") == "outbound";
    assert Lower("Description") == "description";
  }

  /** Only building the facades or computing a cell can make the command
      fail: the table step cannot, as both headers have distinct names and
      ALL is a rule style. */
  lemma SecurityGroupTable(p: Provider, args: Args)
    requires !args.detail
    ensures var found := Found(p, args, "security_groups", "SecurityGroup", NotFound);
            ListSpec(p, args, Command(args)).Ok? <==>
              found.Ok? && MapAll(found.value, RowOf(SecGroupKind, HeaderFor(args.rules))).Ok?
  {
    assert Distinct(HeaderFor(args.rules));
    ListingTable(p, args, Command(args));
  }

  /** The security group table: the rule columns under `--rules`, the
      description otherwise; a rule between every row; sorted by the
      requested column or else by GroupId, also the fallback for a column
      the table does not have. */
  lemma SecurityGroupLayout(p: Provider, args: Args)
    requires !args.detail && ListSpec(p, args, Command(args)).Ok?
    ensures ListSpec(p, args, Command(args)).value.Shown?
    ensures var t := ListSpec(p, args, Command(args)).value.table;
            t.header == (if args.rules then RulesHeader else DefaultHeader) && t.hrules == All &&
            t.sortBy == Some(if args.sortby in t.header then args.sortby else "GroupId")
  {
    ListingTable(p, args, Command(args));
    HeaderSortable(args);
  }

  lemma HeaderSortable(args: Args)
    ensures SortColumn(HeaderFor(args.rules), SortOr(args.sortby, "GroupId")) ==
              Some(if args.sortby in HeaderFor(args.rules) then args.sortby else "GroupId")
  {
    SortedByDefault(HeaderFor(args.rules), args.sortby, "GroupId");
  }

  /** The first column is the group id. */
  lemma IdColumn(f: Facade)
    ensures Attr(SecGroupKind, f, Lower(RulesHeader[0])) == Ok(Str(f.resourceId))
  {
    assert Lower(RulesHeader[0]) == "groupid";
  }

  /** The rule columns are the inbound and outbound rule texts. */
  lemma RuleColumns(f: Facade)
    ensures Ec2SecGroup.RulesText(f, Ec2SecGroup.Inbound).Ok? <==> Attr(SecGroupKind, f, Lower(RulesHeader[3])).Ok?
    ensures Ec2SecGroup.RulesText(f, Ec2SecGroup.Inbound).Ok? ==>
              Attr(SecGroupKind, f, Lower(RulesHeader[3])) == Ok(Str(Ec2SecGroup.RulesText(f, Ec2SecGroup.Inbound).value))
    ensures Ec2SecGroup.RulesText(f, Ec2SecGroup.Outbound).Ok? <==> Attr(SecGroupKind, f, Lower(RulesHeader[4])).Ok?
    ensures Ec2SecGroup.RulesText(f, Ec2SecGroup.Outbound).Ok? ==>
              Attr(SecGroupKind, f, Lower(RulesHeader[4])) == Ok(Str(Ec2SecGroup.RulesText(f, Ec2SecGroup.Outbound).value))
  {
    assert Lower(RulesHeader[3]) == "inbound";
    assert Lower(RulesHeader[4]) == "outbound";
    Ec2SecGroup.RuleAccessors(f);
  }

  /** The first cell of every row is the group id the query returned. */
  lemma SecurityGroupRows(p: Provider, args: Args)
    requires !args.detail && ListSpec(p, args, Command(args)).Ok?
    ensures var ids := QueryIds(p, "security_groups", FilterName(args), FilterValue(args)).value;
            var t := ListSpec(p, args, Command(args)).value.table;
            |t.rows| == |ids| &&
            forall i :: 0 <= i < |ids| ==> |t.rows[i]| == |HeaderFor(args.rules)| && t.rows[i][0] == Str(ids[i])
  {
    var header := HeaderFor(args.rules);
    assert Lower(header[0]) == Lower(RulesHeader[0]);
    forall f: Facade ensures Attr(SecGroupKind, f, Lower(header[0])) == Ok(Str(f.resourceId)) {
      IdColumn(f);
    }
    ListingIds(p, args, Command(args));
  }

  /** Under `--rules` the fourth and fifth cells of every row are the
      group's inbound and outbound rule texts. */
  lemma SecurityGroupRules(p: Provider, args: Args)
    requires !args.detail && args.rules && ListSpec(p, args, Command(args)).Ok?
    ensures var fs := Found(p, args, "security_groups", "SecurityGroup", NotFound).value;
            var t := ListSpec(p, args, Command(args)).value.table;
            |t.rows| == |fs| &&
            forall i :: 0 <= i < |fs| ==>
              |t.rows[i]| == 5 &&
              Ec2SecGroup.RulesText(fs[i], Ec2SecGroup.Inbound).Ok? &&
              t.rows[i][3] == Str(Ec2SecGroup.RulesText(fs[i], Ec2SecGroup.Inbound).value) &&
              Ec2SecGroup.RulesText(fs[i], Ec2SecGroup.Outbound).Ok? &&
              t.rows[i][4] == Str(Ec2SecGroup.RulesText(fs[i], Ec2SecGroup.Outbound).value)
  {
    ListingTable(p, args, Command(args));
    var fs := Found(p, args, "security_groups", "SecurityGroup", NotFound).value;
    ColumnCells(SecGroupKind, fs, RulesHeader, 3);
    ColumnCells(SecGroupKind, fs, RulesHeader, 4);
    forall i | 0 <= i < |fs| {
      RuleColumns(fs[i]);
    }
  }

  /** The group name, description and rule columns are aligned left, the
      id columns centred. */
  lemma SecurityGroupAlign(p: Provider, args: Args, c: string)
    requires ListSpec(p, args, Command(args)).Ok? && ListSpec(p, args, Command(args)).value.Shown?
    requires c in HeaderFor(args.rules)
    ensures var align := ListSpec(p, args, Command(args)).value.table.align;
            c in align && align[c] == (if c in ["GroupId", "VpcId"] then Center else Left)
  {
    ListingAlign(p, args, Command(args), c);
  }
}
