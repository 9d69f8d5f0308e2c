/** What the listing commands of aws_list/resources (securitygroup.py,
    subnet.py, volumes.py, vpcs.py and instances.py) share: the parsed
    command-line arguments, the dispatch of a column name to a facade
    accessor, the projection of facades onto table rows, and the common
    course of a listing command: query the ids, stop when there are none,
    build one facade per id, then show their metadata or print a table. */
module Reports {
  import opened Outcomes
  import opened Document
  import opened Aws
  import opened Pcof
  import Ec2Instance
  import Ec2Ami
  import Ec2Volume
  import Ec2Vpc
  import Ec2Subnet
  import Ec2SecGroup

  // ---------------------------------------------------------------------------
  // Accessors by name
  // ---------------------------------------------------------------------------

  /** A facade class as `getattr` sees it: the names of its zero-argument
      accessors and the call of the accessor of a given name. */
  datatype Kind = Kind(names: set<string>, accessor: (Facade, string) -> Result<Value>)

  const InstanceKind := Kind(Ec2Instance.Names, Ec2Instance.Accessor)
  const AmiKind := Kind(Ec2Ami.Names, Ec2Ami.Accessor)
  const VolumeKind := Kind(Ec2Volume.Names, Ec2Volume.Accessor)
  const VpcKind := Kind(Ec2Vpc.Names, Ec2Vpc.Accessor)
  const SubnetKind := Kind(Ec2Subnet.Names, Ec2Subnet.Accessor)
  const SecGroupKind := Kind(Ec2SecGroup.Names, Ec2SecGroup.Accessor)

  /** `getattr(obj, name)()` on a facade of the given class. */
  function Attr(kind: Kind, f: Facade, name: string): Result<Value>
  {
    kind.accessor(f, name)
  }

  /** A name the class does not define is an AttributeError, and only such a
      name is. */
  ghost predicate Dispatches(kind: Kind)
  {
    forall f: Facade, name: string :: name !in kind.names <==> kind.accessor(f, name) == Err(AttributeError(name))
  }

  /** Every class of the model dispatches its accessor names. */
  lemma ClassesDispatch()
    ensures Dispatches(InstanceKind) && Dispatches(AmiKind) && Dispatches(VolumeKind)
    ensures Dispatches(VpcKind) && Dispatches(SubnetKind) && Dispatches(SecGroupKind)
  {
    forall f: Facade, name: string
      ensures name !in Ec2Instance.Names <==> Ec2Instance.Accessor(f, name) == Err(AttributeError(name))
      ensures name !in Ec2Ami.Names <==> Ec2Ami.Accessor(f, name) == Err(AttributeError(name))
      ensures name !in Ec2Volume.Names <==> Ec2Volume.Accessor(f, name) == Err(AttributeError(name))
      ensures name !in Ec2Vpc.Names <==> Ec2Vpc.Accessor(f, name) == Err(AttributeError(name))
      ensures name !in Ec2Subnet.Names <==> Ec2Subnet.Accessor(f, name) == Err(AttributeError(name))
      ensures name !in Ec2SecGroup.Names <==> Ec2SecGroup.Accessor(f, name) == Err(AttributeError(name))
    {
      Ec2Instance.Dispatch(f, name);
      Ec2Ami.Dispatch(f, name);
      Ec2Volume.Dispatch(f, name);
      Ec2Vpc.Dispatch(f, name);
      Ec2Subnet.Dispatch(f, name);
      Ec2SecGroup.Dispatch(f, name);
    }
  }

  /** The cell of a column: `getattr(f, column.lower())()`. */
  function CellOf(kind: Kind, f: Facade): string -> Result<Value>
  {
    column => Attr(kind, f, Lower(column))
  }

  /** The row of a facade: one cell per header column, in header order. */
  function RowOf(kind: Kind, header: seq<string>): Facade -> Result<seq<Value>>
  {
    f => MapAll(header, CellOf(kind, f))
  }

  /** One accessor applied to every facade, as `[getattr(i, name)() for i in …]`. */
  function AttrOf(kind: Kind, name: string): Facade -> Result<Value>
  {
    f => Attr(kind, f, name)
  }

  /** The loops `for f in facades: row = []; for attr in header:
      row.append(getattr(f, attr.lower())())`. */
  method ProjectRows(kind: Kind, fs: seq<Facade>, header: seq<string>) returns (r: Result<seq<seq<Value>>>)
    ensures r == MapAll(fs, RowOf(kind, header))
  {
    var rows: seq<seq<Value>> := [];
    for i := 0 to |fs|
      invariant MapAll(fs[..i], RowOf(kind, header)) == Ok(rows)
    {
      var row := ForEach(header, CellOf(kind, fs[i]));
      MapAllNext(fs, i, RowOf(kind, header), rows, row);
      if row.Err? {
        return Err(row.error);
      }
      rows := rows + [row.value];
    }
    assert fs[..|fs|] == fs;
    return Ok(rows);
  }

  /** The row of one facade: the accessor of every header column, in
      header order; it fails exactly when one of those accessors does. */
  lemma RowCells(kind: Kind, f: Facade, header: seq<string>)
    ensures RowOf(kind, header)(f) == MapAll(header, CellOf(kind, f))
    ensures MapAll(header, CellOf(kind, f)).Ok? <==>
              forall j :: 0 <= j < |header| ==> Attr(kind, f, Lower(header[j])).Ok?
    ensures MapAll(header, CellOf(kind, f)).Ok? ==>
              var row := MapAll(header, CellOf(kind, f)).value;
              |row| == |header| && forall j :: 0 <= j < |header| ==> Attr(kind, f, Lower(header[j])) == Ok(row[j])
  {
    MapAllOk(header, CellOf(kind, f));
  }

  /** The rows hold, for every facade in order, the accessor of every header
      column, so every row is as wide as the header; a failing accessor
      fails the whole projection. */
  lemma RowShape(kind: Kind, fs: seq<Facade>, header: seq<string>)
    ensures MapAll(fs, RowOf(kind, header)).Ok? <==>
              forall i :: 0 <= i < |fs| ==> MapAll(header, CellOf(kind, fs[i])).Ok?
    ensures MapAll(fs, RowOf(kind, header)).Ok? ==>
              var rows := MapAll(fs, RowOf(kind, header)).value;
              |rows| == |fs| && RowsFit(header, rows) &&
              forall i :: 0 <= i < |fs| ==> MapAll(header, CellOf(kind, fs[i])) == Ok(rows[i])
  {
    MapAllOk(fs, RowOf(kind, header));
    forall i | 0 <= i < |fs| {
      RowCells(kind, fs[i], header);
    }
  }

  /** One column of the rows: the cell of column j in row i is the
      accessor that column names, applied to facade i. */
  lemma ColumnCells(kind: Kind, fs: seq<Facade>, header: seq<string>, j: nat)
    requires j < |header| && MapAll(fs, RowOf(kind, header)).Ok?
    ensures var rows := MapAll(fs, RowOf(kind, header)).value;
            |rows| == |fs| &&
            forall i :: 0 <= i < |fs| ==> |rows[i]| == |header| && Attr(kind, fs[i], Lower(header[j])) == Ok(rows[i][j])
  {
    RowShape(kind, fs, header);
    forall i | 0 <= i < |fs| {
      RowCells(kind, fs[i], header);
    }
  }

  /** `print_table` over rows that were computed first: the failure of the
      rows, or the table of the rows. */
  function TableOver(rows: Result<seq<seq<Value>>>, header: seq<string>, sortby: string,
                     alignl: seq<string>, alignr: seq<string>, hrules: string): Result<Table>
    requires |header| > 0
  {
    var rs :- rows;
    MakeTable(header, rs, sortby, alignl, alignr, hrules)
  }

  /** With distinct column names and a known rule style, the table exists
      exactly when the rows do and each has one cell per column; it then
      holds those rows, in order, sorted by the column SortColumn picks. */
  lemma TableOverRows(rows: Result<seq<seq<Value>>>, header: seq<string>, sortby: string,
                      alignl: seq<string>, alignr: seq<string>, hrules: string)
    requires |header| > 0 && Distinct(header) && (hrules == "" || hrules in {"FRAME", "HEADER", "ALL", "NONE"})
    ensures TableOver(rows, header, sortby, alignl, alignr, hrules).Ok? <==> rows.Ok? && RowsFit(header, rows.value)
    ensures TableOver(rows, header, sortby, alignl, alignr, hrules).Ok? ==>
              var t := TableOver(rows, header, sortby, alignl, alignr, hrules).value;
              t.header == header && rows == Ok(t.rows) && t.sortBy == SortColumn(header, sortby) &&
              t.hrules == (if hrules == "" then Frame else HRuleNamed(hrules).value)
  {
    if rows.Ok? {
      TableRows(header, rows.value, sortby, alignl, alignr, hrules);
    }
  }

  /** The table of a set of facades: it exists exactly when every cell does,
      and then holds one row per facade, in order, projected as RowOf says. */
  lemma FacadeTable(kind: Kind, fs: seq<Facade>, header: seq<string>, sortby: string,
                    alignl: seq<string>, alignr: seq<string>, hrules: string)
    requires |header| > 0 && Distinct(header) && (hrules == "" || hrules in {"FRAME", "HEADER", "ALL", "NONE"})
    ensures TableOver(MapAll(fs, RowOf(kind, header)), header, sortby, alignl, alignr, hrules).Ok? <==>
              MapAll(fs, RowOf(kind, header)).Ok?
    ensures TableOver(MapAll(fs, RowOf(kind, header)), header, sortby, alignl, alignr, hrules).Ok? ==>
              var t := TableOver(MapAll(fs, RowOf(kind, header)), header, sortby, alignl, alignr, hrules).value;
              t.header == header && MapAll(fs, RowOf(kind, header)) == Ok(t.rows) && |t.rows| == |fs| &&
              t.sortBy == SortColumn(header, sortby) &&
              t.hrules == (if hrules == "" then Frame else HRuleNamed(hrules).value)
  {
    RowShape(kind, fs, header);
    TableOverRows(MapAll(fs, RowOf(kind, header)), header, sortby, alignl, alignr, hrules);
  }

  /** The table of rows built one per element, by a function whose rows are
      as wide as the header: it exists exactly when every row does, and then
      holds row `i` of element `i`. */
  lemma MappedTable<A>(xs: seq<A>, rowOf: A -> Result<seq<Value>>, header: seq<string>, sortby: string,
                       alignl: seq<string>, alignr: seq<string>, hrules: string)
    requires |header| > 0 && Distinct(header) && (hrules == "" || hrules in {"FRAME", "HEADER", "ALL", "NONE"})
    requires forall i :: 0 <= i < |xs| && rowOf(xs[i]).Ok? ==> |rowOf(xs[i]).value| == |header|
    ensures TableOver(MapAll(xs, rowOf), header, sortby, alignl, alignr, hrules).Ok? <==> MapAll(xs, rowOf).Ok?
    ensures TableOver(MapAll(xs, rowOf), header, sortby, alignl, alignr, hrules).Ok? ==>
              var t := TableOver(MapAll(xs, rowOf), header, sortby, alignl, alignr, hrules).value;
              t.header == header && |t.rows| == |xs| && (forall i :: 0 <= i < |xs| ==> rowOf(xs[i]) == Ok(t.rows[i])) &&
              t.sortBy == SortColumn(header, sortby) &&
              t.hrules == (if hrules == "" then Frame else HRuleNamed(hrules).value)
  {
    MapAllOk(xs, rowOf);
    TableOverRows(MapAll(xs, rowOf), header, sortby, alignl, alignr, hrules);
  }

  /** The table of rows built in blocks, one block per element, by a
      function whose rows are as wide as the header: it exists exactly when
      every block does, and then holds the blocks' rows one block after
      the other. */
  lemma FlatMappedTable<A>(xs: seq<A>, blocksOf: A -> Result<seq<seq<Value>>>, header: seq<string>, sortby: string,
                           alignl: seq<string>, alignr: seq<string>, hrules: string)
    requires |header| > 0 && Distinct(header) && (hrules == "" || hrules in {"FRAME", "HEADER", "ALL", "NONE"})
    requires forall i :: 0 <= i < |xs| && blocksOf(xs[i]).Ok? ==> RowsFit(header, blocksOf(xs[i]).value)
    ensures TableOver(FlatMapAll(xs, blocksOf), header, sortby, alignl, alignr, hrules).Ok? <==>
              MapAll(xs, blocksOf).Ok?
    ensures TableOver(FlatMapAll(xs, blocksOf), header, sortby, alignl, alignr, hrules).Ok? ==>
              var blocks := MapAll(xs, blocksOf).value;
              var t := TableOver(FlatMapAll(xs, blocksOf), header, sortby, alignl, alignr, hrules).value;
              t.header == header && t.rows == Flatten(blocks) && |t.rows| == TotalLength(blocks) &&
              |blocks| == |xs| && (forall i :: 0 <= i < |xs| ==> blocksOf(xs[i]) == Ok(blocks[i])) &&
              t.sortBy == SortColumn(header, sortby) &&
              t.hrules == (if hrules == "" then Frame else HRuleNamed(hrules).value)
  {
    MapAllOk(xs, blocksOf);
    var blocks := MapAll(xs, blocksOf);
    if blocks.Ok? {
      var rows := Flatten(blocks.value);
      FlattenLength(blocks.value);
      forall k | 0 <= k < |rows| ensures |rows[k]| == |header| {
        FlattenMembers(blocks.value, rows[k]);
      }
    }
    TableOverRows(FlatMapAll(xs, blocksOf), header, sortby, alignl, alignr, hrules);
  }

  // ---------------------------------------------------------------------------
  // Python sets
  // ---------------------------------------------------------------------------

  /** Lists and dictionaries cannot be put in a set. */
  predicate Hashable(v: Value)
  {
    !v.List? && !v.Map?
  }

  /** `set(xs)`: the values of `xs`, or TypeError when one is unhashable. */
  function SetOf(xs: seq<Value>): (r: Result<set<Value>>)
    ensures r.Ok? <==> forall i :: 0 <= i < |xs| ==> Hashable(xs[i])
    ensures r.Ok? ==> forall v :: v in r.value <==> v in xs
    ensures r.Err? ==> r.error.TypeError?
  {
    if forall i :: 0 <= i < |xs| ==> Hashable(xs[i]) then Ok(set v | v in xs) else Err(TypeError("unhashable type"))
  }

  predicate DistinctValues(xs: seq<Value>)
  {
    forall i, j :: 0 <= i < j < |xs| ==> xs[i] != xs[j]
  }

  /** `xs` lists the members of `s`, each once: an order in which a loop
      `for x in s` may visit them. The order itself is not modelled; the
      reports that loop over a set take it as a parameter. */
  ghost predicate Enumerates(xs: seq<Value>, s: set<Value>)
  {
    DistinctValues(xs) && forall v :: v in xs <==> v in s
  }

  /** An iteration order for every set. */
  ghost predicate IsOrder(order: set<Value> -> seq<Value>)
  {
    forall s :: Enumerates(order(s), s)
  }

  // ---------------------------------------------------------------------------
  // Arguments and results
  // ---------------------------------------------------------------------------

  /** The parsed command line the commands read: `--filter NAME VALUE`,
      `--sortby`, `--detail`, `--rules`, `--output` and `--pertype`. */
  datatype Args = Args(filter: Option<(string, string)>, sortby: string, detail: bool, rules: bool,
                       output: string, pertype: string)

  /** `args.filter[0] if args.filter else ""`. */
  function FilterName(args: Args): string
  {
    if args.filter.Some? then args.filter.value.0 else ""
  }

  /** `args.filter[1] if args.filter else ""`. */
  function FilterValue(args: Args): string
  {
    if args.filter.Some? then args.filter.value.1 else ""
  }

  /** `sortby if sortby else fallback`. */
  function SortOr(sortby: string, fallback: string): string
  {
    if sortby != "" then sortby else fallback
  }

  /** A report whose fallback sort column is its first column is sorted by
      the requested column when the header has it, and by the fallback in
      every other case. */
  lemma SortedByDefault(header: seq<string>, sortby: string, fallback: string)
    requires |header| > 0 && fallback == header[0] && "" !in header
    ensures SortColumn(header, SortOr(sortby, fallback)) == Some(if sortby in header then sortby else fallback)
  {
    assert header[0] in header;
  }

  /** What a command shows: a table, or the metadata of each facade. */
  datatype Report = Shown(table: Table) | Details(facades: seq<Facade>)

  // ---------------------------------------------------------------------------
  // The facades of a command
  // ---------------------------------------------------------------------------

  /** The facades a command builds: the ids of its collection, filtered
      as the arguments say; the program ends with `notFound` when there is
      none; then one facade per id. */
  function Found(p: Provider, args: Args, collection: string, resourceType: string, notFound: string)
    : Result<seq<Facade>>
  {
    var ids :- QueryIds(p, collection, FilterName(args), FilterValue(args));
    if ids == [] then Err(Exit(notFound)) else MapAll(ids, Loader(p, resourceType))
  }

  method FindResources(p: Provider, args: Args, collection: string, resourceType: string, notFound: string)
    returns (r: Result<seq<Facade>>)
    ensures r == Found(p, args, collection, resourceType, notFound)
  {
    var ids :- QueryAws(p, collection, FilterName(args), FilterValue(args));
    if ids == [] {
      return Err(Exit(notFound));
    }
    r := ForEach(ids, Loader(p, resourceType));
  }

  /** No id ends the program with the command's message; otherwise there is
      one facade per queried id, in query order, of the command's type,
      holding the metadata loaded for it; without a filter the ids are the
      whole collection, and a client error while listing it is not caught. */
  lemma FoundFacades(p: Provider, args: Args, collection: string, resourceType: string, notFound: string)
    ensures QueryIds(p, collection, FilterName(args), FilterValue(args)) == Ok([]) ==>
              Found(p, args, collection, resourceType, notFound) == Err(Exit(notFound))
    ensures args.filter.None? && p.all(collection).Matched? ==>
              QueryIds(p, collection, FilterName(args), FilterValue(args)) == Ok(p.all(collection).ids)
    ensures args.filter.None? && p.all(collection).Rejected? ==>
              Found(p, args, collection, resourceType, notFound) == Err(ClientError(p.all(collection).message))
    ensures Found(p, args, collection, resourceType, notFound).Ok? ==>
              var ids := QueryIds(p, collection, FilterName(args), FilterValue(args)).value;
              var fs := Found(p, args, collection, resourceType, notFound).value;
              ids != [] && |fs| == |ids| &&
              forall i :: 0 <= i < |ids| ==>
                fs[i].resourceType == resourceType && fs[i].resourceId == ids[i] &&
                p.load(resourceType, ids[i]) == Loaded(fs[i].metadata)
  {
    var q := QueryIds(p, collection, FilterName(args), FilterValue(args));
    if q.Ok? && q.value != [] {
      LoadAll(p, resourceType, q.value);
    }
  }

  // ---------------------------------------------------------------------------
  // A listing command
  // ---------------------------------------------------------------------------

  /** The constants of a listing command: the collection it queries, the
      facade type and class it builds, its message when nothing is found,
      and its table's header, default sort column, alignments and rules. */
  datatype Listing = Listing(collection: string, resourceType: string, kind: Kind, notFound: string,
                             header: seq<string>, defaultSort: string,
                             alignl: seq<string>, alignr: seq<string>, hrules: string)

  /** What a listing command produces. */
  function ListSpec(p: Provider, args: Args, l: Listing): Result<Report>
    requires |l.header| > 0
  {
    var fs :- Found(p, args, l.collection, l.resourceType, l.notFound);
    if args.detail then Ok(Details(fs))
    else
      var rows :- MapAll(fs, RowOf(l.kind, l.header));
      var table :- MakeTable(l.header, rows, SortOr(args.sortby, l.defaultSort), l.alignl, l.alignr, l.hrules);
      Ok(Shown(table))
  }

  /** The body the listing commands share. */
  method ListResources(p: Provider, args: Args, l: Listing) returns (r: Result<Report>)
    requires |l.header| > 0
    ensures r == ListSpec(p, args, l)
  {
    var fs :- FindResources(p, args, l.collection, l.resourceType, l.notFound);
    if args.detail {
      return Ok(Details(fs));
    }
    var rows :- ProjectRows(l.kind, fs, l.header);
    var table :- PrintTable(l.header, rows, SortOr(args.sortby, l.defaultSort), l.alignl, l.alignr, l.hrules);
    return Ok(Shown(table));
  }

  /** With `--detail` the command shows the facades and prints no table. */
  lemma ListingDetail(p: Provider, args: Args, l: Listing)
    requires |l.header| > 0 && args.detail
    ensures ListSpec(p, args, l).Ok? <==> Found(p, args, l.collection, l.resourceType, l.notFound).Ok?
    ensures ListSpec(p, args, l).Ok? ==>
              ListSpec(p, args, l) == Ok(Details(Found(p, args, l.collection, l.resourceType, l.notFound).value))
  {
  }

  /** The table of a listing: the command's header, one row per facade in
      query order whose cells are the accessors the header names, the
      requested sort column (the command's default when none is given),
      the command's rule style. With distinct header names and a known rule
      style the table step cannot fail: the command fails only while
      building the facades or computing a cell. */
  lemma ListingTable(p: Provider, args: Args, l: Listing)
    requires |l.header| > 0 && !args.detail
    ensures ListSpec(p, args, l).Ok? ==> ListSpec(p, args, l).value.Shown?
    ensures ListSpec(p, args, l).Ok? ==>
              var fs := Found(p, args, l.collection, l.resourceType, l.notFound).value;
              var t := ListSpec(p, args, l).value.table;
              t.header == l.header && MapAll(fs, RowOf(l.kind, l.header)) == Ok(t.rows) &&
              t.sortBy == SortColumn(l.header, SortOr(args.sortby, l.defaultSort)) &&
              t.hrules == (if l.hrules == "" then Frame else HRuleNamed(l.hrules).value)
    ensures Distinct(l.header) && (l.hrules == "" || l.hrules in {"FRAME", "HEADER", "ALL", "NONE"}) ==>
              (ListSpec(p, args, l).Ok? <==>
                 Found(p, args, l.collection, l.resourceType, l.notFound).Ok? &&
                 MapAll(Found(p, args, l.collection, l.resourceType, l.notFound).value, RowOf(l.kind, l.header)).Ok?)
  {
    var found := Found(p, args, l.collection, l.resourceType, l.notFound);
    if found.Ok? {
      RowShape(l.kind, found.value, l.header);
      var rows := MapAll(found.value, RowOf(l.kind, l.header));
      if rows.Ok? {
        TableRows(l.header, rows.value, SortOr(args.sortby, l.defaultSort), l.alignl, l.alignr, l.hrules);
      }
    }
  }

  /** Column `c` of `kind` is the facade's own id. */
  ghost predicate IdAccessor(kind: Kind, c: string)
  {
    forall f: Facade :: Attr(kind, f, Lower(c)) == Ok(Str(f.resourceId))
  }

  /** When the first column is the facade's id, a listing's table has one
      row per queried id, in query order, each starting with that id. */
  lemma ListingIds(p: Provider, args: Args, l: Listing)
    requires |l.header| > 0 && !args.detail && IdAccessor(l.kind, l.header[0])
    requires ListSpec(p, args, l).Ok?
    ensures ListSpec(p, args, l).value.Shown?
    ensures var ids := QueryIds(p, l.collection, FilterName(args), FilterValue(args)).value;
            var t := ListSpec(p, args, l).value.table;
            |t.rows| == |ids| &&
            forall i :: 0 <= i < |ids| ==> |t.rows[i]| == |l.header| && t.rows[i][0] == Str(ids[i])
  {
    ListingTable(p, args, l);
    FoundFacades(p, args, l.collection, l.resourceType, l.notFound);
    var fs := Found(p, args, l.collection, l.resourceType, l.notFound).value;
    ColumnCells(l.kind, fs, l.header, 0);
  }

  /** The alignment of a listing's columns, as `print_table` sets it. */
  lemma ListingAlign(p: Provider, args: Args, l: Listing, c: string)
    requires |l.header| > 0 && ListSpec(p, args, l).Ok? && ListSpec(p, args, l).value.Shown?
    ensures var align := ListSpec(p, args, l).value.table.align;
            (c in l.alignr ==> c in align && align[c] == Right) &&
            (c !in l.alignr && c in l.alignl ==> c in align && align[c] == Left) &&
            (c !in l.alignr && c !in l.alignl && c in l.header ==> c in align && align[c] == Center)
  {
    var fs := Found(p, args, l.collection, l.resourceType, l.notFound).value;
    var rows := MapAll(fs, RowOf(l.kind, l.header)).value;
    TableAlign(l.header, rows, SortOr(args.sortby, l.defaultSort), l.alignl, l.alignr, l.hrules, c);
  }
}
