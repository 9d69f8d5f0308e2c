# aws_list: a verified model of the resource facades and reports

aws_list is a command-line tool that lists EC2 resources: instances, security groups, subnets, volumes and VPCs. For each command it does four things:

- it asks the cloud provider for the ids of a collection, optionally through a name filter;
- it stops with exit status 1 when there is none;
- it wraps every id in a *facade* (`Aws_ec2` and its subclasses), which holds the metadata document loaded for the id;
- it either prints each facade's metadata (`--detail`) or prints a prettytable, with one row per facade and one cell per header column.

Each cell comes from the facade accessor that the lower-cased column name selects.

This project models that core in Dafny:

- **The document.** The provider's metadata is a `Document.Value`: strings, numbers, booleans, opaque scalars, lists, and dictionaries kept in insertion order. Module `Document` also holds the Python operations the program applies to it: subscripting, iteration, truthiness, `str()`, `join`, `split`, and the recursive key search `find_key`.
- **The facade.** Module `Aws` models the facade as a value, because its fields are written only by its constructor. It also holds the tag helpers and `query_aws`. The cloud provider is a parameter, `Aws.Provider`.
- **The accessors.** `Ec2Instance`, `Ec2Ami`, `Ec2Volume`, `Ec2Vpc`, `Ec2Subnet` and `Ec2SecGroup` give each subclass's accessors as an explicit name → accessor dispatch. A name the subclass does not define falls through to the members of `Aws_ec2` (`Ec2Base.Inherited`), and a name neither defines is an AttributeError.
- **The table helper.** `Pcof` models `print_table` as a table value: header, rows, effective sort column, alignment map and rule style. It also holds the byte-unit conversions over exact reals, the percentage helpers, and the epoch-time offsets with the clock as a parameter.
- **The report pipeline.** `Reports` holds what the commands share: the parsed arguments, the row projection, and the common course of a listing command.
- **The commands.**
  - `SecurityGroup`, `Subnet`, `Volumes` and `Vpcs` are the four listing commands.
  - `Instances`, `InstanceNames` and `InstanceTags` are the instance reports.
  - `InstanceCommands` holds `cmd_num_inst` and `cmd_list_instances`.

**Failures and loops.**

- Every failure is an `Outcomes.Error`: an uncaught Python exception, or `msg(..., 1)`, which is `Exit(message)`.
- Every loop that stops at the first raising element is `Outcomes.MapAll` (or `FlatMapAll`).
- Where the source grows a list, a string or a set in a loop, the model is a `method` with that loop. It is proved equal to a specification function, and the properties are proved about that function.

**Iteration order.**

- Python iterates a `set` in an order the program does not control. Three places depend on it: the keys of the tags report, the distinct values of `cmd_num_inst`, and the VPC and subnet facades of the names report.
- Those reports take that order as a parameter, `order: set<Value> -> seq<Value>`. Their properties hold for every order that lists each member once (`Reports.IsOrder`).

## Model

| member | source | states |
|---|---|---|
| Aws.TagMatches | aws_list/resources/Aws.py:70-71 | The Value comprehension over the tags fails only with KeyError (a tag without Key or, once matched, without Value) or TypeError (a tag that is not a dictionary) |
| Aws.TagMatchesWellFormed | aws_list/resources/Aws.py:70-71 | On well-formed tags the comprehension succeeds. It is empty exactly when no tag has the key; otherwise its first element is the Value of the first tag with that key |
| Aws.KeyOfTag | aws_list/resources/Aws.py:86 | One step of `all_tags_key` on a well-formed tag is that tag's Key |
| Aws.Facade.TagValue | aws_list/resources/Aws.py:60-78 | A facade with no Tags entry gives "", because the KeyError is caught; the only failure that escapes is a TypeError |
| Aws.TagValueFirstMatch | aws_list/resources/Aws.py:60-78 | `tag_value(k)` is the Value of the first tag whose Key is k, and "" when no tag has k |
| Aws.Facade.AllTagsKey | aws_list/resources/Aws.py:80-89 | A missing Tags entry is not caught: KeyError("Tags") |
| Aws.AllTagsKeyFailure | aws_list/resources/Aws.py:80-89 | `all_tags_key()` fails only with KeyError or TypeError |
| Ec2Base.InheritedMembers | aws_list/resources/Aws.py:17-126 | `getattr(f, name)()` on a member of `Aws_ec2`: `tag_name` gives `tag_name()`, `all_tags_key` gives the key list; `tag_value` and `find_key` called without their arguments, and the attributes resource_type, resource_id, ec2, metadata and available_types, which are not callable, raise TypeError. Any other name is AttributeError |
| Aws.AllTagsKeyInOrder | aws_list/resources/Aws.py:80-89 | One key per tag, in document order, duplicates kept |
| Aws.ListedKeysHaveValues | aws_list/resources/Aws.py:60-89 | Every key `all_tags_key` lists is found again by `tag_value`, which gives the Value of the first tag with that key, at or before the listed one |
| Aws.Facade.TagName | aws_list/resources/Aws.py:91-95 | "" without Tags; only a TypeError can escape |
| Aws.TagNameIsNameTag | aws_list/resources/Aws.py:91-95 | `tag_name()` is the Value of the first tag keyed "Name", and "" when there is none |
| Aws.Facade.FindKey | aws_list/resources/Aws.py:97-126 | The method's loops return the recursive search `Search`, which holds exactly the values bound to the key (both directions) |
| Aws.NewFacade | aws_list/resources/Aws.py:25-44 | An unknown type exits with "Erro: Aws class: Resource type not found", and empty metadata exits with "metadata not loaded". The facade exists exactly when the type is known and the provider loads non-empty metadata, and it then holds the type, the id and that metadata |
| Aws.LoadAll | aws_list/resources/instances.py:248-249 | The comprehension of constructors gives one facade per id, in order, each with its id, the command's type and the metadata loaded for it. It succeeds exactly when every id loads non-empty metadata under a known type |
| Aws.QueryAws | aws_list/resources/Aws.py:399-422 | Without a filter name: every id of the collection, in provider order, and a client error while listing it is not caught (ClientError). With one: the ids matching the single filter whose value is wrapped as `*value*`, and a client error exits with its message |
| Document.Get | aws_list/resources/Aws.py:138 | `d[key]` is the value of an entry with that key, and KeyError(key) exactly when there is none |
| Document.Optional | aws_list/resources/Aws.py:149-153 | `try d[key] except KeyError: ""`: the value when present, "" when absent |
| Document.Subscript | aws_list/resources/Aws.py:147 | Subscripting anything but a dictionary is a TypeError |
| Document.Items | aws_list/resources/Aws.py:339 | Iteration: a list yields its items, a dictionary its keys in order, a scalar number, boolean or opaque value is a TypeError |
| Document.AsStr | aws_list/resources/instances.py:217 | A string concatenation succeeds exactly on a string operand, and otherwise is a TypeError |
| Document.Render | aws_list/resources/Aws.py:344-348 | `str()` fails exactly on containers. It is the string itself for a string and "True"/"False" for a boolean; for an integer it reads back as the same integer |
| Document.IntToStringRoundTrip | aws_list/resources/Aws.py:344 | The digits `str()` writes for an integer parse back to that integer |
| Document.JoinByHand | aws_list/resources/instances.py:100-105 | Joining by hand (`if acc: acc += sep`, then `acc += part`) over non-empty parts is `sep.join` |
| Document.SplitJoin | aws_list/resources/Aws.py:240-242 | Splitting a join on its one-character separator gives the parts back, when there is a part and none contains the separator |
| Document.FindKey | aws_list/resources/pcof.py:235-264 | The loops plus recursion of module-level `find_key` compute `Search` |
| Document.SearchFindsBindings | aws_list/resources/pcof.py:235-264 | A value is returned exactly when it is bound to the key along a path that crosses no other entry with that key, so a match is not searched further (both directions) |
| Document.SearchEntriesBindings | aws_list/resources/pcof.py:249-256 | The first n dictionary entries contribute exactly the matching values and the bindings below the non-matching entries |
| Document.SearchItemsBindings | aws_list/resources/pcof.py:258-262 | The first n list items contribute exactly the bindings inside them |
| Document.SearchMapOrder | aws_list/resources/pcof.py:249-256 | Dictionary entries are searched in insertion order: the results of earlier entries precede those of later ones |
| Document.SearchListOrder | aws_list/resources/pcof.py:258-262 | List items are searched in order |
| Document.SearchStopsAtMatch | aws_list/resources/pcof.py:252-253 | A matching entry contributes its value alone, not what is nested in it |
| Document.SearchScalar | aws_list/resources/pcof.py:246-264 | A scalar yields no result |
| Document.SearchExample | aws_list/resources/pcof.py:235-264 | {"A": {"B": "x"}, "C": [{"B": "y"}]} searched for "B" gives ["x", "y"] |
| Ec2Instance.Dispatch | aws_list/resources/Aws.py:132-184 | `getattr(instance, name)()` is AttributeError exactly for a name that neither `Aws_ec2_instance` (its accessors and `getvolumesids`) nor `Aws_ec2` defines (`show_metadata` and Python's built-in object attributes aside, see "## Left out") |
| Ec2Instance.Inherits | aws_list/resources/Aws.py:132-184 | The instance class overrides no member of `Aws_ec2`: an inherited name gives the base class's result |
| Ec2Instance.OptionalAccessors | aws_list/resources/Aws.py:149-180 | keyname, privateipaddress, vpcid and subnetid never fail. Each gives its field when present and "" when absent |
| Ec2Instance.ImageId | aws_list/resources/Aws.py:161-162 | `imageid()` succeeds exactly when the instance has an ImageId field, and otherwise is KeyError("ImageId") |
| Ec2Instance.RequiredAccessors | aws_list/resources/Aws.py:143-174 | instancetype, imageid, launchtime and securitygroups read their field and fail with KeyError naming it when it is absent |
| Ec2Instance.NestedAccessors | aws_list/resources/Aws.py:137-147 | availabilityzone is Placement.AvailabilityZone and instancestate is State.Name; a missing outer field is a KeyError |
| Ec2Instance.IdentityAccessors | aws_list/resources/Aws.py:140-141 | instanceid is the facade's resource id, and tag_name is the shared Name-tag helper |
| Ec2Instance.GetVolumesIds | aws_list/resources/Aws.py:182-184 | A missing BlockDeviceMappings is KeyError("BlockDeviceMappings") |
| Ec2Instance.VolumeIdsFailure | aws_list/resources/Aws.py:182-184 | `getvolumesids()` fails only with KeyError or TypeError |
| Ec2Instance.VolumeIdsAccessor | aws_list/resources/Aws.py:182-184 | `getattr(instance, "getvolumesids")()` is the list of volume ids, and fails exactly when, and as, `getvolumesids()` does |
| Ec2Instance.VolumeIdsInOrder | aws_list/resources/Aws.py:182-184 | One Ebs.VolumeId per block device mapping, in mapping order |
| Ec2Instance.VolumeIdsFailAtFirstBadMapping | aws_list/resources/Aws.py:182-184 | A failing list fails with the error of its first bad mapping, after only good ones |
| Ec2Ami.Dispatch | aws_list/resources/Aws.py:190-214 | `getattr(obj, name)()` is AttributeError exactly for a name that neither `Aws_ec2_ami` nor `Aws_ec2` defines (`show_metadata` and Python's built-in object attributes aside, see "## Left out") |
| Ec2Ami.Inherits | aws_list/resources/Aws.py:190-214 | The image class overrides no member of `Aws_ec2` |
| Ec2Ami.OptionalAccessor | aws_list/resources/Aws.py:204-208 | imageowneralias never fails, and is "" when absent |
| Ec2Ami.RequiredAccessors | aws_list/resources/Aws.py:195-214 | description, creationdate, ownerid, rootdevicetype and name read their field, or fail with KeyError naming it |
| Ec2Volume.Dispatch | aws_list/resources/Aws.py:220-257 | `getattr(obj, name)()` is AttributeError exactly for a name that neither `Aws_ec2_volume` nor `Aws_ec2` defines (`show_metadata` and Python's built-in object attributes aside, see "## Left out") |
| Ec2Volume.Inherits | aws_list/resources/Aws.py:220-257 | The volume class overrides no member of `Aws_ec2` |
| Ec2Volume.RequiredAccessors | aws_list/resources/Aws.py:225-253 | The field accessors read their field or fail with KeyError naming it; volumeid is the resource id |
| Ec2Volume.JoinedFieldErrors | aws_list/resources/Aws.py:240-257 | A comma-joined accessor fails only with KeyError or TypeError |
| Ec2Volume.JoinedAccessors | aws_list/resources/Aws.py:240-257 | device, deleteontermination and instanceid fail with KeyError("Attachments") when it is missing. They give "" for no attachments and always give a string |
| Ec2Volume.JoinedAccessor | aws_list/resources/Aws.py:240-257 | The three joined accessors join Device, DeleteOnTermination (through `str()`) and InstanceId over the attachments |
| Ec2Volume.JoinedFieldInOrder | aws_list/resources/Aws.py:240-257 | A joined accessor is the attachments' field texts, in attachment order, joined by "," |
| Ec2Volume.AttachmentCellsSplit | aws_list/resources/Aws.py:240-257 | The device and instance-id cells split back on "," into one entry per attachment, in order, when no entry holds a comma |
| Ec2Volume.FlagTexts | aws_list/resources/Aws.py:250 | `str()` of each flag is "True" or "False", which holds no comma |
| Ec2Volume.DeleteOnTerminationJoined | aws_list/resources/Aws.py:247-250 | The delete-on-termination cell is "True"/"False" per attachment, joined by "," |
| Ec2Volume.DeleteOnTerminationCell | aws_list/resources/Aws.py:247-250 | That cell splits back into one flag text per attachment, in order |
| Ec2Vpc.Dispatch | aws_list/resources/Aws.py:263-284 | `getattr(obj, name)()` is AttributeError exactly for a name that neither `Aws_ec2_vpc` nor `Aws_ec2` defines (`show_metadata` and Python's built-in object attributes aside, see "## Left out") |
| Ec2Vpc.Inherits | aws_list/resources/Aws.py:263-284 | The VPC class overrides no member of `Aws_ec2` |
| Ec2Vpc.RequiredAccessors | aws_list/resources/Aws.py:268-284 | The field accessors read their field or fail with KeyError naming it; vpcid is the resource id |
| Ec2Subnet.Dispatch | aws_list/resources/Aws.py:290-314 | `getattr(obj, name)()` is AttributeError exactly for a name that neither `Aws_ec2_subnet` nor `Aws_ec2` defines (`show_metadata` and Python's built-in object attributes aside, see "## Left out") |
| Ec2Subnet.Inherits | aws_list/resources/Aws.py:290-314 | The subnet class overrides no member of `Aws_ec2` |
| Ec2Subnet.RequiredAccessors | aws_list/resources/Aws.py:295-314 | The field accessors, VpcId included, read their field or fail with KeyError naming it; subnetid is the resource id |
| Ec2SecGroup.Dispatch | aws_list/resources/Aws.py:320-391 | `getattr(obj, name)()` is AttributeError exactly for a name that neither `Aws_ec2_secgroup` nor `Aws_ec2` defines (`show_metadata` and Python's built-in object attributes aside, see "## Left out") |
| Ec2SecGroup.Inherits | aws_list/resources/Aws.py:320-391 | The security group class overrides no member of `Aws_ec2` |
| Ec2SecGroup.RequiredAccessors | aws_list/resources/Aws.py:325-335 | vpcid, groupname and description read their field or fail with KeyError; groupid is the resource id |
| Ec2SecGroup.RuleAccessors | aws_list/resources/Aws.py:337-391 | inbound is the rule text of IpPermissions and outbound that of IpPermissionsEgress, failure for failure |
| Ec2SecGroup.PortTextShape | aws_list/resources/Aws.py:340-349 | A port suffix is never empty and ends with ")" |
| Ec2SecGroup.AnyProtocolPort | aws_list/resources/Aws.py:340-341 | Protocol "-1" gives "(any -> any/any)" |
| Ec2SecGroup.RulesTextFailure | aws_list/resources/Aws.py:337-363 | The rule text fails only as a lookup or type check fails |
| Ec2SecGroup.RuleLinesFailure | aws_list/resources/Aws.py:339-361 | The lines of one rule fail only as a lookup or type check fails |
| Ec2SecGroup.SourcesFailure | aws_list/resources/Aws.py:351-358 | Reading the CIDR blocks or source groups fails only as a lookup or type check fails |
| Ec2SecGroup.LineFailure | aws_list/resources/Aws.py:352-355 | Writing the lines of the sources fails only as `str()` fails |
| Ec2SecGroup.LinesNonEmpty | aws_list/resources/Aws.py:353-355 | Every line ends with a non-empty port suffix, so none is empty |
| Ec2SecGroup.AppendLines | aws_list/resources/Aws.py:352-355 | The inner loop (a newline when the text is not empty, then `str(source) + port`) keeps the text equal to all lines so far joined by newlines |
| Ec2SecGroup.AppendGroups | aws_list/resources/Aws.py:356-361 | The source-group loop continues that join after the CIDR lines |
| Ec2SecGroup.AppendRule | aws_list/resources/Aws.py:339-361 | One pass of the outer loop appends exactly the lines of the rule, and keeps every line non-empty |
| Ec2SecGroup.Rules | aws_list/resources/Aws.py:337-391 | The nested loops of `inbound`/`outbound` compute the rule text: the lines of every rule, in rule order, joined by newlines |
| Ec2SecGroup.RuleLinesAfterCidrs | aws_list/resources/Aws.py:351-361 | A rule's lines are its CIDR lines followed by its group lines |
| Ec2SecGroup.RuleLinesCount | aws_list/resources/Aws.py:351-361 | A rule has one line per CIDR block plus one per source group, and each line ends with the rule's port suffix |
| Ec2SecGroup.LinesOfStrings | aws_list/resources/Aws.py:352-355 | String sources give each source followed by the port |
| Ec2SecGroup.RuleOfStrings | aws_list/resources/Aws.py:351-361 | A rule with string sources gives the CIDR lines, then the group lines, each suffixed with the port |
| Ec2SecGroup.TcpRuleExample | aws_list/resources/Aws.py:339-361 | Port 22 over TCP from 10.0.0.0/8 with no source group gives exactly "10.0.0.0/8 (22 -> tcp/22)" |
| Ec2SecGroup.NoRulesNoText | aws_list/resources/Aws.py:337-363 | An empty rule list gives "" |
| Ec2SecGroup.MissingRules | aws_list/resources/Aws.py:339 | A missing rule list is a KeyError naming it |
| Ec2SecGroup.RulesTextSplits | aws_list/resources/Aws.py:337-363 | Splitting the text on newlines gives back every line, in order, with no leading or trailing separator, when no source holds a newline |
| Ec2SecGroup.RuleOrder | aws_list/resources/Aws.py:339-363 | The lines of a list of rules are the lines of its first part followed by those of the rest |
| Pcof.HRuleNamed | aws_list/resources/pcof.py:105-106 | `getattr(prettytable, hrules)` succeeds exactly for FRAME, HEADER, ALL and NONE, and is otherwise an AttributeError |
| Pcof.PrintTable | aws_list/resources/pcof.py:88-123 | The construction, rule, row-copy, sort and alignment steps configure exactly the table `MakeTable` describes |
| Pcof.TableRows | aws_list/resources/pcof.py:103-117 | The table exists exactly when the names are distinct, the rule style is known or absent, and every row is as wide as the header. It then holds the rows as given, one per input row, in order, with the chosen sort column and rule |
| Pcof.SortFallback | aws_list/resources/pcof.py:114-117 | An empty sortby sets no sort; a sortby in the header is used as is, and any other falls back to the first column |
| Pcof.AlignedAt | aws_list/resources/pcof.py:118-121 | After an alignment loop, the columns it names have its alignment and every other column keeps its own |
| Pcof.TableAlign | aws_list/resources/pcof.py:118-121 | A column in alignr is right-aligned even when alignl names it too, one only in alignl is left-aligned, and every other column is centred |
| Pcof.Float | aws_list/resources/pcof.py:373-376 | `float()` converts numbers exactly and fails only with ValueError or TypeError |
| Pcof.UnitIndex | aws_list/resources/pcof.py:383 | `suffix.index(unit)` exists exactly for the seven suffixes and points at the unit |
| Pcof.Bytes2Human | aws_list/resources/pcof.py:338-394 | The checks and the dividing loop compute `BytesToHuman` |
| Pcof.BytesToHumanChecks | aws_list/resources/pcof.py:369-386 | Non-integer precision or base raises ValueError, in that order. An explicit unit outside the suffixes raises ValueError; any suffix, Bytes included, divides the size by base to the power of its position |
| Pcof.BytesToHumanSizeErrors | aws_list/resources/pcof.py:373-376 | Once precision and base are numbers, a size that `float()` rejects with ValueError, such as a string spelling no number, raises ValueError("Value is not a number"); a list, dictionary or other object keeps `float()`'s TypeError |
| Pcof.AutoUnit | aws_list/resources/pcof.py:388-394 | For a base of at least 2 and no unit, the result is the size in the unit j with base^j ≤ size < base^(j+1) (Bytes below the base). A size of base^7 or more raises "Value greater than the highest unit" |
| Pcof.AutoScaleFrom | aws_list/resources/pcof.py:389-394 | The same, for the loop started at any unit k |
| Pcof.AutoScaleErrors | aws_list/resources/pcof.py:392-393 | The only error of the loop is "Value greater than the highest unit" |
| Pcof.BytesToHumanExamples | aws_list/resources/pcof.py:356-360 | 10 is 10 Bytes and 2048 is 2 KB |
| Pcof.HumanToBytesUnits | aws_list/resources/pcof.py:424-436 | human2bytes accepts exactly KB to EB (not Bytes) and multiplies by base^k for the k-th suffix |
| Pcof.UnitRoundTrip | aws_list/resources/pcof.py:383-434 | Converting to a unit other than Bytes and back gives the size again |
| Pcof.HumanToBytesExample | aws_list/resources/pcof.py:415-417 | 10 GB is 10737418240 bytes |
| Pcof.PctTwoNumbers | aws_list/resources/pcof.py:473-477 | 0 when number2 is 0 (the ZeroDivisionError is caught); otherwise r·number2 = number1·100 |
| Pcof.XPctOfNumber | aws_list/resources/pcof.py:506-507 | r·100 = number·pct |
| Pcof.PercentRoundTrip | aws_list/resources/pcof.py:447-507 | The percentage n1 is of n2, taken of n2, is n1 again |
| Pcof.PercentExamples | aws_list/resources/pcof.py:464-499 | 10 is 20 percent of 50, 40 percent of 200 is 80, and anything of 0 is 0 |
| Pcof.EpochTimeNow | aws_list/resources/pcof.py:563-568 | "yes" reads the UTC clock and "no" the local one; any other value raises TypeError |
| Pcof.EpochTimeMinAgo | aws_list/resources/pcof.py:592 | now − 60·minutes, failing exactly as `epoch_time_now` does |
| Pcof.EpochTimeHoursAgo | aws_list/resources/pcof.py:616 | now − 3600·hours, failing exactly as `epoch_time_now` does |
| Pcof.EpochTimeDaysAgo | aws_list/resources/pcof.py:640 | now − 86400·days, failing exactly as `epoch_time_now` does |
| Pcof.EpochOffsetsAgree | aws_list/resources/pcof.py:592-640 | n hours ago is 60n minutes ago, and n days ago is 24n hours ago |
| Reports.ClassesDispatch | aws_list/resources/instances.py:180-181 | For every facade class, `getattr(f, name)()` is AttributeError exactly for a name the class neither defines nor inherits from `Aws_ec2` (`show_metadata` and Python's built-in object attributes aside, see "## Left out") |
| Reports.ProjectRows | aws_list/resources/subnet.py:46-51 | The nested row loops compute one row per facade of the accessors the header names |
| Reports.RowCells | aws_list/resources/subnet.py:48-50 | A row exists exactly when every column's accessor succeeds, and cell j is the accessor of column j |
| Reports.RowShape | aws_list/resources/subnet.py:46-51 | One row per facade, in order, each as wide as the header; a failing accessor fails them all |
| Reports.ColumnCells | aws_list/resources/subnet.py:46-51 | Column j of row i is the accessor column j names, applied to facade i |
| Reports.TableOverRows | aws_list/resources/pcof.py:103-117 | With distinct names and a known rule, the table exists exactly when the rows do and fit, and then holds them with the chosen sort column |
| Reports.FacadeTable | aws_list/resources/subnet.py:46-54 | A table of facades exists exactly when every cell does, and has one row per facade |
| Reports.MappedTable | aws_list/resources/instances.py:29-44 | A table of one row per element holds row i of element i |
| Reports.FlatMappedTable | aws_list/resources/instances.py:57-81 | A table of one block per element holds the blocks one after the other |
| Reports.SetOf | aws_list/resources/instances.py:255 | `set(xs)` holds exactly the values of xs, and is a TypeError exactly when one of them is a list or dictionary |
| Reports.FindResources | aws_list/resources/subnet.py:24-37 | Reading the filter, querying, stopping on no id and building the facades computes `Found` |
| Reports.FoundFacades | aws_list/resources/subnet.py:24-37 | No id exits with the command's message. Without a filter the ids are the whole collection, and a client error while listing it propagates as ClientError. Otherwise there is one facade per id, in query order, holding the metadata loaded for it |
| Reports.ListResources | aws_list/resources/subnet.py:18-54 | The body the listing commands share computes `ListSpec` |
| Reports.ListingDetail | aws_list/resources/subnet.py:39-41 | With `--detail` the command shows the facades and prints no table |
| Reports.ListingTable | aws_list/resources/subnet.py:42-54 | Otherwise: the header, one row per facade of the accessors it names, the requested or default sort column, and the rule style. With valid constants only the facades or a cell can fail |
| Reports.ListingAlign | aws_list/resources/subnet.py:52-54 | A listing's columns are aligned as `print_table` sets them |
| Reports.ListingIds | aws_list/resources/subnet.py:42-51 | Without `--detail`, when the first column reads the facade's own id, the table has one row per found id, in query order, each as wide as the header and starting with that id |
| SecurityGroup.CmdListSecurityGroup | aws_list/resources/securitygroup.py:19-59 | The command is the shared listing with its constants, and no id exits with "Error: No security group found" |
| SecurityGroup.ColumnsDefined | aws_list/resources/securitygroup.py:45-54 | Every column of both headers names a security group accessor |
| SecurityGroup.SecurityGroupTable | aws_list/resources/securitygroup.py:41-59 | Without `--detail` the table exists exactly when the facades and their cells do |
| SecurityGroup.SecurityGroupLayout | aws_list/resources/securitygroup.py:45-59 | `--rules` selects the InBound/OutBound header and Description otherwise. A rule goes after every row, and the sort is by the requested column, else GroupId |
| SecurityGroup.IdColumn | aws_list/resources/Aws.py:325-326 | The GroupId column is the resource id |
| SecurityGroup.RuleColumns | aws_list/resources/securitygroup.py:46-54 | The InBound and OutBound columns are the inbound and outbound rule texts |
| SecurityGroup.SecurityGroupRows | aws_list/resources/securitygroup.py:50-55 | One row per queried id, in query order, as wide as the header, starting with that id |
| SecurityGroup.SecurityGroupRules | aws_list/resources/securitygroup.py:45-55 | Under `--rules`, cells 4 and 5 of each row are the group's rule texts |
| SecurityGroup.SecurityGroupAlign | aws_list/resources/securitygroup.py:57-59 | GroupName, Description and the rule columns are left-aligned; the ids are centred |
| Subnet.CmdListSubnets | aws_list/resources/subnet.py:18-54 | The command is the shared listing with its constants, and no id exits with "Error: No subnet found" |
| Subnet.ColumnsDefined | aws_list/resources/subnet.py:43-50 | Every column names a subnet accessor |
| Subnet.SubnetTable | aws_list/resources/subnet.py:42-54 | The table exists exactly when the facades and cells do; it has the fixed header and sorts by the requested column, else SubnetId |
| Subnet.IdColumn | aws_list/resources/Aws.py:295-296 | The SubnetId column is the resource id |
| Subnet.SubnetRows | aws_list/resources/subnet.py:46-51 | One 8-cell row per queried id, in query order, starting with that id |
| Subnet.SubnetAlign | aws_list/resources/subnet.py:52-54 | CidrBlock and Tag_Name are left-aligned, the rest centred |
| Volumes.CmdListVolumes | aws_list/resources/volumes.py:18-56 | The command is the shared listing with its constants, and no id exits with "Error: No volumes found" |
| Volumes.ColumnsDefined | aws_list/resources/volumes.py:44-51 | Every column names a volume accessor |
| Volumes.VolumeTable | aws_list/resources/volumes.py:43-56 | The table exists exactly when the facades and cells do. It sorts by InstanceId by default; an unknown sort column falls back to VolumeId |
| Volumes.IdColumn | aws_list/resources/Aws.py:225-226 | The VolumeId column is the resource id |
| Volumes.VolumeRows | aws_list/resources/volumes.py:47-52 | One 9-cell row per queried id, in query order, starting with that id |
| Volumes.VolumeAlign | aws_list/resources/volumes.py:54-56 | Size is right-aligned, the rest centred |
| Vpcs.CmdListVpcs | aws_list/resources/vpcs.py:18-54 | The command is the shared listing with its constants, and no id exits with "Error: No vpcs found" |
| Vpcs.ColumnsDefined | aws_list/resources/vpcs.py:43-50 | Every column names a VPC accessor |
| Vpcs.VpcTable | aws_list/resources/vpcs.py:42-54 | The table exists exactly when the facades and cells do; it sorts by the requested column, else VpcId |
| Vpcs.IdColumn | aws_list/resources/Aws.py:268-269 | The VpcId column is the resource id |
| Vpcs.VpcRows | aws_list/resources/vpcs.py:45-50 | One 7-cell row per queried id, in query order, starting with that id |
| Vpcs.VpcAlign | aws_list/resources/vpcs.py:52-54 | CidrBlock is left-aligned, the rest centred |
| Instances.ShowInstancesTable | aws_list/resources/instances.py:170-187 | The row loops and `print_table` compute `TableSpec` |
| Instances.IdColumn | aws_list/resources/Aws.py:140-141 | The InstanceId column is the resource id |
| Instances.InstanceTable | aws_list/resources/instances.py:174-187 | The table exists exactly when every cell does, with one row per instance of the nine accessors, sorted by the requested column, else InstanceId |
| Instances.InstanceTableIds | aws_list/resources/instances.py:177-183 | Each row is 9 cells wide and starts with its instance's id |
| Instances.BuildJoinRow | aws_list/resources/instances.py:31-40 | The row loop of a joined report: the instance's columns, then those of the facade built for the id |
| Instances.JoinRowParts | aws_list/resources/instances.py:31-40 | A joined row exists exactly when the instance's cells do, the id is a string the provider loads, and the other facade's cells do. It has a cell per column of either part |
| Instances.JoinRowCell | aws_list/resources/instances.py:33-39 | Cell k is the instance's accessor for its own columns, then the loaded facade's accessor |
| Instances.JoinRowNamed | aws_list/resources/instances.py:33-39 | The same, with the accessor names the lowered columns give |
| Instances.JoinRowIds | aws_list/resources/instances.py:33-39 | When both parts lead with an id column, a row starts with the instance id and its second part with the joined id |
| Instances.BuildImageRows | aws_list/resources/instances.py:30-40 | The loop builds one row per instance, in order: the instance's cells, then, with the id `imageid()` reads, the cells of the image loaded for it; the first failure ends the loop |
| Instances.ShowInstancesAmi | aws_list/resources/instances.py:22-44 | The row loop and `print_table` compute `AmiSpec` |
| Instances.AmiColumns | aws_list/resources/instances.py:26-39 | The AMI report calls instanceid, tag_name and imageid on the instance, and description, ownerid and imageowneralias on the image loaded for its ImageId. Its third column reads `imageid()` |
| Instances.ImageRowParts | aws_list/resources/instances.py:31-40 | A row joined on `imageid()` holds the instance's own cells, then the image id as a string the provider loads, then the cells of the image loaded for that id |
| Instances.AmiRowsFit | aws_list/resources/instances.py:26-40 | Each row is as wide as the header |
| Instances.AmiTable | aws_list/resources/instances.py:26-44 | One row per instance, in order, sorted by the requested column, else InstanceId |
| Instances.BuildVolumeRows | aws_list/resources/instances.py:60-71 | The rows of one instance: one per volume id, in mapping order |
| Instances.ShowInstancesVolume | aws_list/resources/instances.py:50-81 | The nested loops and `print_table` compute `VolumeSpec` |
| Instances.VolumeJoinIds | aws_list/resources/instances.py:54-70 | Two instance columns, then six volume columns, each part leading with its id |
| Instances.InstanceVolumeRows | aws_list/resources/instances.py:58-71 | An instance contributes one row per volume id, in mapping order, each naming the instance and that volume; without mappings it contributes none |
| Instances.VolumeTable | aws_list/resources/instances.py:57-81 | The table is the rows of every instance in turn, as many as there are volumes, sorted by the requested column, else InstanceId |
| Instances.VolumeAlign | aws_list/resources/instances.py:73-81 | Size is right-aligned, Tag_Name left-aligned, the rest centred |
| Instances.GroupLineShape | aws_list/resources/instances.py:103-105 | A group line exists exactly for a dictionary with string GroupId and GroupName, and is "GroupId -> GroupName" |
| Instances.GroupLinesNonEmpty | aws_list/resources/instances.py:103-105 | No group line is empty |
| Instances.GroupsText | aws_list/resources/instances.py:96-106 | The string built by `+=` is `GroupsCell` |
| Instances.GroupsCellLines | aws_list/resources/instances.py:96-106 | The SecurityGroups cell is one line per group, in order, joined by newlines: "" without groups, and the lines split back out when none holds a newline |
| Instances.BuildSecGroupRow | aws_list/resources/instances.py:94-110 | The loop over the header computes one cell per column in order, the SecurityGroups column through the group loop and every other column through its accessor; the first failure ends it |
| Instances.SecGroupRowCells | aws_list/resources/instances.py:94-110 | A row has 3 cells: the instance id, and (third) the SecurityGroups cell |
| Instances.ShowInstancesSecgroup | aws_list/resources/instances.py:87-114 | The row loop and `print_table` compute `SecGroupSpec` |
| Instances.SecGroupTable | aws_list/resources/instances.py:91-114 | One row per instance, in order, with a rule after every row, sorted by the requested column, else InstanceId |
| InstanceNames.TruthyOnly | aws_list/resources/instances.py:122 | `[x for x in xs if x]` keeps exactly the truthy values |
| InstanceNames.CollectIds | aws_list/resources/instances.py:122-126 | The comprehension and the set compute `IdSet` |
| InstanceNames.IdSetMembers | aws_list/resources/instances.py:122-126 | The id set holds only non-empty values, and every instance's non-empty accessor value is in it |
| InstanceNames.LoadedFromIds | aws_list/resources/instances.py:130-132 | One facade per id, in order, each with that id and the metadata loaded for it |
| InstanceNames.FindName | aws_list/resources/instances.py:142-144 | The name comprehension and its first element compute `NameAmong` |
| InstanceNames.LookUpName | aws_list/resources/instances.py:142-147 | The name of the facade whose id the instance's accessor gives |
| InstanceNames.MatchingNone | aws_list/resources/instances.py:142-144 | No facade has the id, so nothing matches |
| InstanceNames.MatchingOnly | aws_list/resources/instances.py:142-144 | Exactly one facade has the id, so it alone matches |
| InstanceNames.NameOfSingle | aws_list/resources/instances.py:142-144 | A single match gives its Name tag |
| InstanceNames.ResolvedName | aws_list/resources/instances.py:122-147 | An id of the set finds the facade loaded for it, whose Name tag is the answer; an empty id gives "" |
| InstanceNames.NameCellField | aws_list/resources/instances.py:142-147 | A name cell looks up the optional field behind the accessor, and "" when it is absent |
| InstanceNames.BuildNamesRow | aws_list/resources/instances.py:138-149 | The appends of one row compute `NamesRow` |
| InstanceNames.NamesRowCells | aws_list/resources/instances.py:138-149 | A row exists only when `tag_name()`, both name lookups and `availabilityzone()` succeed, and is then the instance id, its Name tag, the VPC name and subnet name for its VpcId and SubnetId, and the availability zone, in that order |
| InstanceNames.ShowInstancesNames | aws_list/resources/instances.py:120-153 | The report computes `NamesSpec` for the given set order |
| InstanceNames.NamesTable | aws_list/resources/instances.py:134-153 | One 5-cell row per instance, in order, starting with its id, sorted by the requested column, else InstanceId |
| InstanceNames.CellResolves | aws_list/resources/instances.py:122-147 | A name cell is the Name tag of the facade loaded for the instance's field, or "" without that field |
| InstanceNames.NamesResolve | aws_list/resources/instances.py:120-149 | VpcName is the Name tag of the VPC loaded for the instance's VpcId, "" without one; SubnetName likewise |
| InstanceTags.UnionAll | aws_list/resources/instances.py:198-200 | The union holds exactly the members of some set |
| InstanceTags.CollectKeys | aws_list/resources/instances.py:198-200 | The `update` loop computes `AllKeys`, the union of every instance's tag keys |
| InstanceTags.KeysCovered | aws_list/resources/instances.py:198-200 | Every key of every instance's tags is in the key set |
| InstanceTags.Present | aws_list/resources/instances.py:214-217 | The lines kept are exactly the lines present |
| InstanceTags.LineOfKey | aws_list/resources/instances.py:211-217 | The loop body computes `TagLine` |
| InstanceTags.TagLineOfTag | aws_list/resources/instances.py:211-217 | No line when no tag has the key or its value is empty, "key -> value" for string key and value, and TypeError otherwise |
| InstanceTags.CellStep | aws_list/resources/instances.py:214-217 | Appending a line, or none, keeps the text equal to the lines joined by newlines |
| InstanceTags.TagsText | aws_list/resources/instances.py:209-218 | The string built by `+=` is `TagsCell` |
| InstanceTags.PresentNone | aws_list/resources/instances.py:210-217 | With no line present, none is kept |
| InstanceTags.MissingTagsFails | aws_list/resources/instances.py:198-200 | Collecting the keys fails with KeyError('Tags') at the first instance without a Tags entry, and so does the whole report |
| InstanceTags.NoTagsEmptyCell | aws_list/resources/instances.py:209-218 | The cell helper gives an empty cell for an instance without Tags (the report itself never gets there, see `MissingTagsFails`) |
| InstanceTags.ShowInstancesTags | aws_list/resources/instances.py:193-223 | The report computes `TagsSpec` for the given set order |
| InstanceTags.TagsTable | aws_list/resources/instances.py:205-223 | The table exists exactly when the keys and rows do. It has one 2-cell row per instance (the id, then the Tags cell over every key), a rule after each row, and is always sorted by InstanceId |
| InstanceTags.TagsShown | aws_list/resources/instances.py:198-223 | Every tag whose key is a string and whose first value is a non-empty string shows as "key -> value" in its instance's cell |
| InstanceTags.CellLinesAreTags | aws_list/resources/instances.py:209-218 | Every line of a cell is "key -> value" for the first tag of some key, with string key and non-empty string value |
| InstanceCommands.Count | aws_list/resources/instances.py:258 | `all_types.count(v)` is the multiplicity of v |
| InstanceCommands.CmdNumInst | aws_list/resources/instances.py:229-263 | The counting loop and `print_table` compute `NumInstSpec`, and no id exits with "Error: No instance found" |
| InstanceCommands.UnknownPerType | aws_list/resources/instances.py:251 | A `--pertype` naming no member of the instance class or of `Aws_ec2` fails with AttributeError (`show_metadata` and Python's built-in object attributes aside, see "## Left out") |
| InstanceCommands.PerTypeNamed | aws_list/resources/instances.py:251 | Values exist only for a `--pertype` naming a member of the instance class or of `Aws_ec2` |
| InstanceCommands.CountsAddUp | aws_list/resources/instances.py:255-258 | Counting each distinct value once adds up to the number of values |
| InstanceCommands.CountRowsMeaning | aws_list/resources/instances.py:254-259 | One row per distinct value with its positive count; every value is in exactly one row, and the counts add up to the number of values |
| InstanceCommands.NumInstTable | aws_list/resources/instances.py:251-263 | The table exists exactly when every value exists and is hashable. Its header is [pertype, "Number"], it is sorted by the requested column, else pertype, and there is one value per instance |
| InstanceCommands.NumInstCounts | aws_list/resources/instances.py:251-263 | Each row is a value and the number of instances having it, which is positive. Every value is in exactly one row, and the counts sum to the number of instances |
| InstanceCommands.CmdListInstances | aws_list/resources/instances.py:269-302 | The dictionary dispatch computes `ListInstancesSpec`, and no id exits with "Error: No instance found" |
| InstanceCommands.ListNoneFound | aws_list/resources/instances.py:280-285 | No id exits, whatever the output |
| InstanceCommands.ListUnknownOutput | aws_list/resources/instances.py:292-302 | An output the dictionary does not hold is a KeyError once the instances are built |
| InstanceCommands.ListDetail | aws_list/resources/instances.py:159-164 | `detail` shows the metadata of the instances found |
| InstanceCommands.ShowShown | aws_list/resources/instances.py:292-302 | Every report but `detail` is a table |
| InstanceCommands.ListShown | aws_list/resources/instances.py:292-302 | A listing that succeeds came from one of the seven outputs, and is a table exactly when that output is not `detail` |

## Left out

- The cloud provider is an abstract parameter: `load` fetches one resource, `all` lists a collection, `filter` runs one filtered query; `all` and `filter` answer with ids or a client error. boto3 sessions, `initialize_boto3_session` and the internals of `.load()`, `.all()` and `.filter()` are not modelled.
- Output is a value, not printed text:
  - `msg` is `Exit(message)` when it ends the program; the messages it only prints are not modelled.
  - Logging and `pprint` are not modelled.
  - `show_metadata` is the `Details` report: the facades whose metadata would be printed.
  - prettytable's rendered text and its row sorting are not modelled; the table records the sort column it would use.
- `epoch_time_to_human` is not modelled: it is locale- and timezone-dependent `strftime` formatting. The clock that `epoch_time_now` reads is a parameter (`Pcof.Clock`), in whole seconds.
- Decimal formatting to `precision` digits is not modelled in `bytes2human`, `human2bytes`, `pct_two_numbers` and `x_pct_of_number`. Magnitudes are exact reals, not floats. Because the digits are not rendered, a `precision` that is a bool or a negative number is accepted by the model, where Python's `'%.*f'` formatting would raise.
- `float()` of a string accepts only decimal integer literals with an optional sign.
- `str.lower()` is modelled on ASCII letters only.
- `validate_ip`, `send_email`, `run_cmd`, `setup_logging` and `nested_dict` of pcof.py are not part of this model: they are I/O and process helpers.
- Python's `True == 1` equality is not modelled. Booleans and numbers are distinct values, so a set or count of accessor values never merges `True` with `1`.
- Python iterates sets in an order the program does not control. The order is a parameter of the three reports that depend on it, and their properties hold for every order.
- `str()` of a list or dictionary is a TypeError in the model, where Python would print its representation. The only values that reach it are rule sources and port numbers, which the provider sends as strings and numbers, and a volume's DeleteOnTermination flags (`deleteontermination`), which the provider sends as booleans.
- A VPC, subnet, image or volume id read from metadata must be a string for its facade to be built (`Instances.IdLoader`); anything else is a TypeError.
- `getattr(prettytable, hrules)` resolves only the four rule styles. Any other attribute name is an AttributeError, although prettytable has other attributes.
- Ec2Instance.Dispatch: `show_metadata` is not in the name dispatch of any facade class; it prints the metadata and returns None, which the document model has no value for. Python's built-in object attributes (`__init__`, `__class__`, `__dict__`, ...) are not in it either. Both give AttributeError in the model.
- Ec2Ami.Dispatch: leaves `show_metadata` and the built-in object attributes out of the dispatch, as Ec2Instance.Dispatch does.
- Ec2Volume.Dispatch: leaves `show_metadata` and the built-in object attributes out of the dispatch, as Ec2Instance.Dispatch does.
- Ec2Vpc.Dispatch: leaves `show_metadata` and the built-in object attributes out of the dispatch, as Ec2Instance.Dispatch does.
- Ec2Subnet.Dispatch: leaves `show_metadata` and the built-in object attributes out of the dispatch, as Ec2Instance.Dispatch does.
- Ec2SecGroup.Dispatch: leaves `show_metadata` and the built-in object attributes out of the dispatch, as Ec2Instance.Dispatch does.
- Reports.ClassesDispatch: leaves `show_metadata` and the built-in object attributes out of the dispatch, as Ec2Instance.Dispatch does.
- InstanceCommands.UnknownPerType: leaves `show_metadata` and the built-in object attributes out of the dispatch, as Ec2Instance.Dispatch does.
- Python's default arguments are not modelled: every parameter is explicit. The defaults are `precision=2` and `base=1024` for `bytes2human` and `human2bytes`, `precision='2'` for the percentage helpers, and `minutes=5`, `hours=1` and `days=1` for the epoch helpers.
- `cmd_list_instances`, `cmd_num_inst` and the listing commands take their arguments as an `Args` value; argparse is not modelled.
- Instances.SecGroupRowCells: states the id and SecurityGroups cells but not the Tag_Name cell, which is the plain accessor.
- InstanceCommands.NumInstCounts: does not state the order of the rows, which follows the set iteration order.
- InstanceNames.ShowInstancesNames: the source calls `vpcid()`/`subnetid()` once per comparison inside the name comprehensions. The model reads each once per row; the accessors are pure reads, so the result is the same.
