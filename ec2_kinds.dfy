/** The facades of aws_list/resources/Aws.py for instances, machine images,
    volumes, VPCs and subnets. Each Python subclass adds zero-argument
    accessors to `Aws_ec2`; the report builders call them by name, with
    `getattr(obj, column.lower())()`. Each module below gives that name
    dispatch as `Accessor(f, name)`: the result of the class's own accessor
    or of an inherited member (`Ec2Base.Inherited`), or AttributeError for a
    name neither defines. */

/** The members of the base class `Aws_ec2` that `getattr(f, name)()`
    reaches on every facade class. */
module Ec2Base {
  import opened Outcomes
  import opened Document
  import opened Aws

  /** The names every facade inherits from `Aws_ec2` that a call
      `getattr(f, name)()` can reach, besides `show_metadata`. */
  const InheritedNames: set<string> :=
    {"tag_name", "all_tags_key", "tag_value", "find_key",
     "resource_type", "resource_id", "ec2", "metadata", "available_types"}

  /** `getattr(f, name)()` for an inherited name: the tag helpers without
      parameters give their result, the keys as a list; `tag_value` and
      `find_key` are called without their arguments; the attributes the
      constructor sets, and the class's list of types, cannot be called. */
  function Inherited(f: Facade, name: string): Result<Value>
  {
    match name
    case "tag_name" => f.TagName()
    case "all_tags_key" => var keys :- f.AllTagsKey(); Ok(List(keys))
    case "tag_value" => Err(TypeError("tag_value() missing 1 required positional argument: 'key'"))
    case "find_key" => Err(TypeError("find_key() missing 2 required positional arguments: 'dict_obj' and 'key'"))
    case "resource_type" => Err(TypeError("'str' object is not callable"))
    case "resource_id" => Err(TypeError("'str' object is not callable"))
    case "ec2" => Err(TypeError("the provider's resource object is not callable"))
    case "metadata" => Err(TypeError("'dict' object is not callable"))
    case "available_types" => Err(TypeError("'list' object is not callable"))
    case _ => Err(AttributeError(name))
  }

  /** An inherited name never gives AttributeError, and any other name
      does; `tag_name` and `all_tags_key` give the tag helpers' results,
      the keys as a list, and every other inherited name is a TypeError. */
  lemma InheritedMembers(f: Facade, name: string)
    ensures name !in InheritedNames <==> Inherited(f, name) == Err(AttributeError(name))
    ensures name == "tag_name" ==> Inherited(f, name) == f.TagName()
    ensures name == "all_tags_key" ==>
              (Inherited(f, name).Ok? <==> f.AllTagsKey().Ok?) &&
              (Inherited(f, name).Ok? ==> Inherited(f, name).value == List(f.AllTagsKey().value))
    ensures name in InheritedNames - {"tag_name", "all_tags_key"} ==>
              Inherited(f, name).Err? && Inherited(f, name).error.TypeError?
  {
    match name
    case "tag_name" =>
    case "all_tags_key" => AllTagsKeyFailure(f);
    case "tag_value" =>
    case "find_key" =>
    case "resource_type" =>
    case "resource_id" =>
    case "ec2" =>
    case "metadata" =>
    case "available_types" =>
    case _ =>
  }
}

module Ec2Instance {
  import opened Outcomes
  import opened Document
  import opened Aws
  import opened Ec2Base

  /** Accessors that fall back to "" when their field is absent. */
  const OptionalFields: map<string, string> :=
    map["keyname" := "KeyName", "privateipaddress" := "PrivateIpAddress",
        "vpcid" := "VpcId", "subnetid" := "SubnetId"]

  /** Accessors whose field must be present. */
  const RequiredFields: map<string, string> :=
    map["instancetype" := "InstanceType", "imageid" := "ImageId",
        "launchtime" := "LaunchTime", "securitygroups" := "SecurityGroups"]

  /** The accessors `Aws_ec2_instance` defines itself. */
  const OwnNames: set<string> :=
    {"availabilityzone", "instanceid", "instancetype", "instancestate", "keyname", "privateipaddress",
     "imageid", "vpcid", "launchtime", "securitygroups", "subnetid", "getvolumesids"}

  const Names: set<string> := OwnNames + InheritedNames

  /** `getattr(instance, name)()` for the accessors of `Aws_ec2_instance`. */
  function Accessor(f: Facade, name: string): Result<Value>
  {
    match name
    case "availabilityzone" =>
      var placement :- Get(f.metadata, "Placement");
      Subscript(placement, "AvailabilityZone")
    case "instanceid" => Ok(Str(f.resourceId))
    case "instancetype" => Get(f.metadata, "InstanceType")
    case "instancestate" =>
      var state :- Get(f.metadata, "State");
      Subscript(state, "Name")
    case "keyname" => Ok(Optional(f.metadata, "KeyName"))
    case "privateipaddress" => Ok(Optional(f.metadata, "PrivateIpAddress"))
    case "imageid" => ImageId(f)
    case "vpcid" => Ok(Optional(f.metadata, "VpcId"))
    case "launchtime" => Get(f.metadata, "LaunchTime")
    case "securitygroups" => Get(f.metadata, "SecurityGroups")
    case "subnetid" => Ok(Optional(f.metadata, "SubnetId"))
    case "getvolumesids" => var ids :- GetVolumesIds(f); Ok(List(ids))
    case _ => Inherited(f, name)
  }
  /** The class overrides no member it inherits. */
  lemma Inherits(f: Facade, name: string)
    requires name in InheritedNames
    ensures Accessor(f, name) == Inherited(f, name)
  {
    match name
    case "tag_name" =>
    case "all_tags_key" =>
    case "tag_value" =>
    case "find_key" =>
    case "resource_type" =>
    case "resource_id" =>
    case "ec2" =>
    case "metadata" =>
    case "available_types" =>
    case _ => assert false;
  }

  /** A name the class defines, or inherits, never gives AttributeError;
      every other name does. */
  lemma Dispatch(f: Facade, name: string)
    ensures name !in Names <==> Accessor(f, name) == Err(AttributeError(name))
  {
    match name
    case "availabilityzone" =>
    case "instanceid" =>
    case "instancetype" =>
    case "instancestate" =>
    case "keyname" =>
    case "privateipaddress" =>
    case "imageid" =>
    case "vpcid" =>
    case "launchtime" =>
    case "securitygroups" =>
    case "subnetid" =>
    case "getvolumesids" => VolumeIdsFailure(f);
    case _ => InheritedMembers(f, name);
  }


  /** `imageid()`: the image the instance was launched from. */
  function ImageId(f: Facade): (r: Result<Value>)
    ensures r.Err? ==> r == Err(KeyError("ImageId"))
    ensures r.Ok? <==> exists i :: 0 <= i < |f.metadata| && f.metadata[i].0 == "ImageId"
  {
    Get(f.metadata, "ImageId")
  }

  /** The optional accessors never fail: they give the field when it is
      present and "" when it is absent. */
  lemma OptionalAccessors(f: Facade, name: string)
    requires name in OptionalFields
    ensures Accessor(f, name).Ok?
    ensures Get(f.metadata, OptionalFields[name]).Err? ==> Accessor(f, name) == Ok(Str(""))
    ensures Get(f.metadata, OptionalFields[name]).Ok? ==> Accessor(f, name) == Get(f.metadata, OptionalFields[name])
  {
    if name == "keyname" {
      assert Accessor(f, name) == Ok(Optional(f.metadata, "KeyName"));
    } else if name == "privateipaddress" {
      assert Accessor(f, name) == Ok(Optional(f.metadata, "PrivateIpAddress"));
    } else if name == "vpcid" {
      assert Accessor(f, name) == Ok(Optional(f.metadata, "VpcId"));
    } else {
      assert Accessor(f, name) == Ok(Optional(f.metadata, "SubnetId"));
    }
  }

  /** The other field accessors fail with KeyError when their field is absent. */
  lemma RequiredAccessors(f: Facade, name: string)
    requires name in RequiredFields
    ensures Accessor(f, name) == Get(f.metadata, RequiredFields[name])
    ensures Get(f.metadata, RequiredFields[name]).Err? ==> Accessor(f, name) == Err(KeyError(RequiredFields[name]))
  {
  }

  /** The nested accessors read the availability zone from Placement and the
      state name from State; a missing outer field is a KeyError. */
  lemma NestedAccessors(f: Facade)
    ensures Get(f.metadata, "Placement").Err? ==> Accessor(f, "availabilityzone") == Err(KeyError("Placement"))
    ensures Get(f.metadata, "Placement").Ok? ==>
              Accessor(f, "availabilityzone") == Subscript(Get(f.metadata, "Placement").value, "AvailabilityZone")
    ensures Get(f.metadata, "State").Err? ==> Accessor(f, "instancestate") == Err(KeyError("State"))
    ensures Get(f.metadata, "State").Ok? ==>
              Accessor(f, "instancestate") == Subscript(Get(f.metadata, "State").value, "Name")
  {
    ZoneAccessor(f);
    StateAccessor(f);
  }

  lemma ZoneAccessor(f: Facade)
    ensures Get(f.metadata, "Placement").Err? ==> Accessor(f, "availabilityzone") == Err(KeyError("Placement"))
    ensures Get(f.metadata, "Placement").Ok? ==>
              Accessor(f, "availabilityzone") == Subscript(Get(f.metadata, "Placement").value, "AvailabilityZone")
  {
  }

  lemma StateAccessor(f: Facade)
    ensures Get(f.metadata, "State").Err? ==> Accessor(f, "instancestate") == Err(KeyError("State"))
    ensures Get(f.metadata, "State").Ok? ==>
              Accessor(f, "instancestate") == Subscript(Get(f.metadata, "State").value, "Name")
  {
  }

  /** The instance id is the facade's resource id, and the Name tag is the
      shared tag helper. */
  lemma IdentityAccessors(f: Facade)
    ensures Accessor(f, "instanceid") == Ok(Str(f.resourceId))
    ensures Accessor(f, "tag_name") == f.TagName()
  {
  }

  /** `x['Ebs']['VolumeId']`, one step of `getvolumesids`. */
  function EbsVolumeId(mapping: Value): Result<Value>
  {
    var ebs :- Subscript(mapping, "Ebs");
    Subscript(ebs, "VolumeId")
  }

  /** `getvolumesids()`: the volume id of every block device mapping. */
  function GetVolumesIds(f: Facade): (r: Result<seq<Value>>)
    ensures Get(f.metadata, "BlockDeviceMappings").Err? ==> r == Err(KeyError("BlockDeviceMappings"))
  {
    var mappings :- Get(f.metadata, "BlockDeviceMappings");
    var xs :- Items(mappings);
    MapAll(xs, EbsVolumeId)
  }

  /** getvolumesids fails only as a lookup does. */
  lemma VolumeIdsFailure(f: Facade)
    ensures GetVolumesIds(f).Err? ==> LookupFailure(GetVolumesIds(f).error)
  {
    var mappings := Get(f.metadata, "BlockDeviceMappings");
    if mappings.Ok? && Items(mappings.value).Ok? && MapAll(Items(mappings.value).value, EbsVolumeId).Err? {
      MapAllErr(Items(mappings.value).value, EbsVolumeId);
    }
  }

  /** The `getvolumesids` accessor gives the volume ids as a list, and
      fails as getvolumesids does. */
  lemma VolumeIdsAccessor(f: Facade)
    ensures Accessor(f, "getvolumesids").Ok? <==> GetVolumesIds(f).Ok?
    ensures Accessor(f, "getvolumesids").Ok? ==> Accessor(f, "getvolumesids").value == List(GetVolumesIds(f).value)
    ensures GetVolumesIds(f).Err? ==> Accessor(f, "getvolumesids") == Err(GetVolumesIds(f).error)
  {
  }

  /** One volume id per block device mapping, in mapping order. */
  lemma VolumeIdsInOrder(f: Facade, xs: seq<Value>)
    requires Get(f.metadata, "BlockDeviceMappings") == Ok(List(xs))
    requires forall i :: 0 <= i < |xs| ==> EbsVolumeId(xs[i]).Ok?
    ensures GetVolumesIds(f).Ok? && |GetVolumesIds(f).value| == |xs|
    ensures forall i :: 0 <= i < |xs| ==> GetVolumesIds(f).value[i] == EbsVolumeId(xs[i]).value
  {
    MapAllOk(xs, EbsVolumeId);
  }

  /** A mapping that is not a dictionary, or lacks its Ebs volume id, makes
      the whole list fail with that mapping's error. */
  lemma VolumeIdsFailAtFirstBadMapping(f: Facade, xs: seq<Value>)
    requires Get(f.metadata, "BlockDeviceMappings") == Ok(List(xs))
    requires GetVolumesIds(f).Err?
    ensures exists k :: 0 <= k < |xs| && EbsVolumeId(xs[k]) == Err(GetVolumesIds(f).error) &&
                        forall i :: 0 <= i < k ==> EbsVolumeId(xs[i]).Ok?
  {
    MapAllErr(xs, EbsVolumeId);
  }
}

module Ec2Ami {
  import opened Outcomes
  import opened Document
  import opened Aws
  import opened Ec2Base

  const RequiredFields: map<string, string> :=
    map["description" := "Description", "creationdate" := "CreationDate", "ownerid" := "OwnerId",
        "rootdevicetype" := "RootDeviceType", "name" := "Name"]

  /** The accessors `Aws_ec2_ami` defines itself. */
  const OwnNames: set<string> :=
    {"description", "creationdate", "ownerid", "imageowneralias", "rootdevicetype", "name"}

  const Names: set<string> := OwnNames + InheritedNames

  /** `getattr(ami, name)()` for the accessors of `Aws_ec2_ami`. */
  function Accessor(f: Facade, name: string): Result<Value>
  {
    match name
    case "description" => Get(f.metadata, "Description")
    case "creationdate" => Get(f.metadata, "CreationDate")
    case "ownerid" => Get(f.metadata, "OwnerId")
    case "imageowneralias" => Ok(Optional(f.metadata, "ImageOwnerAlias"))
    case "rootdevicetype" => Get(f.metadata, "RootDeviceType")
    case "name" => Get(f.metadata, "Name")
    case _ => Inherited(f, name)
  }
  /** The class overrides no member it inherits. */
  lemma Inherits(f: Facade, name: string)
    requires name in InheritedNames
    ensures Accessor(f, name) == Inherited(f, name)
  {
    match name
    case "tag_name" =>
    case "all_tags_key" =>
    case "tag_value" =>
    case "find_key" =>
    case "resource_type" =>
    case "resource_id" =>
    case "ec2" =>
    case "metadata" =>
    case "available_types" =>
    case _ => assert false;
  }

  /** A name the class defines, or inherits, never gives AttributeError;
      every other name does. */
  lemma Dispatch(f: Facade, name: string)
    ensures name !in Names <==> Accessor(f, name) == Err(AttributeError(name))
  {
    match name
    case "description" =>
    case "creationdate" =>
    case "ownerid" =>
    case "imageowneralias" =>
    case "rootdevicetype" =>
    case "name" =>
    case _ => InheritedMembers(f, name);
  }


  /** The owner alias never fails: it is "" when absent. */
  lemma OptionalAccessor(f: Facade)
    ensures Accessor(f, "imageowneralias").Ok?
    ensures Get(f.metadata, "ImageOwnerAlias").Err? ==> Accessor(f, "imageowneralias") == Ok(Str(""))
    ensures Get(f.metadata, "ImageOwnerAlias").Ok? ==> Accessor(f, "imageowneralias") == Get(f.metadata, "ImageOwnerAlias")
  {
  }

  /** The other field accessors fail with KeyError when their field is absent. */
  lemma RequiredAccessors(f: Facade, name: string)
    requires name in RequiredFields
    ensures Accessor(f, name) == Get(f.metadata, RequiredFields[name])
    ensures Get(f.metadata, RequiredFields[name]).Err? ==> Accessor(f, name) == Err(KeyError(RequiredFields[name]))
  {
  }
}

module Ec2Volume {
  import opened Outcomes
  import opened Document
  import opened Aws
  import opened Ec2Base

  const RequiredFields: map<string, string> :=
    map["size" := "Size", "createtime" := "CreateTime", "iops" := "Iops", "volumetype" := "VolumeType",
        "state" := "State", "availabilityzone" := "AvailabilityZone"]

  /** The accessors `Aws_ec2_volume` defines itself. */
  const OwnNames: set<string> :=
    {"volumeid", "size", "createtime", "iops", "volumetype", "device", "state", "deleteontermination",
     "availabilityzone", "instanceid"}

  const Names: set<string> := OwnNames + InheritedNames

  /** `[i[field] for i in metadata['Attachments']]`. */
  function AttachmentField(f: Facade, field: string): Result<seq<Value>>
  {
    var attachments :- Get(f.metadata, "Attachments");
    var xs :- Items(attachments);
    MapAll(xs, FieldOf(field))
  }

  /** `",".join(...)` of one field over the attachments: the values themselves
      must be strings, or they are passed through `str()` first. */
  function JoinedField(f: Facade, field: string, asText: Value -> Result<string>): Result<Value>
  {
    var vs :- AttachmentField(f, field);
    var ss :- MapAll(vs, asText);
    Ok(Str(Join(ss, ",")))
  }

  /** The text of an attached value: the value itself, which must be a
      string, or its `str()`. */
  function TextOf(rendered: bool): Value -> Result<string>
  {
    if rendered then Render else AsStr
  }

  /** A joined field fails only as a lookup or a type check fails. */
  lemma JoinedFieldErrors(f: Facade, field: string, rendered: bool)
    ensures JoinedField(f, field, TextOf(rendered)).Err? ==>
              JoinedField(f, field, TextOf(rendered)).error.KeyError? ||
              JoinedField(f, field, TextOf(rendered)).error.TypeError?
  {
    var attachments := Get(f.metadata, "Attachments");
    if attachments.Ok? && Items(attachments.value).Ok? {
      var xs := Items(attachments.value).value;
      if MapAll(xs, FieldOf(field)).Err? {
        MapAllErr(xs, FieldOf(field));
      } else {
        var vs := MapAll(xs, FieldOf(field)).value;
        if MapAll(vs, TextOf(rendered)).Err? {
          MapAllErr(vs, TextOf(rendered));
        }
      }
    }
  }

  /** `getattr(volume, name)()` for the accessors of `Aws_ec2_volume`. */
  function Accessor(f: Facade, name: string): Result<Value>
  {
    match name
    case "volumeid" => Ok(Str(f.resourceId))
    case "size" => Get(f.metadata, "Size")
    case "createtime" => Get(f.metadata, "CreateTime")
    case "iops" => Get(f.metadata, "Iops")
    case "volumetype" => Get(f.metadata, "VolumeType")
    case "device" => JoinedField(f, "Device", TextOf(false))
    case "state" => Get(f.metadata, "State")
    case "deleteontermination" =>
      JoinedField(f, "DeleteOnTermination", TextOf(true))
    case "availabilityzone" => Get(f.metadata, "AvailabilityZone")
    case "instanceid" => JoinedField(f, "InstanceId", TextOf(false))
    case _ => Inherited(f, name)
  }
  /** The class overrides no member it inherits. */
  lemma Inherits(f: Facade, name: string)
    requires name in InheritedNames
    ensures Accessor(f, name) == Inherited(f, name)
  {
    match name
    case "tag_name" =>
    case "all_tags_key" =>
    case "tag_value" =>
    case "find_key" =>
    case "resource_type" =>
    case "resource_id" =>
    case "ec2" =>
    case "metadata" =>
    case "available_types" =>
    case _ => assert false;
  }

  /** A name the class defines, or inherits, never gives AttributeError;
      every other name does. */
  lemma Dispatch(f: Facade, name: string)
    ensures name !in Names <==> Accessor(f, name) == Err(AttributeError(name))
  {
    match name
    case "volumeid" =>
    case "size" =>
    case "createtime" =>
    case "iops" =>
    case "volumetype" =>
    case "device" => JoinedFieldErrors(f, "Device", false);
    case "state" =>
    case "deleteontermination" => JoinedFieldErrors(f, "DeleteOnTermination", true);
    case "availabilityzone" =>
    case "instanceid" => JoinedFieldErrors(f, "InstanceId", false);
    case _ => InheritedMembers(f, name);
  }


  /** The field accessors fail with KeyError when their field is absent; the
      volume id is the facade's resource id. */
  lemma RequiredAccessors(f: Facade, name: string)
    requires name in RequiredFields
    ensures Accessor(f, name) == Get(f.metadata, RequiredFields[name])
    ensures Get(f.metadata, RequiredFields[name]).Err? ==> Accessor(f, name) == Err(KeyError(RequiredFields[name]))
    ensures Accessor(f, "volumeid") == Ok(Str(f.resourceId))
  {
  }

  /** The accessors that join over the attachments: a missing Attachments
      entry is a KeyError, no attachments give "", and a result is always
      a string. */
  lemma JoinedAccessors(f: Facade, name: string)
    requires name in {"device", "deleteontermination", "instanceid"}
    ensures Get(f.metadata, "Attachments").Err? ==> Accessor(f, name) == Err(KeyError("Attachments"))
    ensures Get(f.metadata, "Attachments") == Ok(List([])) ==> Accessor(f, name) == Ok(Str(""))
    ensures Accessor(f, name).Ok? ==> Accessor(f, name).value.Str?
  {
  }

  /** A comma-joined accessor lists the text of the field of every
      attachment, in attachment order. */
  lemma JoinedFieldInOrder(f: Facade, field: string, asText: Value -> Result<string>,
                           xs: seq<Value>, ss: seq<string>)
    requires Get(f.metadata, "Attachments") == Ok(List(xs)) && |xs| == |ss|
    requires forall i :: 0 <= i < |xs| ==>
               Subscript(xs[i], field).Ok? && asText(Subscript(xs[i], field).value) == Ok(ss[i])
    ensures JoinedField(f, field, asText) == Ok(Str(Join(ss, ",")))
  {
    var vs := seq(|xs|, i requires 0 <= i < |xs| => Subscript(xs[i], field).value);
    MapAllIs(xs, FieldOf(field), vs);
    MapAllIs(vs, asText, ss);
  }

  /** The three joined accessors are JoinedField over their attachment field. */
  lemma JoinedAccessor(f: Facade)
    ensures Accessor(f, "device") == JoinedField(f, "Device", TextOf(false))
    ensures Accessor(f, "deleteontermination") == JoinedField(f, "DeleteOnTermination", TextOf(true))
    ensures Accessor(f, "instanceid") == JoinedField(f, "InstanceId", TextOf(false))
  {
    DeviceAccessor(f);
    FlagAccessor(f);
    InstanceIdAccessor(f);
  }

  lemma DeviceAccessor(f: Facade)
    ensures Accessor(f, "device") == JoinedField(f, "Device", TextOf(false))
  {
  }

  lemma FlagAccessor(f: Facade)
    ensures Accessor(f, "deleteontermination") == JoinedField(f, "DeleteOnTermination", TextOf(true))
  {
  }

  lemma InstanceIdAccessor(f: Facade)
    ensures Accessor(f, "instanceid") == JoinedField(f, "InstanceId", TextOf(false))
  {
  }

  /** The devices and instance ids of a volume can be read back from their
      cells: splitting the cell on commas gives one entry per attachment,
      in order, when the entries themselves hold no comma. */
  lemma AttachmentCellsSplit(f: Facade, name: string, xs: seq<Value>, ss: seq<string>)
    requires name == "device" || name == "instanceid"
    requires Get(f.metadata, "Attachments") == Ok(List(xs)) && |xs| == |ss| > 0
    requires forall i :: 0 <= i < |xs| ==>
               Subscript(xs[i], if name == "device" then "Device" else "InstanceId") == Ok(Str(ss[i]))
    requires forall i :: 0 <= i < |ss| ==> ',' !in ss[i]
    ensures Accessor(f, name).Ok? && Accessor(f, name).value.Str?
    ensures Split(Accessor(f, name).value.s, ',') == ss
  {
    var field := if name == "device" then "Device" else "InstanceId";
    JoinedAccessor(f);
    JoinedFieldInOrder(f, field, TextOf(false), xs, ss);
    SplitJoin(ss, ',');
  }

  function FlagText(b: bool): string
  {
    if b then "True" else "False"
  }

  function FlagTexts(flags: seq<bool>): (ss: seq<string>)
    ensures |ss| == |flags|
    ensures forall i :: 0 <= i < |flags| ==> ss[i] == FlagText(flags[i]) && ',' !in ss[i]
  {
    seq(|flags|, i requires 0 <= i < |flags| => FlagText(flags[i]))
  }

  lemma DeleteOnTerminationJoined(f: Facade, xs: seq<Value>, flags: seq<bool>)
    requires Get(f.metadata, "Attachments") == Ok(List(xs)) && |xs| == |flags|
    requires forall i :: 0 <= i < |xs| ==> Subscript(xs[i], "DeleteOnTermination") == Ok(Bool(flags[i]))
    ensures Accessor(f, "deleteontermination") == Ok(Str(Join(FlagTexts(flags), ",")))
  {
    var ss := FlagTexts(flags);
    forall i | 0 <= i < |xs|
      ensures Subscript(xs[i], "DeleteOnTermination").Ok?
      ensures TextOf(true)(Subscript(xs[i], "DeleteOnTermination").value) == Ok(ss[i])
    {
    }
    JoinedFieldInOrder(f, "DeleteOnTermination", TextOf(true), xs, ss);
    JoinedAccessor(f);
  }

  /** The delete-on-termination cell holds "True" or "False" per attachment, in order. */
  lemma DeleteOnTerminationCell(f: Facade, xs: seq<Value>, flags: seq<bool>)
    requires Get(f.metadata, "Attachments") == Ok(List(xs)) && |xs| == |flags| > 0
    requires forall i :: 0 <= i < |xs| ==> Subscript(xs[i], "DeleteOnTermination") == Ok(Bool(flags[i]))
    ensures Accessor(f, "deleteontermination").Ok? && Accessor(f, "deleteontermination").value.Str?
    ensures var cells := Split(Accessor(f, "deleteontermination").value.s, ',');
            |cells| == |flags| && forall i :: 0 <= i < |flags| ==> cells[i] == FlagText(flags[i])
  {
    DeleteOnTerminationJoined(f, xs, flags);
    SplitJoin(FlagTexts(flags), ',');
  }
}

module Ec2Vpc {
  import opened Outcomes
  import opened Document
  import opened Aws
  import opened Ec2Base

  const RequiredFields: map<string, string> :=
    map["cidrblock" := "CidrBlock", "dhcpoptionsid" := "DhcpOptionsId", "isdefault" := "IsDefault",
        "instancetenancy" := "InstanceTenancy", "state" := "State"]

  /** The accessors `Aws_ec2_vpc` defines itself. */
  const OwnNames: set<string> :=
    {"vpcid", "cidrblock", "dhcpoptionsid", "isdefault", "instancetenancy", "state"}

  const Names: set<string> := OwnNames + InheritedNames

  /** `getattr(vpc, name)()` for the accessors of `Aws_ec2_vpc`. */
  function Accessor(f: Facade, name: string): Result<Value>
  {
    match name
    case "vpcid" => Ok(Str(f.resourceId))
    case "cidrblock" => Get(f.metadata, "CidrBlock")
    case "dhcpoptionsid" => Get(f.metadata, "DhcpOptionsId")
    case "isdefault" => Get(f.metadata, "IsDefault")
    case "instancetenancy" => Get(f.metadata, "InstanceTenancy")
    case "state" => Get(f.metadata, "State")
    case _ => Inherited(f, name)
  }
  /** The class overrides no member it inherits. */
  lemma Inherits(f: Facade, name: string)
    requires name in InheritedNames
    ensures Accessor(f, name) == Inherited(f, name)
  {
    match name
    case "tag_name" =>
    case "all_tags_key" =>
    case "tag_value" =>
    case "find_key" =>
    case "resource_type" =>
    case "resource_id" =>
    case "ec2" =>
    case "metadata" =>
    case "available_types" =>
    case _ => assert false;
  }

  /** A name the class defines, or inherits, never gives AttributeError;
      every other name does. */
  lemma Dispatch(f: Facade, name: string)
    ensures name !in Names <==> Accessor(f, name) == Err(AttributeError(name))
  {
    match name
    case "vpcid" =>
    case "cidrblock" =>
    case "dhcpoptionsid" =>
    case "isdefault" =>
    case "instancetenancy" =>
    case "state" =>
    case _ => InheritedMembers(f, name);
  }


  /** The field accessors fail with KeyError when their field is absent; the
      id accessor is the facade's resource id. */
  lemma RequiredAccessors(f: Facade, name: string)
    requires name in RequiredFields
    ensures Accessor(f, name) == Get(f.metadata, RequiredFields[name])
    ensures Get(f.metadata, RequiredFields[name]).Err? ==> Accessor(f, name) == Err(KeyError(RequiredFields[name]))
    ensures Accessor(f, "vpcid") == Ok(Str(f.resourceId))
  {
  }
}

module Ec2Subnet {
  import opened Outcomes
  import opened Document
  import opened Aws
  import opened Ec2Base

  const RequiredFields: map<string, string> :=
    map["vpcid" := "VpcId", "cidrblock" := "CidrBlock", "availableipaddresscount" := "AvailableIpAddressCount",
        "availabilityzone" := "AvailabilityZone", "defaultforaz" := "DefaultForAz", "state" := "State"]

  /** The accessors `Aws_ec2_subnet` defines itself. */
  const OwnNames: set<string> :=
    {"subnetid", "vpcid", "cidrblock", "availableipaddresscount", "availabilityzone", "defaultforaz", "state"}

  const Names: set<string> := OwnNames + InheritedNames

  /** `getattr(subnet, name)()` for the accessors of `Aws_ec2_subnet`; unlike
      the instance's, the subnet's VpcId is required. */
  function Accessor(f: Facade, name: string): Result<Value>
  {
    match name
    case "subnetid" => Ok(Str(f.resourceId))
    case "vpcid" => Get(f.metadata, "VpcId")
    case "cidrblock" => Get(f.metadata, "CidrBlock")
    case "availableipaddresscount" => Get(f.metadata, "AvailableIpAddressCount")
    case "availabilityzone" => Get(f.metadata, "AvailabilityZone")
    case "defaultforaz" => Get(f.metadata, "DefaultForAz")
    case "state" => Get(f.metadata, "State")
    case _ => Inherited(f, name)
  }
  /** The class overrides no member it inherits. */
  lemma Inherits(f: Facade, name: string)
    requires name in InheritedNames
    ensures Accessor(f, name) == Inherited(f, name)
  {
    match name
    case "tag_name" =>
    case "all_tags_key" =>
    case "tag_value" =>
    case "find_key" =>
    case "resource_type" =>
    case "resource_id" =>
    case "ec2" =>
    case "metadata" =>
    case "available_types" =>
    case _ => assert false;
  }

  /** A name the class defines, or inherits, never gives AttributeError;
      every other name does. */
  lemma Dispatch(f: Facade, name: string)
    ensures name !in Names <==> Accessor(f, name) == Err(AttributeError(name))
  {
    match name
    case "subnetid" =>
    case "vpcid" =>
    case "cidrblock" =>
    case "availableipaddresscount" =>
    case "availabilityzone" =>
    case "defaultforaz" =>
    case "state" =>
    case _ => InheritedMembers(f, name);
  }


  /** The field accessors fail with KeyError when their field is absent; the
      id accessor is the facade's resource id. */
  lemma RequiredAccessors(f: Facade, name: string)
    requires name in RequiredFields
    ensures Accessor(f, name) == Get(f.metadata, RequiredFields[name])
    ensures Get(f.metadata, RequiredFields[name]).Err? ==> Accessor(f, name) == Err(KeyError(RequiredFields[name]))
    ensures Accessor(f, "subnetid") == Ok(Str(f.resourceId))
  {
  }
}
