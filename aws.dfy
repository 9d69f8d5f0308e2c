/** The resource facade `Aws_ec2` of aws_list/resources/Aws.py: a resource
    type, a resource id and the metadata document the provider loaded for
    them, plus the tag helpers every resource kind shares, and `query_aws`,
    which collects resource ids.

    The facade's fields are set once by its constructor and only read
    afterwards, so the facade is a value here; the constructor, which can
    end the program, is `NewFacade`. The cloud provider is a parameter. */
module Aws {
  import opened Outcomes
  import opened Document

  /** The resource types a facade may be built for. */
  const AvailableTypes: seq<string> :=
    ["Volume", "Image", "Instance", "Vpc", "Subnet", "SecurityGroup", "RouteTable", "VpcPeeringConnection"]

  /** What the provider answers when asked to load one resource: its metadata
      (empty when it has none), or the failure it raised. */
  datatype LoadAnswer = Loaded(data: Dict) | LoadFailed(message: string)

  /** One provider filter: a filter name and the patterns it accepts. */
  datatype Filter = Filter(name: string, values: seq<string>)

  /** What the provider answers to a query, filtered or not: the ids of the
      matching resources in its own order, or a client error. */
  datatype QueryAnswer = Matched(ids: seq<string>) | Rejected(message: string)

  /** The cloud provider as seen by the program: `load` fetches one
      resource's metadata, `all` lists every id of a collection, `filter`
      lists the ids of a collection that pass a filter. */
  datatype Provider = Provider(
    load: (string, string) -> LoadAnswer,
    all: string -> QueryAnswer,
    filter: (string, seq<Filter>) -> QueryAnswer)

  // ---------------------------------------------------------------------------
  // Tags
  // ---------------------------------------------------------------------------

  /** A tag as the provider writes it: a dictionary with a Key and a Value. */
  predicate IsTag(t: Value)
  {
    t.Map? && Get(t.entries, "Key").Ok? && Get(t.entries, "Value").Ok?
  }

  function TagKey(t: Value): Value
    requires IsTag(t)
  {
    Get(t.entries, "Key").value
  }

  function TagVal(t: Value): Value
    requires IsTag(t)
  {
    Get(t.entries, "Value").value
  }

  predicate WellFormedTags(ts: seq<Value>)
  {
    forall i :: 0 <= i < |ts| ==> IsTag(ts[i])
  }

  /** The comprehension `[tag['Value'] for tag in tags if tag['Key'] == key]`. */
  function TagMatches(ts: seq<Value>, key: Value): (r: Result<seq<Value>>)
    ensures r.Err? ==> r.error.KeyError? || r.error.TypeError?
  {
    if ts == [] then Ok([])
    else
      var init :- TagMatches(ts[..|ts| - 1], key);
      var tag := ts[|ts| - 1];
      var k :- Subscript(tag, "Key");
      if k == key then
        var v :- Subscript(tag, "Value");
        Ok(init + [v])
      else Ok(init)
  }

  /** `tag['Key']`, the step of `all_tags_key`'s comprehension. */
  function KeyOfTag(t: Value): (r: Result<Value>)
    ensures IsTag(t) ==> r == Ok(TagKey(t))
  {
    Subscript(t, "Key")
  }

  /** The position of the first tag whose Key is `key`, or |ts| when none is. */
  function FirstKeyIndex(ts: seq<Value>, key: Value): (i: nat)
    requires WellFormedTags(ts)
    ensures i <= |ts|
    ensures i < |ts| ==> TagKey(ts[i]) == key
    ensures forall j :: 0 <= j < i ==> TagKey(ts[j]) != key
  {
    if ts == [] then 0
    else
      var init := ts[..|ts| - 1];
      assert forall j :: 0 <= j < |init| ==> init[j] == ts[j];
      var i := FirstKeyIndex(init, key);
      if i < |init| then i
      else if TagKey(ts[|ts| - 1]) == key then |init|
      else |ts|
  }

  /** One more well-formed tag at the end of the list. */
  lemma TagMatchesLast(ts: seq<Value>, key: Value)
    requires ts != [] && IsTag(ts[|ts| - 1])
    ensures TagMatches(ts, key) ==
              (var prev :- TagMatches(ts[..|ts| - 1], key);
               Ok(if TagKey(ts[|ts| - 1]) == key then prev + [TagVal(ts[|ts| - 1])] else prev))
  {
  }

  /** On well-formed tags the comprehension succeeds; it is empty exactly when
      no tag has the key, and otherwise starts with the value of the first
      tag that has it. */
  lemma {:induction false} TagMatchesWellFormed(ts: seq<Value>, key: Value)
    requires WellFormedTags(ts)
    ensures TagMatches(ts, key).Ok?
    ensures TagMatches(ts, key).value == [] <==> FirstKeyIndex(ts, key) == |ts|
    ensures TagMatches(ts, key).value != [] ==>
              TagMatches(ts, key).value[0] == TagVal(ts[FirstKeyIndex(ts, key)])
  {
    if ts != [] {
      var init := ts[..|ts| - 1];
      var tag := ts[|ts| - 1];
      assert forall i :: 0 <= i < |init| ==> init[i] == ts[i];
      TagMatchesWellFormed(init, key);
      var prev := TagMatches(init, key).value;
      var i0 := FirstKeyIndex(init, key);
      TagMatchesLast(ts, key);
      if i0 < |init| {
        assert prev != [];
      }
    }
  }

  // ---------------------------------------------------------------------------
  // The facade
  // ---------------------------------------------------------------------------

  datatype Facade = Facade(resourceType: string, resourceId: string, metadata: Dict) {

    /** `tag_value(key)`: the value of the first tag whose Key equals `key`,
        "" when no tag matches, and "" as well when a KeyError is raised on
        the way (no Tags entry, or a tag without Key or, once matched,
        without Value). */
    function TagValue(key: Value): (r: Result<Value>)
      ensures Get(metadata, "Tags").Err? ==> r == Ok(Str(""))
      ensures r.Err? ==> r.error.TypeError?
    {
      match Get(metadata, "Tags")
      case Err(_) => Ok(Str(""))
      case Ok(tags) =>
        match Items(tags)
        case Err(e) => Err(e)
        case Ok(ts) =>
          match TagMatches(ts, key)
          case Err(KeyError(_)) => Ok(Str(""))
          case Err(e) => Err(e)
          case Ok(vs) => Ok(if vs != [] then vs[0] else Str(""))
    }

    /** `all_tags_key()`: every tag's Key, in document order; a missing Tags
        entry is not caught. */
    function AllTagsKey(): (r: Result<seq<Value>>)
      ensures Get(metadata, "Tags").Err? ==> r == Err(KeyError("Tags"))
    {
      var tags :- Get(metadata, "Tags");
      var ts :- Items(tags);
      MapAll(ts, KeyOfTag)
    }

    /** `tag_name()`: the Name tag. */
    function TagName(): (r: Result<Value>)
      ensures Get(metadata, "Tags").Err? ==> r == Ok(Str(""))
      ensures r.Err? ==> r.error.TypeError?
    {
      TagValue(Str("Name"))
    }

    /** The `find_key` method of the facade: the same search as the
        module-level one. */
    method FindKey(dictObj: Value, key: string) returns (results: seq<Value>)
      ensures results == Search(dictObj, key)
      ensures forall v :: v in results <==> Binds(dictObj, key, v)
    {
      results := Document.FindKey(dictObj, key);
      forall v ensures v in results <==> Binds(dictObj, key, v) {
        SearchFindsBindings(dictObj, key, v);
      }
    }
  }

  /** all_tags_key fails only as a lookup does: a missing Tags entry or Key,
      or a value of the wrong shape. */
  lemma AllTagsKeyFailure(f: Facade)
    ensures f.AllTagsKey().Err? ==> LookupFailure(f.AllTagsKey().error)
  {
    var tags := Get(f.metadata, "Tags");
    if tags.Ok? && Items(tags.value).Ok? && MapAll(Items(tags.value).value, KeyOfTag).Err? {
      MapAllErr(Items(tags.value).value, KeyOfTag);
    }
  }

  /** The facade's tag list, when it holds one. */
  predicate HasTags(f: Facade, ts: seq<Value>)
  {
    Get(f.metadata, "Tags") == Ok(List(ts)) && WellFormedTags(ts)
  }

  /** tag_value returns the Value of the first tag with the key, and "" when
      no tag has it. */
  lemma TagValueFirstMatch(f: Facade, ts: seq<Value>, key: Value)
    requires HasTags(f, ts)
    ensures FirstKeyIndex(ts, key) < |ts| ==> f.TagValue(key) == Ok(TagVal(ts[FirstKeyIndex(ts, key)]))
    ensures FirstKeyIndex(ts, key) == |ts| ==> f.TagValue(key) == Ok(Str(""))
  {
    TagMatchesWellFormed(ts, key);
  }

  /** all_tags_key lists one key per tag, in order, duplicates included. */
  lemma AllTagsKeyInOrder(f: Facade, ts: seq<Value>)
    requires HasTags(f, ts)
    ensures f.AllTagsKey().Ok?
    ensures |f.AllTagsKey().value| == |ts|
    ensures forall i :: 0 <= i < |ts| ==> f.AllTagsKey().value[i] == TagKey(ts[i])
  {
    MapAllOk(ts, KeyOfTag);
  }

  /** Every key that all_tags_key lists is found again by tag_value, which
      returns the Value of the first tag, at or before the listed one, that
      carries the same key. */
  lemma ListedKeysHaveValues(f: Facade, ts: seq<Value>, k: nat)
    requires HasTags(f, ts) && k < |ts|
    ensures f.AllTagsKey().Ok? && |f.AllTagsKey().value| == |ts|
    ensures FirstKeyIndex(ts, f.AllTagsKey().value[k]) <= k
    ensures f.TagValue(f.AllTagsKey().value[k]) == Ok(TagVal(ts[FirstKeyIndex(ts, f.AllTagsKey().value[k])]))
  {
    AllTagsKeyInOrder(f, ts);
    TagValueFirstMatch(f, ts, TagKey(ts[k]));
  }

  /** The Name tag on a facade whose tags are well formed. */
  lemma TagNameIsNameTag(f: Facade, ts: seq<Value>)
    requires HasTags(f, ts)
    ensures FirstKeyIndex(ts, Str("Name")) < |ts| ==>
              f.TagName() == Ok(TagVal(ts[FirstKeyIndex(ts, Str("Name"))]))
    ensures FirstKeyIndex(ts, Str("Name")) == |ts| ==> f.TagName() == Ok(Str(""))
  {
    TagValueFirstMatch(f, ts, Str("Name"));
  }

  // ---------------------------------------------------------------------------
  // Construction
  // ---------------------------------------------------------------------------

  /** `Aws_ec2(ec2, resource_type, resource_id)`: an unknown type or an empty
      metadata document ends the program; a provider failure while loading
      propagates. */
  function NewFacade(p: Provider, resourceType: string, resourceId: string): (r: Result<Facade>)
    ensures resourceType !in AvailableTypes ==> r == Err(Exit("Erro: Aws class: Resource type not found"))
    ensures r.Ok? <==> resourceType in AvailableTypes &&
                        p.load(resourceType, resourceId).Loaded? && p.load(resourceType, resourceId).data != []
    ensures r.Ok? ==> r.value == Facade(resourceType, resourceId, p.load(resourceType, resourceId).data)
    ensures resourceType in AvailableTypes && p.load(resourceType, resourceId) == Loaded([]) ==>
              r == Err(Exit("metadata not loaded"))
  {
    if resourceType !in AvailableTypes then Err(Exit("Erro: Aws class: Resource type not found"))
    else
      match p.load(resourceType, resourceId)
      case LoadFailed(m) => Err(ClientError(m))
      case Loaded(data) =>
        if data == [] then Err(Exit("metadata not loaded"))
        else Ok(Facade(resourceType, resourceId, data))
  }

  /** The constructor for one resource type, as the list comprehensions of
      the command modules apply it to every id. */
  function Loader(p: Provider, resourceType: string): string -> Result<Facade>
  {
    id => NewFacade(p, resourceType, id)
  }

  /** Building the facades for a list of ids: one facade per id, in order, each
      holding the metadata loaded for its id; or the failure of the first id
      that could not be built. */
  lemma LoadAll(p: Provider, resourceType: string, ids: seq<string>)
    ensures MapAll(ids, Loader(p, resourceType)).Ok? ==>
              var fs := MapAll(ids, Loader(p, resourceType)).value;
              |fs| == |ids| &&
              forall i :: 0 <= i < |ids| ==>
                fs[i].resourceType == resourceType && fs[i].resourceId == ids[i] &&
                p.load(resourceType, ids[i]) == Loaded(fs[i].metadata)
    ensures MapAll(ids, Loader(p, resourceType)).Ok? <==>
              (ids != [] ==> resourceType in AvailableTypes) &&
              forall i :: 0 <= i < |ids| ==>
                p.load(resourceType, ids[i]).Loaded? && p.load(resourceType, ids[i]).data != []
  {
    MapAllOk(ids, Loader(p, resourceType));
    if ids != [] && resourceType !in AvailableTypes {
      assert Loader(p, resourceType)(ids[0]).Err?;
    }
  }

  // ---------------------------------------------------------------------------
  // query_aws
  // ---------------------------------------------------------------------------

  /** The single filter query_aws sends: the value is wrapped in wildcards. */
  function Filters(filterName: string, filterValue: string): seq<Filter>
  {
    [Filter(filterName, ["*" + filterValue + "*"])]
  }

  /** The ids `query_aws` returns for a collection. */
  function QueryIds(p: Provider, collection: string, filterName: string, filterValue: string): Result<seq<string>>
  {
    if filterName != "" then
      match p.filter(collection, Filters(filterName, filterValue))
      case Matched(ids) => Ok(ids)
      case Rejected(m) => Err(Exit(m))
    else
      match p.all(collection)
      case Matched(ids) => Ok(ids)
      case Rejected(m) => Err(ClientError(m))
  }

  /** `query_aws`: collects the ids of a collection, through the wildcard
      filter when a filter name is given and of every resource otherwise;
      a client error under a filter ends the program with its message, while
      one from the unfiltered listing is not caught and propagates. */
  method QueryAws(p: Provider, collection: string, filterName: string, filterValue: string)
    returns (r: Result<seq<string>>)
    ensures r == QueryIds(p, collection, filterName, filterValue)
    ensures filterName == "" ==>
              match p.all(collection)
              case Matched(ids) => r == Ok(ids)
              case Rejected(m) => r == Err(ClientError(m))
    ensures filterName != "" ==>
              match p.filter(collection, [Filter(filterName, ["*" + filterValue + "*"])])
              case Matched(ids) => r == Ok(ids)
              case Rejected(m) => r == Err(Exit(m))
  {
    var found: seq<string>;
    if filterName != "" {
      var answer := p.filter(collection, Filters(filterName, filterValue));
      if answer.Rejected? {
        return Err(Exit(answer.message));
      }
      found := answer.ids;
    } else {
      var answer := p.all(collection);
      if answer.Rejected? {
        return Err(ClientError(answer.message));
      }
      found := answer.ids;
    }
    var resources: seq<string> := [];
    var i := 0;
    while i < |found|
      invariant 0 <= i <= |found|
      invariant resources == found[..i]
    {
      resources := resources + [found[i]];
      i := i + 1;
    }
    assert resources == found;
    r := Ok(resources);
  }
}
