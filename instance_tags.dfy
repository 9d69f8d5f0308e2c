/** `show_instances_tags` of aws_list/resources/instances.py: one row per
    instance holding its id and, one line per tag key known to any of the
    instances, `key -> value` for the keys the instance has a non-empty
    value for. */
module InstanceTags {
  import opened Outcomes
  import opened Document
  import opened Aws
  import opened Pcof
  import opened Reports

  const TagsHeader: seq<string> := ["InstanceId", "Tags"]

  // ---------------------------------------------------------------------------
  // The specification
  // ---------------------------------------------------------------------------

  /** The keys one instance adds to the key set: `set.update` with the list
      `all_tags_key()` returns. */
  function KeySetOf(f: Facade): Result<set<Value>>
  {
    var ks :- f.AllTagsKey();
    SetOf(ks)
  }

  /** The union of the sets, in turn. */
  function UnionAll(ss: seq<set<Value>>): (r: set<Value>)
    ensures forall v :: v in r <==> exists i :: 0 <= i < |ss| && v in ss[i]
  {
    if ss == [] then {}
    else
      var init := ss[..|ss| - 1];
      assert forall i :: 0 <= i < |init| ==> init[i] == ss[i];
      UnionAll(init) + ss[|ss| - 1]
  }

  /** Every tag key of every instance. */
  function AllKeys(instances: seq<Facade>): Result<set<Value>>
  {
    var sets :- MapAll(instances, KeySetOf);
    Ok(UnionAll(sets))
  }

  /** What one key adds to an instance's cell: `key -> value` when the
      instance's value for the key is non-empty, nothing otherwise. Both
      operands of the concatenation must be strings. */
  function TagLine(instance: Facade, key: Value): Result<Option<string>>
  {
    var value :- instance.TagValue(key);
    if Truthy(value) then
      var k :- AsStr(key);
      var v :- AsStr(value);
      Ok(Some(k + " -> " + v))
    else Ok(None)
  }

  function TagLineOf(instance: Facade): Value -> Result<Option<string>>
  {
    key => TagLine(instance, key)
  }

  /** The lines that are there, in order. */
  function Present(opts: seq<Option<string>>): (r: seq<string>)
    ensures forall x :: x in r <==> Some(x) in opts
  {
    if opts == [] then []
    else
      var init := opts[..|opts| - 1];
      assert opts == init + [opts[|opts| - 1]];
      Present(init) + (if opts[|opts| - 1].Some? then [opts[|opts| - 1].value] else [])
  }

  /** The lines of an instance's cell, one per key in the order given. */
  function TagLines(instance: Facade, keys: seq<Value>): Result<seq<string>>
  {
    var opts :- MapAll(keys, TagLineOf(instance));
    Ok(Present(opts))
  }

  /** The Tags cell: the lines, one below the other. */
  function TagsCell(instance: Facade, keys: seq<Value>): Result<Value>
  {
    var lines :- TagLines(instance, keys);
    Ok(Str(Join(lines, "\n")))
  }

  function TagsRow(instance: Facade, keys: seq<Value>): Result<seq<Value>>
  {
    var cell :- TagsCell(instance, keys);
    Ok([Str(instance.resourceId), cell])
  }

  function TagsRowOf(keys: seq<Value>): Facade -> Result<seq<Value>>
  {
    instance => TagsRow(instance, keys)
  }

  /** The whole report. The keys are visited in the order in which the loop
      over the key set visits them, which `order` gives; the table is always
      sorted by InstanceId. */
  function TagsSpec(order: set<Value> -> seq<Value>, instances: seq<Facade>): Result<Table>
  {
    var keys :- AllKeys(instances);
    TableOver(MapAll(instances, TagsRowOf(order(keys))), TagsHeader, "InstanceId", ["Tags"], [], "ALL")
  }

  // ---------------------------------------------------------------------------
  // The program
  // ---------------------------------------------------------------------------

  /** `all_keys = set()`, then `all_keys.update(instance.all_tags_key())`
      for every instance. */
  method CollectKeys(instances: seq<Facade>) returns (r: Result<set<Value>>)
    ensures r == AllKeys(instances)
  {
    var keys: set<Value> := {};
    ghost var sets: seq<set<Value>> := [];
    for i := 0 to |instances|
      invariant MapAll(instances[..i], KeySetOf) == Ok(sets)
      invariant keys == UnionAll(sets)
    {
      var added := KeySetOf(instances[i]);
      MapAllNext(instances, i, KeySetOf, sets, added);
      if added.Err? {
        return Err(added.error);
      }
      assert (sets + [added.value])[..|sets|] == sets;
      keys := keys + added.value;
      sets := sets + [added.value];
    }
    assert instances[..|instances|] == instances;
    return Ok(keys);
  }

  /** The body of the loop over the keys: the tag's value, and the line
      when the value is non-empty. */
  method LineOfKey(instance: Facade, key: Value) returns (r: Result<Option<string>>)
    ensures r == TagLine(instance, key)
  {
    var value :- instance.TagValue(key);
    if Truthy(value) {
      var k :- AsStr(key);
      var v :- AsStr(value);
      return Ok(Some(k + " -> " + v));
    }
    return Ok(None);
  }

  /** Appending one more line, or none, to the cell built by hand keeps it
      equal to the lines joined with newlines. */
  lemma CellStep(opts: seq<Option<string>>, text: string, line: Option<string>)
    requires AllNonEmpty(Present(opts)) && text == Join(Present(opts), "\n")
    requires line.Some? ==> line.value != ""
    ensures AllNonEmpty(Present(opts + [line]))
    ensures Join(Present(opts + [line]), "\n") ==
              if line.Some? then (if text != "" then text + "\n" else "") + line.value else text
  {
    assert (opts + [line])[..|opts|] == opts;
    if line.Some? {
      JoinByHand(Present(opts), line.value, "\n");
      AllNonEmptyAppend(Present(opts), [line.value]);
    } else {
      assert Present(opts + [line]) == Present(opts);
    }
  }

  /** The cell built by hand: a newline before every line but the first. */
  method TagsText(instance: Facade, keys: seq<Value>) returns (r: Result<Value>)
    ensures r == TagsCell(instance, keys)
  {
    var text := "";
    ghost var opts: seq<Option<string>> := [];
    for k := 0 to |keys|
      invariant MapAll(keys[..k], TagLineOf(instance)) == Ok(opts)
      invariant AllNonEmpty(Present(opts)) && text == Join(Present(opts), "\n")
    {
      var line := LineOfKey(instance, keys[k]);
      MapAllNext(keys, k, TagLineOf(instance), opts, line);
      if line.Err? {
        return Err(line.error);
      }
      CellStep(opts, text, line.value);
      if line.value.Some? {
        if text != "" {
          text := text + "\n";
        }
        text := text + line.value.value;
      }
      opts := opts + [line.value];
    }
    assert keys[..|keys|] == keys;
    return Ok(Str(text));
  }

  method ShowInstancesTags(order: set<Value> -> seq<Value>, instances: seq<Facade>) returns (r: Result<Table>)
    ensures r == TagsSpec(order, instances)
  {
    var keySet :- CollectKeys(instances);
    var keys := order(keySet);
    var rows: seq<seq<Value>> := [];
    for i := 0 to |instances|
      invariant MapAll(instances[..i], TagsRowOf(keys)) == Ok(rows)
    {
      var cell := TagsText(instances[i], keys);
      var row: Result<seq<Value>> := if cell.Ok? then Ok([Str(instances[i].resourceId), cell.value]) else Err(cell.error);
      MapAllNext(instances, i, TagsRowOf(keys), rows, row);
      if row.Err? {
        return Err(row.error);
      }
      rows := rows + [row.value];
    }
    assert instances[..|instances|] == instances;
    r := PrintTable(TagsHeader, rows, "InstanceId", ["Tags"], [], "ALL");
  }

  // ---------------------------------------------------------------------------
  // Properties
  // ---------------------------------------------------------------------------

  /** No line is there when none is. */
  lemma {:induction false} PresentNone(opts: seq<Option<string>>)
    requires forall i :: 0 <= i < |opts| ==> opts[i].None?
    ensures Present(opts) == []
  {
    if opts != [] {
      PresentNone(opts[..|opts| - 1]);
    }
  }

  /** The report fails with KeyError('Tags') at the first instance that has
      no Tags entry: collecting the keys comes first, so an instance without
      tags never reaches its Tags cell. */
  lemma MissingTagsFails(order: set<Value> -> seq<Value>, instances: seq<Facade>, k: nat)
    requires k < |instances| && Get(instances[k].metadata, "Tags").Err?
    requires forall i :: 0 <= i < k ==> KeySetOf(instances[i]).Ok?
    ensures AllKeys(instances) == Err(KeyError("Tags"))
    ensures TagsSpec(order, instances) == Err(KeyError("Tags"))
  {
    var prefix := instances[..k];
    assert forall i :: 0 <= i < |prefix| ==> prefix[i] == instances[i];
    MapAllOk(prefix, KeySetOf);
    MapAllStep(instances, k, KeySetOf);
    MapAllPrefixErr(instances, k + 1, KeySetOf);
  }

  /** An instance without a Tags entry has no value for any key, so its
      Tags cell is empty. */
  lemma NoTagsEmptyCell(instance: Facade, keys: seq<Value>)
    requires Get(instance.metadata, "Tags").Err?
    ensures TagsCell(instance, keys) == Ok(Str(""))
  {
    forall j | 0 <= j < |keys| ensures TagLineOf(instance)(keys[j]) == Ok(None) {
    }
    MapAllOk(keys, TagLineOf(instance));
    var opts := MapAll(keys, TagLineOf(instance)).value;
    PresentNone(opts);
  }

  /** The line of one key on an instance with well-formed tags: none when no
      tag has the key or the first such tag's value is empty; `key -> value`
      when key and value are strings; TypeError otherwise. */
  lemma TagLineOfTag(f: Facade, ts: seq<Value>, key: Value)
    requires HasTags(f, ts)
    ensures FirstKeyIndex(ts, key) == |ts| ==> TagLine(f, key) == Ok(None)
    ensures FirstKeyIndex(ts, key) < |ts| ==>
              var value := TagVal(ts[FirstKeyIndex(ts, key)]);
              (!Truthy(value) ==> TagLine(f, key) == Ok(None)) &&
              (Truthy(value) && key.Str? && value.Str? ==> TagLine(f, key) == Ok(Some(key.s + " -> " + value.s))) &&
              (Truthy(value) && !(key.Str? && value.Str?) ==> TagLine(f, key).Err? && TagLine(f, key).error.TypeError?)
  {
    TagValueFirstMatch(f, ts, key);
  }

  /** Every key of every instance's tags is in the key set. */
  lemma KeysCovered(instances: seq<Facade>, i: nat, ts: seq<Value>)
    requires AllKeys(instances).Ok? && i < |instances| && HasTags(instances[i], ts)
    ensures forall j :: 0 <= j < |ts| ==> TagKey(ts[j]) in AllKeys(instances).value
  {
    var sets := MapAll(instances, KeySetOf).value;
    MapAllOk(instances, KeySetOf);
    AllTagsKeyInOrder(instances[i], ts);
    var ks := instances[i].AllTagsKey().value;
    assert KeySetOf(instances[i]) == Ok(sets[i]);
    forall j | 0 <= j < |ts| ensures TagKey(ts[j]) in AllKeys(instances).value {
      assert ks[j] in ks;
    }
  }

  /** The tags table: one row per instance, in order, holding its id and
      its Tags cell over every key of every instance; a rule between rows;
      always sorted by InstanceId. It fails only while reading the keys or
      building a cell. */
  lemma TagsTable(order: set<Value> -> seq<Value>, instances: seq<Facade>)
    ensures TagsSpec(order, instances).Ok? <==>
              AllKeys(instances).Ok? && MapAll(instances, TagsRowOf(order(AllKeys(instances).value))).Ok?
    ensures TagsSpec(order, instances).Ok? ==>
              var keys := order(AllKeys(instances).value);
              var t := TagsSpec(order, instances).value;
              t.header == TagsHeader && |t.rows| == |instances| && t.sortBy == Some("InstanceId") && t.hrules == All &&
              forall i :: 0 <= i < |instances| ==>
                |t.rows[i]| == 2 && t.rows[i][0] == Str(instances[i].resourceId) &&
                TagsCell(instances[i], keys) == Ok(t.rows[i][1])
  {
    assert Distinct(TagsHeader);
    if AllKeys(instances).Ok? {
      var keys := order(AllKeys(instances).value);
      MappedTable(instances, TagsRowOf(keys), TagsHeader, "InstanceId", ["Tags"], [], "ALL");
    }
  }

  /** Every tag of an instance whose key is a string and whose value (the
      value of the first tag with that key) is a non-empty string shows as
      `key -> value` in the instance's Tags cell. */
  lemma TagsShown(order: set<Value> -> seq<Value>, instances: seq<Facade>, i: nat, ts: seq<Value>, j: nat)
    requires IsOrder(order) && TagsSpec(order, instances).Ok? && i < |instances| && HasTags(instances[i], ts) && j < |ts|
    ensures var keys := order(AllKeys(instances).value);
            var t := TagsSpec(order, instances).value;
            var key := TagKey(ts[j]);
            var value := TagVal(ts[FirstKeyIndex(ts, key)]);
            |t.rows| == |instances| && |t.rows[i]| == 2 && TagLines(instances[i], keys).Ok? &&
            t.rows[i][1] == Str(Join(TagLines(instances[i], keys).value, "\n")) &&
            (key.Str? && value.Str? && value.s != "" ==> key.s + " -> " + value.s in TagLines(instances[i], keys).value)
  {
    TagsTable(order, instances);
    var keys := order(AllKeys(instances).value);
    var key := TagKey(ts[j]);
    KeysCovered(instances, i, ts);
    assert Enumerates(keys, AllKeys(instances).value);
    var m :| 0 <= m < |keys| && keys[m] == key;
    MapAllOk(keys, TagLineOf(instances[i]));
    TagLineOfTag(instances[i], ts, key);
  }

  /** Conversely, every line of an instance's Tags cell is `key -> value`
      for the first tag of some key, whose key and value are strings and
      whose value is not empty. */
  lemma CellLinesAreTags(instance: Facade, ts: seq<Value>, keys: seq<Value>, line: string)
    requires HasTags(instance, ts) && TagLines(instance, keys).Ok? && line in TagLines(instance, keys).value
    ensures exists k :: 0 <= k < |ts| && FirstKeyIndex(ts, TagKey(ts[k])) == k &&
                        TagKey(ts[k]).Str? && TagVal(ts[k]).Str? && TagVal(ts[k]).s != "" &&
                        line == TagKey(ts[k]).s + " -> " + TagVal(ts[k]).s
  {
    var opts := MapAll(keys, TagLineOf(instance)).value;
    var m :| 0 <= m < |opts| && opts[m] == Some(line);
    MapAllOk(keys, TagLineOf(instance));
    TagLineOfTag(instance, ts, keys[m]);
    var k := FirstKeyIndex(ts, keys[m]);
    assert k < |ts| && TagKey(ts[k]) == keys[m];
  }
}
