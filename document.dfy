/** The schema-less resource document that the cloud provider returns, and the
    handful of Python operations the program applies to it: subscripting,
    iteration, truthiness, `str()`, string joining, and the recursive key
    search `find_key` (aws_list/resources/pcof.py). */
module Document {
  import opened Outcomes

  /** One node of a provider document. A dictionary keeps its insertion order,
      as a Python dict does. `Opaque` stands for any other object (a timestamp,
      say), known only by what `str()` renders for it. A Python dict cannot
      repeat a key; the association list is not required to be free of
      repeats, and on one that had them `Get` would see the first entry
      while `Search` visits every entry. */
  datatype Value =
    | Str(s: string)
    | Num(n: int)
    | Bool(b: bool)
    | Opaque(text: string)
    | List(items: seq<Value>)
    | Map(entries: seq<(string, Value)>)

  /** A dictionary as an ordered association list. */
  type Dict = seq<(string, Value)>

  // ---------------------------------------------------------------------------
  // Subscripting
  // ---------------------------------------------------------------------------

  /** The position of the first entry with key `key`, or |d| when there is none. */
  function IndexOfKey(d: Dict, key: string): (i: nat)
    ensures i <= |d|
    ensures i < |d| ==> d[i].0 == key
    ensures forall j :: 0 <= j < i ==> d[j].0 != key
  {
    if d == [] then 0
    else if d[0].0 == key then 0
    else 1 + IndexOfKey(d[1..], key)
  }

  function Lookup(d: Dict, key: string): Option<Value>
  {
    var i := IndexOfKey(d, key);
    if i < |d| then Some(d[i].1) else None
  }

  /** `d[key]` on a dictionary: the key's value, or KeyError. */
  function Get(d: Dict, key: string): (r: Result<Value>)
    ensures r.Ok? <==> exists i :: 0 <= i < |d| && d[i].0 == key
    ensures r.Ok? ==> exists i :: 0 <= i < |d| && d[i] == (key, r.value)
    ensures r.Err? ==> r.error == KeyError(key)
  {
    match Lookup(d, key)
    case Some(v) => Ok(v)
    case None => Err(KeyError(key))
  }

  /** `d[key]` with a `try: ... except KeyError: return ""` around it. */
  function Optional(d: Dict, key: string): (r: Value)
    ensures (forall i :: 0 <= i < |d| ==> d[i].0 != key) ==> r == Str("")
    ensures Get(d, key).Ok? ==> r == Get(d, key).value
  {
    match Lookup(d, key)
    case Some(v) => v
    case None => Str("")
  }

  /** `v[key]` on any value: only a dictionary can be subscripted by a string. */
  function Subscript(v: Value, key: string): (r: Result<Value>)
    ensures !v.Map? ==> r.Err? && r.error.TypeError?
    ensures v.Map? ==> r == Get(v.entries, key)
  {
    match v
    case Map(es) => Get(es, key)
    case _ => Err(TypeError("string indices are only accepted by a dict"))
  }

  /** `i[key]`, as a function value for the comprehensions that subscript
      every element of a list. */
  function FieldOf(key: string): Value -> Result<Value>
  {
    v => Subscript(v, key)
  }

  // ---------------------------------------------------------------------------
  // Iteration, truthiness, str()
  // ---------------------------------------------------------------------------

  /** `for x in v`: a list yields its items, a dict its keys, a string its
      characters; anything else is not iterable. */
  function Items(v: Value): (r: Result<seq<Value>>)
    ensures v.List? ==> r == Ok(v.items)
    ensures v.Map? ==> r.Ok? && |r.value| == |v.entries| &&
                       forall i :: 0 <= i < |v.entries| ==> r.value[i] == Str(v.entries[i].0)
    ensures (v.Num? || v.Bool? || v.Opaque?) ==> r.Err?
    ensures r.Err? ==> r.error.TypeError?
  {
    match v
    case List(xs) => Ok(xs)
    case Map(es) => Ok(seq(|es|, i requires 0 <= i < |es| => Str(es[i].0)))
    case Str(s) => Ok(seq(|s|, i requires 0 <= i < |s| => Str([s[i]])))
    case _ => Err(TypeError("object is not iterable"))
  }

  /** Python truthiness: empty strings and containers, zero and False are false. */
  predicate Truthy(v: Value)
  {
    match v
    case Str(s) => s != ""
    case Num(n) => n != 0
    case Bool(b) => b
    case Opaque(_) => true
    case List(xs) => xs != []
    case Map(es) => es != []
  }

  /** The operand of a string `+`: anything but a string is a TypeError. */
  function AsStr(v: Value): (r: Result<string>)
    ensures r.Ok? <==> v.Str?
    ensures v.Str? ==> r.value == v.s
    ensures r.Err? ==> r.error.TypeError?
  {
    if v.Str? then Ok(v.s) else Err(TypeError("can only concatenate str"))
  }

  function DigitChar(d: nat): (c: char)
    requires d < 10
    ensures '0' <= c <= '9'
  {
    ('0' as int + d) as char
  }

  function DigitValue(c: char): (d: nat)
    requires '0' <= c <= '9'
    ensures d < 10 && DigitChar(d) == c
  {
    (c as int - '0' as int) as nat
  }

  predicate IsDigits(s: string)
  {
    forall i :: 0 <= i < |s| ==> '0' <= s[i] <= '9'
  }

  /** The decimal digits of `n`, most significant first, without leading zeros. */
  function NatToString(n: nat): (s: string)
    ensures |s| > 0 && IsDigits(s)
    ensures n >= 10 ==> s[0] != '0'
  {
    if n < 10 then [DigitChar(n)] else NatToString(n / 10) + [DigitChar(n % 10)]
  }

  /** `str(n)` for an integer. */
  function IntToString(n: int): string
  {
    if n < 0 then "-" + NatToString(-n) else NatToString(n)
  }

  /** The number a non-empty digit string denotes. */
  function DigitsValue(s: string): nat
    requires IsDigits(s)
  {
    if s == [] then 0 else DigitsValue(s[..|s| - 1]) * 10 + DigitValue(s[|s| - 1])
  }

  /** `float(s)` for a decimal integer literal with an optional sign; every
      other text is rejected as `float()` rejects a non-numeric string. */
  function ParseInt(s: string): Option<int>
  {
    if |s| > 1 && (s[0] == '-' || s[0] == '+') && IsDigits(s[1..]) then
      var m: int := DigitsValue(s[1..]);
      Some(if s[0] == '-' then -m else m)
    else if |s| > 0 && IsDigits(s) then Some(DigitsValue(s))
    else None
  }

  lemma {:induction false} NatToStringValue(n: nat)
    ensures DigitsValue(NatToString(n)) == n
  {
    if n >= 10 {
      var s := NatToString(n);
      var init := NatToString(n / 10);
      assert s == init + [DigitChar(n % 10)];
      assert s[..|s| - 1] == init;
      assert DigitValue(s[|s| - 1]) == n % 10;
      NatToStringValue(n / 10);
    }
  }

  lemma ParseSigned(t: string)
    requires |t| > 0 && IsDigits(t)
    ensures ParseInt("-" + t) == Some(0 - DigitsValue(t) as int)
  {
    var s := "-" + t;
    assert s[0] == '-' && |s| > 1;
    assert s[1..] == t;
  }

  lemma ParseUnsigned(t: string)
    requires |t| > 0 && IsDigits(t)
    ensures ParseInt(t) == Some(DigitsValue(t))
  {
    assert '0' <= t[0] <= '9';
  }

  lemma NegativeRoundTrip(m: nat)
    requires m > 0
    ensures ParseInt("-" + NatToString(m)) == Some(-(m as int))
  {
    ParseSigned(NatToString(m));
    NatToStringValue(m);
  }

  /** `str()` of an integer reads back as the same integer. */
  lemma IntToStringRoundTrip(n: int)
    ensures ParseInt(IntToString(n)) == Some(n)
  {
    if n < 0 {
      NegativeRoundTrip(-n);
    } else {
      ParseUnsigned(NatToString(n));
      NatToStringValue(n);
    }
  }

  /** `str(v)` for the scalar values the program renders. */
  function Render(v: Value): (r: Result<string>)
    ensures r.Ok? <==> !(v.List? || v.Map?)
    ensures r.Err? ==> r.error.TypeError?
    ensures v.Str? ==> r == Ok(v.s)
    ensures v.Bool? ==> r == Ok(if v.b then "True" else "False")
    ensures v.Num? ==> r.Ok? && ParseInt(r.value) == Some(v.n)
  {
    match v
    case Str(s) => Ok(s)
    case Num(n) => IntToStringRoundTrip(n); Ok(IntToString(n))
    case Bool(b) => Ok(if b then "True" else "False")
    case Opaque(t) => Ok(t)
    case _ => Err(TypeError("str() of a container is not modelled"))
  }

  /** `str.lower()` on the ASCII letters. */
  function Lower(s: string): (r: string)
    ensures |r| == |s|
  {
    seq(|s|, i requires 0 <= i < |s| => if 'A' <= s[i] <= 'Z' then (s[i] as int + 32) as char else s[i])
  }

  // ---------------------------------------------------------------------------
  // Joining and splitting
  // ---------------------------------------------------------------------------

  /** `sep.join(parts)`. */
  function Join(parts: seq<string>, sep: string): string
  {
    if |parts| == 0 then ""
    else if |parts| == 1 then parts[0]
    else Join(parts[..|parts| - 1], sep) + sep + parts[|parts| - 1]
  }

  predicate AllNonEmpty(parts: seq<string>)
  {
    forall i :: 0 <= i < |parts| ==> parts[i] != ""
  }

  lemma AllNonEmptyAppend(a: seq<string>, b: seq<string>)
    ensures AllNonEmpty(a + b) <==> AllNonEmpty(a) && AllNonEmpty(b)
  {
    if AllNonEmpty(a) && AllNonEmpty(b) {
      forall i | 0 <= i < |a + b| ensures (a + b)[i] != "" {
        if i >= |a| { assert (a + b)[i] == b[i - |a|]; }
      }
    }
    if AllNonEmpty(a + b) {
      forall i | 0 <= i < |b| ensures b[i] != "" {
        assert (a + b)[|a| + i] == b[i];
      }
      forall i | 0 <= i < |a| ensures a[i] != "" {
        assert (a + b)[i] == a[i];
      }
    }
  }

  /** The program joins by hand: `if acc: acc += sep` then `acc += part`.
      With non-empty parts that is exactly `sep.join`. */
  lemma JoinByHand(parts: seq<string>, part: string, sep: string)
    requires AllNonEmpty(parts)
    ensures Join(parts, sep) == "" <==> parts == []
    ensures Join(parts + [part], sep) ==
              (if Join(parts, sep) != "" then Join(parts, sep) + sep else "") + part
  {
    var ps := parts + [part];
    assert ps[..|ps| - 1] == parts;
    if |parts| > 1 {
      assert parts[|parts| - 1] != "";
    } else if |parts| == 1 {
      assert parts[0] != "";
    }
  }

  /** The position of the last `c` in `s`, if any. */
  function LastIndexOf(s: string, c: char): (r: Option<nat>)
    ensures r.Some? ==> r.value < |s| && s[r.value] == c &&
                        forall j :: r.value < j < |s| ==> s[j] != c
    ensures r.None? ==> c !in s
  {
    if s == [] then None
    else if s[|s| - 1] == c then Some(|s| - 1)
    else LastIndexOf(s[..|s| - 1], c)
  }

  /** `s.split(c)` for a one-character separator. */
  function Split(s: string, c: char): (r: seq<string>)
    ensures |r| > 0
  {
    match LastIndexOf(s, c)
    case None => [s]
    case Some(i) => Split(s[..i], c) + [s[i + 1..]]
  }

  /** Splitting a join on its separator gives the parts back, provided there
      is at least one part and no part contains the separator. */
  lemma {:induction false} SplitJoin(parts: seq<string>, c: char)
    requires |parts| > 0
    requires forall i :: 0 <= i < |parts| ==> c !in parts[i]
    ensures Split(Join(parts, [c]), c) == parts
  {
    if |parts| == 1 {
      assert LastIndexOf(parts[0], c).None?;
    } else {
      var init := parts[..|parts| - 1];
      var last := parts[|parts| - 1];
      assert Join(parts, [c]) == Join(init, [c]) + [c] + last;
      LastSeparator(Join(init, [c]), last, c);
      SplitJoin(init, c);
    }
  }

  /** The separator before a tail free of separators is the last one. */
  lemma LastSeparator(head: string, last: string, c: char)
    requires c !in last
    ensures var s := head + [c] + last;
            LastIndexOf(s, c) == Some(|head|) && s[..|head|] == head && s[|head| + 1..] == last
  {
    var s := head + [c] + last;
    var k := |head|;
    assert s[k] == c;
    forall j | k < j < |s|
      ensures s[j] != c
    {
      assert s[j] == last[j - k - 1];
    }
    LastIndexAt(s, c, k);
    assert s[..k] == head;
    assert s[k + 1..] == last;
  }

  lemma LastIndexAt(s: string, c: char, k: nat)
    requires k < |s| && s[k] == c && forall j :: k < j < |s| ==> s[j] != c
    ensures LastIndexOf(s, c) == Some(k)
  {
    assert c in s;
  }

  // ---------------------------------------------------------------------------
  // find_key: recursive depth-first search for a key
  // ---------------------------------------------------------------------------

  /** The values `find_key(d, key)` returns: for a dictionary, each entry in
      order contributes its value when its key matches (that value is not
      searched further) and otherwise the results of searching its value;
      for a list, each item in order contributes the results of searching it;
      any other value contributes nothing. */
  function Search(d: Value, key: string): seq<Value>
    decreases d, 1, 0
  {
    match d
    case Map(es) => SearchEntries(d, key, |es|)
    case List(xs) => SearchItems(d, key, |xs|)
    case _ => []
  }

  /** What the first `n` entries of the dictionary `d` contribute. */
  function SearchEntries(d: Value, key: string, n: nat): seq<Value>
    requires d.Map? && n <= |d.entries|
    decreases d, 0, n
  {
    if n == 0 then []
    else
      var (k, v) := d.entries[n - 1];
      SearchEntries(d, key, n - 1) + (if k == key then [v] else Search(v, key))
  }

  /** What the first `n` items of the list `d` contribute. */
  function SearchItems(d: Value, key: string, n: nat): seq<Value>
    requires d.List? && n <= |d.items|
    decreases d, 0, n
  {
    if n == 0 then [] else SearchItems(d, key, n - 1) + Search(d.items[n - 1], key)
  }

  /** `find_key(dict_obj, key)`: the loop over a dictionary's entries or a
      list's items, appending a match or extending with a recursive search. */
  method FindKey(dictObj: Value, key: string) returns (results: seq<Value>)
    ensures results == Search(dictObj, key)
    decreases dictObj
  {
    results := [];
    match dictObj {
      case Map(es) =>
        var i := 0;
        while i < |es|
          invariant 0 <= i <= |es|
          invariant results == SearchEntries(dictObj, key, i)
        {
          var (k, v) := es[i];
          if k == key {
            results := results + [v];
          } else {
            var found := FindKey(v, key);
            results := results + found;
          }
          i := i + 1;
        }
      case List(xs) =>
        var i := 0;
        while i < |xs|
          invariant 0 <= i <= |xs|
          invariant results == SearchItems(dictObj, key, i)
        {
          var found := FindKey(xs[i], key);
          results := results + found;
          i := i + 1;
        }
      case _ =>
    }
  }

  /** `v` is bound to `key` somewhere in `d` along a path that does not pass
      through another entry keyed `key`: an independent description of what
      find_key may return. */
  ghost predicate Binds(d: Value, key: string, v: Value)
    decreases d
  {
    match d
    case Map(es) =>
      exists i :: 0 <= i < |es| && (if es[i].0 == key then es[i].1 == v else Binds(es[i].1, key, v))
    case List(xs) =>
      exists i :: 0 <= i < |xs| && Binds(xs[i], key, v)
    case _ => false
  }

  /** find_key returns exactly the values bound to the key (both directions). */
  lemma {:induction false} SearchFindsBindings(d: Value, key: string, v: Value)
    ensures v in Search(d, key) <==> Binds(d, key, v)
    decreases d, 1, 0
  {
    match d
    case Map(es) =>
      SearchEntriesBindings(d, key, |es|, v);
    case List(xs) =>
      SearchItemsBindings(d, key, |xs|, v);
    case _ =>
  }

  lemma {:induction false} SearchEntriesBindings(d: Value, key: string, n: nat, v: Value)
    requires d.Map? && n <= |d.entries|
    ensures v in SearchEntries(d, key, n) <==>
              exists i :: 0 <= i < n &&
                (if d.entries[i].0 == key then d.entries[i].1 == v else Binds(d.entries[i].1, key, v))
    decreases d, 0, n
  {
    if n > 0 {
      SearchEntriesBindings(d, key, n - 1, v);
      var (k, w) := d.entries[n - 1];
      var tail := if k == key then [w] else Search(w, key);
      assert SearchEntries(d, key, n) == SearchEntries(d, key, n - 1) + tail;
      if k != key {
        SearchFindsBindings(w, key, v);
      }
      assert v in tail <==> (if k == key then w == v else Binds(w, key, v));
    }
  }

  lemma {:induction false} SearchItemsBindings(d: Value, key: string, n: nat, v: Value)
    requires d.List? && n <= |d.items|
    ensures v in SearchItems(d, key, n) <==>
              exists i :: 0 <= i < n && Binds(d.items[i], key, v)
    decreases d, 0, n
  {
    if n > 0 {
      SearchItemsBindings(d, key, n - 1, v);
      SearchFindsBindings(d.items[n - 1], key, v);
    }
  }

  lemma {:induction false} SearchEntriesPrefix(e1: Dict, e2: Dict, key: string, n: nat)
    requires n <= |e1|
    ensures SearchEntries(Map(e1 + e2), key, n) == SearchEntries(Map(e1), key, n)
  {
    if n > 0 {
      SearchEntriesPrefix(e1, e2, key, n - 1);
      assert (e1 + e2)[n - 1] == e1[n - 1];
    }
  }

  lemma {:induction false} SearchEntriesSuffix(e1: Dict, e2: Dict, key: string, m: nat)
    requires m <= |e2|
    ensures SearchEntries(Map(e1 + e2), key, |e1| + m) ==
              SearchEntries(Map(e1), key, |e1|) + SearchEntries(Map(e2), key, m)
  {
    if m == 0 {
      SearchEntriesPrefix(e1, e2, key, |e1|);
    } else {
      SearchEntriesSuffix(e1, e2, key, m - 1);
      assert (e1 + e2)[|e1| + m - 1] == e2[m - 1];
      var (k, v) := e2[m - 1];
      var tail := if k == key then [v] else Search(v, key);
      assert SearchEntries(Map(e1 + e2), key, |e1| + m) == SearchEntries(Map(e1 + e2), key, |e1| + m - 1) + tail;
      assert SearchEntries(Map(e2), key, m) == SearchEntries(Map(e2), key, m - 1) + tail;
    }
  }

  /** Dictionary entries are searched in insertion order: the results for
      the first entries come before the results for the later ones. */
  lemma SearchMapOrder(e1: Dict, e2: Dict, key: string)
    ensures Search(Map(e1 + e2), key) == Search(Map(e1), key) + Search(Map(e2), key)
  {
    SearchEntriesSuffix(e1, e2, key, |e2|);
  }

  lemma {:induction false} SearchItemsPrefix(x1: seq<Value>, x2: seq<Value>, key: string, n: nat)
    requires n <= |x1|
    ensures SearchItems(List(x1 + x2), key, n) == SearchItems(List(x1), key, n)
  {
    if n > 0 {
      SearchItemsPrefix(x1, x2, key, n - 1);
      assert (x1 + x2)[n - 1] == x1[n - 1];
    }
  }

  lemma {:induction false} SearchItemsSuffix(x1: seq<Value>, x2: seq<Value>, key: string, m: nat)
    requires m <= |x2|
    ensures SearchItems(List(x1 + x2), key, |x1| + m) ==
              SearchItems(List(x1), key, |x1|) + SearchItems(List(x2), key, m)
  {
    if m == 0 {
      SearchItemsPrefix(x1, x2, key, |x1|);
    } else {
      SearchItemsSuffix(x1, x2, key, m - 1);
      assert (x1 + x2)[|x1| + m - 1] == x2[m - 1];
    }
  }

  /** List items are searched in order. */
  lemma SearchListOrder(x1: seq<Value>, x2: seq<Value>, key: string)
    ensures Search(List(x1 + x2), key) == Search(List(x1), key) + Search(List(x2), key)
  {
    SearchItemsSuffix(x1, x2, key, |x2|);
  }

  /** A matching entry contributes its value alone: nothing inside it is searched. */
  lemma SearchStopsAtMatch(key: string, v: Value)
    ensures Search(Map([(key, v)]), key) == [v]
  {
    assert SearchEntries(Map([(key, v)]), key, 0) == [];
  }

  /** A scalar holds no keys. */
  lemma SearchScalar(d: Value, key: string)
    requires !d.Map? && !d.List?
    ensures Search(d, key) == []
  {
  }

  /** The worked example: {"A": {"B": "x"}, "C": [{"B": "y"}]} searched for "B". */
  lemma SearchExample()
    ensures Search(Map([("A", Map([("B", Str("x"))])), ("C", List([Map([("B", Str("y"))])]))]), "B")
            == [Str("x"), Str("y")]
  {
    var inner1 := Map([("B", Str("x"))]);
    var inner2 := Map([("B", Str("y"))]);
    SearchStopsAtMatch("B", Str("x"));
    SearchStopsAtMatch("B", Str("y"));
    assert Search(List([inner2]), "B") == [Str("y")] by {
      assert SearchItems(List([inner2]), "B", 0) == [];
    }
    SearchMapOrder([("A", inner1)], [("C", List([inner2]))], "B");
    assert SearchEntries(Map([("A", inner1)]), "B", 0) == [];
    assert SearchEntries(Map([("C", List([inner2]))]), "B", 0) == [];
    assert [("A", inner1)] + [("C", List([inner2]))] == [("A", inner1), ("C", List([inner2]))];
  }
}
