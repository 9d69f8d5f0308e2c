/** The helpers of aws_list/resources/pcof.py that the reports rely on:
    `print_table` (a prettytable built from a header and rows, with a sort
    column, alignments and horizontal rules), the byte-unit conversions, the
    percentage helpers and the epoch-time offsets. `find_key` is
    Document.FindKey. Tables are values: the model keeps what the table
    holds, not the text prettytable prints. */
module Pcof {
  import opened Outcomes
  import opened Document

  // ---------------------------------------------------------------------------
  // print_table
  // ---------------------------------------------------------------------------

  datatype Align = Left | Center | Right

  /** prettytable's horizontal-rule styles, under their module constant names
      FRAME, HEADER, ALL and NONE. */
  datatype HRule = Frame | Header | All | NoRule

  /** What a prettytable holds once `print_table` has configured it. */
  datatype Table = Table(header: seq<string>, rows: seq<seq<Value>>, sortBy: Option<string>,
                         align: map<string, Align>, hrules: HRule)

  predicate Distinct(names: seq<string>)
  {
    forall i, j :: 0 <= i < j < |names| ==> names[i] != names[j]
  }

  /** `getattr(prettytable, name)` for the rule styles; any other name is
      not a style. */
  function HRuleNamed(name: string): (r: Result<HRule>)
    ensures r.Ok? <==> name in {"FRAME", "HEADER", "ALL", "NONE"}
    ensures r.Err? ==> r == Err(AttributeError(name))
  {
    match name
    case "FRAME" => Ok(Frame)
    case "HEADER" => Ok(Header)
    case "ALL" => Ok(All)
    case "NONE" => Ok(NoRule)
    case _ => Err(AttributeError(name))
  }

  /** A new prettytable centres every column. */
  function InitialAlign(header: seq<string>): map<string, Align>
  {
    map c | c in header :: Center
  }

  /** The alignment map after `align[c] = a` for every c of `names`, in order. */
  function Aligned(m: map<string, Align>, names: seq<string>, a: Align): map<string, Align>
  {
    if names == [] then m else Aligned(m, names[..|names| - 1], a)[names[|names| - 1] := a]
  }

  /** The sort column: none for an empty `sortby`, `sortby` itself when it
      names a column, the first column otherwise. */
  function SortColumn(header: seq<string>, sortby: string): Option<string>
    requires |header| > 0
  {
    if sortby == "" then None else if sortby in header then Some(sortby) else Some(header[0])
  }

  predicate RowsFit(header: seq<string>, rows: seq<seq<Value>>)
  {
    forall i :: 0 <= i < |rows| ==> |rows[i]| == |header|
  }

  /** The table `print_table` prints, or the error prettytable raises: a
      repeated column name, an unknown rule style, a row of the wrong width. */
  function MakeTable(header: seq<string>, rows: seq<seq<Value>>, sortby: string,
                     alignl: seq<string>, alignr: seq<string>, hrules: string): Result<Table>
    requires |header| > 0
  {
    if !Distinct(header) then Err(ValueError("Field names must be unique"))
    else
      var rule :- if hrules == "" then Ok(Frame) else HRuleNamed(hrules);
      if !RowsFit(header, rows) then Err(ValueError("Row has incorrect number of values"))
      else
        Ok(Table(header, rows, SortColumn(header, sortby),
                 Aligned(Aligned(InitialAlign(header), alignl, Left), alignr, Right), rule))
  }

  /** `print_table(header, rows, sortby=…, alignl=…, alignr=…, hrules=…)`,
      with the table it configures as its result. */
  method PrintTable(header: seq<string>, rows: seq<seq<Value>>, sortby: string,
                    alignl: seq<string>, alignr: seq<string>, hrules: string)
    returns (r: Result<Table>)
    requires |header| > 0
    ensures r == MakeTable(header, rows, sortby, alignl, alignr, hrules)
  {
    if !Distinct(header) {
      return Err(ValueError("Field names must be unique"));
    }
    var output := Table(header, [], None, InitialAlign(header), Frame);
    if hrules != "" {
      var rule :- HRuleNamed(hrules);
      output := output.(hrules := rule);
    }
    ghost var rule := output.hrules;
    for i := 0 to |rows|
      invariant output == Table(header, rows[..i], None, InitialAlign(header), rule)
      invariant RowsFit(header, rows[..i])
    {
      var entry: seq<Value> := [];
      for j := 0 to |rows[i]|
        invariant entry == rows[i][..j]
      {
        entry := entry + [rows[i][j]];
      }
      assert rows[i][..|rows[i]|] == rows[i];
      if |entry| != |header| {
        return Err(ValueError("Row has incorrect number of values"));
      }
      assert rows[..i + 1] == rows[..i] + [entry];
      output := output.(rows := output.rows + [entry]);
    }
    assert rows[..|rows|] == rows;
    if sortby != "" {
      output := output.(sortBy := Some(if sortby in header then sortby else header[0]));
    }
    for i := 0 to |alignl|
      invariant output.align == Aligned(InitialAlign(header), alignl[..i], Left)
      invariant output.header == header && output.rows == rows && output.hrules == rule
      invariant output.sortBy == SortColumn(header, sortby)
    {
      assert alignl[..i + 1][..i] == alignl[..i];
      output := output.(align := output.align[alignl[i] := Left]);
    }
    assert alignl[..|alignl|] == alignl;
    ghost var left := output.align;
    for i := 0 to |alignr|
      invariant output.align == Aligned(left, alignr[..i], Right)
      invariant output.header == header && output.rows == rows && output.hrules == rule
      invariant output.sortBy == SortColumn(header, sortby)
    {
      assert alignr[..i + 1][..i] == alignr[..i];
      output := output.(align := output.align[alignr[i] := Right]);
    }
    assert alignr[..|alignr|] == alignr;
    return Ok(output);
  }

  /** After the alignment loop, a column named in the loop has the loop's
      alignment and every other column keeps the one it had. */
  lemma {:induction false} AlignedAt(m: map<string, Align>, names: seq<string>, a: Align, c: string)
    ensures c in names ==> c in Aligned(m, names, a) && Aligned(m, names, a)[c] == a
    ensures c !in names ==> (c in Aligned(m, names, a) <==> c in m)
    ensures c !in names && c in m ==> Aligned(m, names, a)[c] == m[c]
  {
    if names != [] {
      var init := names[..|names| - 1];
      AlignedAt(m, init, a, c);
      assert names == init + [names[|names| - 1]];
    }
  }

  /** The alignment of a column: right when `alignr` names it, even if
      `alignl` does too; left when only `alignl` names it; centred for the
      other columns. A name in neither list and not a column is not aligned. */
  lemma TableAlign(header: seq<string>, rows: seq<seq<Value>>, sortby: string,
                   alignl: seq<string>, alignr: seq<string>, hrules: string, c: string)
    requires |header| > 0 && MakeTable(header, rows, sortby, alignl, alignr, hrules).Ok?
    ensures var align := MakeTable(header, rows, sortby, alignl, alignr, hrules).value.align;
            (c in alignr ==> c in align && align[c] == Right) &&
            (c !in alignr && c in alignl ==> c in align && align[c] == Left) &&
            (c !in alignr && c !in alignl ==> (c in align <==> c in header)) &&
            (c !in alignr && c !in alignl && c in header ==> align[c] == Center)
  {
    var left := Aligned(InitialAlign(header), alignl, Left);
    AlignedAt(InitialAlign(header), alignl, Left, c);
    AlignedAt(left, alignr, Right, c);
  }

  /** The table exists exactly when the column names are distinct, the rule
      style is known (or not given) and every row has one cell per column;
      it then holds the rows as given, one table row per input row, in
      order, with the sort column chosen by SortColumn. */
  lemma TableRows(header: seq<string>, rows: seq<seq<Value>>, sortby: string,
                  alignl: seq<string>, alignr: seq<string>, hrules: string)
    requires |header| > 0
    ensures MakeTable(header, rows, sortby, alignl, alignr, hrules).Ok? <==>
              Distinct(header) && (hrules == "" || hrules in {"FRAME", "HEADER", "ALL", "NONE"}) &&
              RowsFit(header, rows)
    ensures MakeTable(header, rows, sortby, alignl, alignr, hrules).Ok? ==>
              var t := MakeTable(header, rows, sortby, alignl, alignr, hrules).value;
              t.header == header && t.rows == rows && t.sortBy == SortColumn(header, sortby) &&
              t.hrules == (if hrules == "" then Frame else HRuleNamed(hrules).value)
  {
  }

  /** The sort column: a non-empty `sortby` that names a column is used as
      it is, one that does not falls back to the first column, and an empty
      one sets no sort. */
  lemma SortFallback(header: seq<string>, sortby: string)
    requires |header| > 0
    ensures sortby == "" <==> SortColumn(header, sortby).None?
    ensures SortColumn(header, sortby).Some? ==> SortColumn(header, sortby).value in header
    ensures sortby != "" && sortby in header ==> SortColumn(header, sortby) == Some(sortby)
    ensures sortby != "" && sortby !in header ==> SortColumn(header, sortby) == Some(header[0])
  {
  }

  // ---------------------------------------------------------------------------
  // Byte units
  // ---------------------------------------------------------------------------

  const Suffixes: seq<string> := ["Bytes", "KB", "MB", "GB", "TB", "PB", "EB"]

  /** `b ** k` on integers. */
  function Pow(b: int, k: nat): (r: int)
    ensures b >= 2 ==> r >= 1
    ensures b >= 2 && k > 0 ==> r >= b
  {
    if k == 0 then 1 else Pow(b, k - 1) * b
  }

  /** `isinstance(v, int)`: integers, and booleans, which Python counts as
      integers. */
  function IntOf(v: Value): Option<int>
  {
    match v
    case Num(n) => Some(n)
    case Bool(b) => Some(if b then 1 else 0)
    case _ => None
  }

  /** `float(v)`: numbers and booleans convert, a string converts when it
      spells a number, anything else is a TypeError. */
  function Float(v: Value): (r: Result<real>)
    ensures v.Num? ==> r == Ok(v.n as real)
    ensures r.Err? ==> r.error.ValueError? || r.error.TypeError?
  {
    match v
    case Num(n) => Ok(n as real)
    case Bool(b) => Ok(if b then 1.0 else 0.0)
    case Str(s) =>
      (match ParseInt(s)
       case Some(n) => Ok(n as real)
       case None => Err(ValueError("could not convert string to float")))
    case _ => Err(TypeError("float() argument must be a string or a number"))
  }

  /** `suffix.index(unit)`. */
  function UnitIndex(unit: string): (r: Option<nat>)
    ensures r.Some? <==> unit in Suffixes
    ensures r.Some? ==> r.value < |Suffixes| && Suffixes[r.value] == unit
  {
    if unit == "Bytes" then Some(0) else if unit == "KB" then Some(1)
    else if unit == "MB" then Some(2) else if unit == "GB" then Some(3)
    else if unit == "TB" then Some(4) else if unit == "PB" then Some(5)
    else if unit == "EB" then Some(6) else None
  }

  /** A size expressed in a unit: bytes2human's result without its
      formatting to `precision` digits. */
  datatype Human = Human(magnitude: real, unit: string)

  /** bytes2human with an explicit unit: the size divided by
      `base ** suffix.index(unit)`. */
  function ToUnit(num: real, unit: string, base: int): Result<Human>
  {
    match UnitIndex(unit)
    case None => Err(ValueError("Error: unit must be KB, MB, GB, TB, PB or EB"))
    case Some(k) =>
      if Pow(base, k) == 0 then Err(ZeroDivisionError)
      else Ok(Human(num / Pow(base, k) as real, unit))
  }

  /** bytes2human without a unit, from the k-th unit on: stop at the first
      unit in which the size is below the base, failing past the last. */
  function AutoScale(num: real, base: int, k: nat): Result<Human>
    requires k < |Suffixes|
    decreases |Suffixes| - k
  {
    if num < base as real then Ok(Human(num, Suffixes[k]))
    else if k == |Suffixes| - 1 then Err(ValueError("Value greater than the highest unit"))
    else if base == 0 then Err(ZeroDivisionError)
    else AutoScale(num / base as real, base, k + 1)
  }

  /** `bytes2human(size, unit=unit, precision=precision, base=base)`, without
      the formatting of the magnitude. */
  function BytesToHuman(size: Value, unit: string, precision: Value, base: Value): Result<Human>
  {
    if IntOf(precision).None? then Err(ValueError("precision is not a number"))
    else if IntOf(base).None? then Err(ValueError("base is not a number"))
    else
      var b := IntOf(base).value;
      match Float(size)
      case Err(ValueError(_)) => Err(ValueError("Value is not a number"))
      case Err(e) => Err(e)
      case Ok(num) => if unit != "" then ToUnit(num, unit, b) else AutoScale(num, b, 0)
  }

  /** bytes2human as the source writes it: the checks, then either one
      division by the unit's power or a loop that divides by the base until
      the size fits. */
  method Bytes2Human(size: Value, unit: string, precision: Value, base: Value)
    returns (r: Result<Human>)
    ensures r == BytesToHuman(size, unit, precision, base)
  {
    if IntOf(precision).None? {
      return Err(ValueError("precision is not a number"));
    }
    if IntOf(base).None? {
      return Err(ValueError("base is not a number"));
    }
    var b := IntOf(base).value;
    var converted := Float(size);
    if converted.Err? {
      if converted.error.ValueError? {
        return Err(ValueError("Value is not a number"));
      }
      return Err(converted.error);
    }
    var num := converted.value;
    if unit != "" {
      return ToUnit(num, unit, b);
    }
    var counter := 0;
    while true
      invariant counter < |Suffixes|
      invariant AutoScale(num, b, counter) == BytesToHuman(size, unit, precision, base)
      decreases |Suffixes| - counter
    {
      if num < b as real {
        return Ok(Human(num, Suffixes[counter]));
      }
      if counter == |Suffixes| - 1 {
        return Err(ValueError("Value greater than the highest unit"));
      }
      if b == 0 {
        return Err(ZeroDivisionError);
      }
      num := num / b as real;
      counter := counter + 1;
    }
  }

  lemma {:induction false} PowMonotone(b: int, j: nat, k: nat)
    requires b >= 2 && j <= k
    ensures Pow(b, j) <= Pow(b, k)
    decreases k - j
  {
    if j < k {
      PowMonotone(b, j, k - 1);
    }
  }

  /** Dividing by `b ** k` and then by `b` is dividing by `b ** (k + 1)`. */
  lemma DivideAgain(x: real, b: int, k: nat)
    requires b >= 2
    ensures x / Pow(b, k) as real / b as real == x / Pow(b, k + 1) as real
  {
    PowStep(b, k);
    DivideTwice(x, Pow(b, k) as real, b as real, Pow(b, k + 1) as real);
  }

  lemma PowStep(b: int, k: nat)
    requires b >= 2
    ensures Pow(b, k) as real >= 1.0 && Pow(b, k + 1) as real == Pow(b, k) as real * b as real
  {
    var n := Pow(b, k);
    assert Pow(b, k + 1) == n * b;
  }

  lemma DivideTwice(x: real, p: real, c: real, q: real)
    requires p > 0.0 && c > 0.0 && q == p * c
    ensures x / p / c == x / q
  {
    assert (x / p / c) * q == x;
  }

  /** A size below `b` once divided by `p` is a size below `b * p`. */
  lemma BelowScaled(x: real, p: real, b: real)
    requires p > 0.0
    ensures x / p < b <==> x < b * p
  {
    assert x == (x / p) * p;
  }

  /** The size is below the base once divided by `b ** k` exactly when it
      is below `b ** (k + 1)`. */
  lemma ScaledFits(size: real, b: int, k: nat)
    requires b >= 2
    ensures size / Pow(b, k) as real < b as real <==> size < Pow(b, k + 1) as real
  {
    var p := Pow(b, k) as real;
    BelowScaled(size, p, b as real);
    assert Pow(b, k + 1) as real == b as real * p;
  }

  /** From the k-th unit on, the loop of bytes2human with a base of at least
      2 picks the unit j for which `b ** j <= size < b ** (j + 1)`, and fails
      exactly when the size reaches `b ** 7`. */
  lemma {:induction false} AutoScaleFrom(size: real, b: int, k: nat)
    requires b >= 2 && k < |Suffixes|
    requires k > 0 ==> Pow(b, k) as real <= size
    ensures AutoScale(size / Pow(b, k) as real, b, k).Ok? <==> size < Pow(b, |Suffixes|) as real
    ensures AutoScale(size / Pow(b, k) as real, b, k).Ok? ==>
              exists j :: k <= j < |Suffixes| &&
                AutoScale(size / Pow(b, k) as real, b, k).value == Human(size / Pow(b, j) as real, Suffixes[j]) &&
                size < Pow(b, j + 1) as real && (j > 0 ==> Pow(b, j) as real <= size)
    decreases |Suffixes| - k
  {
    var x := size / Pow(b, k) as real;
    ScaledFits(size, b, k);
    PowMonotone(b, k + 1, |Suffixes|);
    if x < b as real {
      assert AutoScale(x, b, k) == Ok(Human(x, Suffixes[k]));
    } else if k < |Suffixes| - 1 {
      DivideAgain(size, b, k);
      AutoScaleFrom(size, b, k + 1);
    }
  }

  /** bytes2human without a unit, for a base of at least 2: the result is
      the size in the largest unit not above it (Bytes for anything below
      the base), and a size of `base ** 7` or more is an error. */
  lemma AutoUnit(size: real, b: int)
    requires b >= 2
    ensures AutoScale(size, b, 0).Ok? <==> size < Pow(b, |Suffixes|) as real
    ensures AutoScale(size, b, 0).Err? ==> AutoScale(size, b, 0) == Err(ValueError("Value greater than the highest unit"))
    ensures AutoScale(size, b, 0).Ok? ==>
              exists j :: 0 <= j < |Suffixes| &&
                AutoScale(size, b, 0).value == Human(size / Pow(b, j) as real, Suffixes[j]) &&
                size < Pow(b, j + 1) as real && (j > 0 ==> Pow(b, j) as real <= size)
  {
    assert size / Pow(b, 0) as real == size;
    AutoScaleFrom(size, b, 0);
    AutoScaleErrors(size, b, 0);
  }

  lemma {:induction false} AutoScaleErrors(num: real, b: int, k: nat)
    requires b >= 2 && k < |Suffixes|
    ensures AutoScale(num, b, k).Err? ==> AutoScale(num, b, k) == Err(ValueError("Value greater than the highest unit"))
    decreases |Suffixes| - k
  {
    if !(num < b as real) && k < |Suffixes| - 1 {
      AutoScaleErrors(num / b as real, b, k + 1);
    }
  }

  /** The checks of bytes2human come first, in order: precision, base, then
      the size (BytesToHumanSizeErrors). An explicit unit must be one of the suffixes, Bytes
      included, and divides the size by the base raised to the unit's
      position. */
  lemma BytesToHumanChecks(size: Value, unit: string, precision: Value, base: Value)
    ensures IntOf(precision).None? ==> BytesToHuman(size, unit, precision, base) == Err(ValueError("precision is not a number"))
    ensures IntOf(precision).Some? && IntOf(base).None? ==>
              BytesToHuman(size, unit, precision, base) == Err(ValueError("base is not a number"))
    ensures IntOf(precision).Some? && IntOf(base).Some? && Float(size).Ok? && unit != "" ==>
              var b := IntOf(base).value;
              (unit !in Suffixes ==>
                 BytesToHuman(size, unit, precision, base) == Err(ValueError("Error: unit must be KB, MB, GB, TB, PB or EB"))) &&
              (unit in Suffixes && Pow(b, UnitIndex(unit).value) != 0 ==>
                 BytesToHuman(size, unit, precision, base) ==
                   Ok(Human(Float(size).value / Pow(b, UnitIndex(unit).value) as real, unit)))
  {
    if IntOf(precision).Some? && IntOf(base).Some? && Float(size).Ok? && unit != "" {
      var b := IntOf(base).value;
      assert BytesToHuman(size, unit, precision, base) == ToUnit(Float(size).value, unit, b);
    }
  }

  /** A size that `float()` rejects, once precision and base are numbers:
      its ValueError becomes "Value is not a number", so a string that spells
      no number is reported so; a list, a dictionary or another object keeps
      float()'s own TypeError. */
  lemma BytesToHumanSizeErrors(size: Value, unit: string, precision: Value, base: Value)
    requires IntOf(precision).Some? && IntOf(base).Some?
    ensures Float(size).Err? ==>
              BytesToHuman(size, unit, precision, base) ==
                Err(if Float(size).error.ValueError? then ValueError("Value is not a number") else Float(size).error)
    ensures size.Str? && ParseInt(size.s).None? ==>
              BytesToHuman(size, unit, precision, base) == Err(ValueError("Value is not a number"))
    ensures (size.List? || size.Map? || size.Opaque?) ==>
              BytesToHuman(size, unit, precision, base) == Err(TypeError("float() argument must be a string or a number"))
  {
  }

  /** The examples of bytes2human's documentation: 10 is 10 Bytes and 2048
      is 2 KB. */
  lemma BytesToHumanExamples()
    ensures BytesToHuman(Num(10), "", Num(2), Num(1024)) == Ok(Human(10.0, "Bytes"))
    ensures BytesToHuman(Num(2048), "", Num(2), Num(1024)) == Ok(Human(2.0, "KB"))
  {
    assert AutoScale(2048.0, 1024, 0) == AutoScale(2.0, 1024, 1);
  }

  /** `human2bytes(size, unit, base=base)`, without the formatting: the size
      times `base ** k` for the k-th of KB … EB. Bytes is not a unit here. */
  function HumanToBytes(size: Value, unit: string, base: Value): Result<real>
  {
    match IntOf(base)
    case None => Err(TypeError("unsupported operand type(s) for ** or pow()"))
    case Some(b) =>
      if unit !in Suffixes[1..] then Err(ValueError("Invalid unit. It must be KB, MB, GB, TB, PB or EB"))
      else
        match Float(size)
        case Err(ValueError(_)) => Err(ValueError("Value is not a number"))
        case Err(e) => Err(e)
        case Ok(num) => FromUnit(num, unit, b)
  }

  /** The multiplication of human2bytes, for a unit it accepts. */
  function FromUnit(num: real, unit: string, base: int): Result<real>
  {
    if UnitIndex(unit).None? || UnitIndex(unit).value == 0 then
      Err(ValueError("Invalid unit. It must be KB, MB, GB, TB, PB or EB"))
    else Ok(num * Pow(base, UnitIndex(unit).value) as real)
  }

  /** human2bytes accepts exactly the units KB to EB, and multiplies by the
      matching power of the base. */
  lemma HumanToBytesUnits(size: Value, unit: string, b: int)
    requires Float(size).Ok?
    ensures HumanToBytes(size, unit, Num(b)).Ok? <==> unit in Suffixes[1..]
    ensures HumanToBytes(size, unit, Num(b)).Ok? ==>
              exists k :: 1 <= k < |Suffixes| && Suffixes[k] == unit &&
                HumanToBytes(size, unit, Num(b)).value == Float(size).value * Pow(b, k) as real
  {
    UnitsAfterBytes(unit);
    if unit in Suffixes[1..] {
      HumanToBytesFrom(size, unit, b);
      FromUnitScales(Float(size).value, unit, b);
    } else {
      HumanToBytesRejects(size, unit, b);
    }
  }

  lemma HumanToBytesFrom(size: Value, unit: string, b: int)
    requires Float(size).Ok? && unit in Suffixes[1..]
    ensures HumanToBytes(size, unit, Num(b)) == FromUnit(Float(size).value, unit, b)
  {
  }

  lemma HumanToBytesRejects(size: Value, unit: string, b: int)
    requires unit !in Suffixes[1..]
    ensures HumanToBytes(size, unit, Num(b)).Err?
  {
  }

  lemma FromUnitScales(num: real, unit: string, b: int)
    requires UnitIndex(unit).Some? && UnitIndex(unit).value != 0
    ensures FromUnit(num, unit, b).Ok? && FromUnit(num, unit, b).value == num * Pow(b, UnitIndex(unit).value) as real
  {
  }

  /** The units after Bytes are those whose index is not zero. */
  lemma UnitsAfterBytes(unit: string)
    ensures unit in Suffixes[1..] <==> UnitIndex(unit).Some? && UnitIndex(unit).value != 0
  {
    if UnitIndex(unit).Some? && UnitIndex(unit).value != 0 {
      var k := UnitIndex(unit).value;
      assert Suffixes[1..][k - 1] == unit;
    }
  }

  /** Converting to a unit and back gives the size again, for every unit
      but Bytes and every base whose power is not zero. */
  lemma UnitRoundTrip(num: real, unit: string, b: int)
    requires ToUnit(num, unit, b).Ok? && unit != "Bytes"
    ensures FromUnit(ToUnit(num, unit, b).value.magnitude, unit, b) == Ok(num)
  {
    var k := UnitIndex(unit).value;
    var q := Pow(b, k) as real;
    assert q != 0.0;
    assert ToUnit(num, unit, b).value.magnitude == num / q;
    assert k != 0;
    assert (num / q) * q == num;
  }

  /** The example of human2bytes's documentation: 10 GB is 10737418240 bytes. */
  lemma HumanToBytesExample()
    ensures HumanToBytes(Num(10), "GB", Num(1024)) == Ok(10737418240.0)
  {
    assert Pow(1024, 3) == 1073741824;
  }

  // ---------------------------------------------------------------------------
  // Percentages
  // ---------------------------------------------------------------------------

  /** `pct_two_numbers(n1, n2)`: what percent n1 is of n2, and 0 when n2 is
      0 (the ZeroDivisionError is caught). */
  function PctTwoNumbers(n1: real, n2: real): (r: real)
    ensures n2 == 0.0 ==> r == 0.0
    ensures n2 != 0.0 ==> r * n2 == n1 * 100.0
  {
    if n2 == 0.0 then 0.0 else n1 * 100.0 / n2
  }

  /** `x_pct_of_number(pct, number)`: pct percent of number. */
  function XPctOfNumber(pct: real, number: real): (r: real)
    ensures r * 100.0 == number * pct
  {
    number * pct / 100.0
  }

  /** The two helpers undo each other: the percentage n1 is of n2, taken of
      n2, is n1 again. */
  lemma PercentRoundTrip(n1: real, n2: real)
    requires n2 != 0.0
    ensures XPctOfNumber(PctTwoNumbers(n1, n2), n2) == n1
  {
    var p := PctTwoNumbers(n1, n2);
    assert p * n2 == n1 * 100.0;
    assert XPctOfNumber(p, n2) * 100.0 == n2 * p;
  }

  /** The documented examples: 10 is 20 percent of 50, and 40 percent of 200
      is 80. */
  lemma PercentExamples()
    ensures PctTwoNumbers(10.0, 50.0) == 20.0
    ensures XPctOfNumber(40.0, 200.0) == 80.0
    ensures PctTwoNumbers(10.0, 0.0) == 0.0
  {
  }

  // ---------------------------------------------------------------------------
  // Epoch time
  // ---------------------------------------------------------------------------

  /** The two clock readings `epoch_time_now` can take, already in whole
      seconds: `datetime.utcnow().timestamp()` and `datetime.now().timestamp()`. */
  datatype Clock = Clock(utcNow: int, localNow: int)

  /** `epoch_time_now(utc=utc)`: the UTC reading for "yes", the local one
      for "no", a TypeError for anything else. */
  function EpochTimeNow(clock: Clock, utc: string): (r: Result<int>)
    ensures r.Ok? <==> utc == "yes" || utc == "no"
    ensures utc == "yes" ==> r == Ok(clock.utcNow)
    ensures utc == "no" ==> r == Ok(clock.localNow)
    ensures r.Err? ==> r.error.TypeError?
  {
    if utc == "yes" then Ok(clock.utcNow)
    else if utc == "no" then Ok(clock.localNow)
    else Err(TypeError("error: epoch_time_now: utc is invalid"))
  }

  /** `epoch_time_min_ago(minutes, utc=utc)`. */
  function EpochTimeMinAgo(clock: Clock, minutes: int, utc: string): (r: Result<int>)
    ensures r.Ok? <==> EpochTimeNow(clock, utc).Ok?
    ensures r.Ok? ==> EpochTimeNow(clock, utc).value - r.value == 60 * minutes
  {
    var now :- EpochTimeNow(clock, utc);
    Ok(now - 60 * minutes)
  }

  /** `epoch_time_hours_ago(hours, utc=utc)`. */
  function EpochTimeHoursAgo(clock: Clock, hours: int, utc: string): (r: Result<int>)
    ensures r.Ok? <==> EpochTimeNow(clock, utc).Ok?
    ensures r.Ok? ==> EpochTimeNow(clock, utc).value - r.value == 3600 * hours
  {
    var now :- EpochTimeNow(clock, utc);
    Ok(now - hours * 3600)
  }

  /** `epoch_time_days_ago(days, utc=utc)`. */
  function EpochTimeDaysAgo(clock: Clock, days: int, utc: string): (r: Result<int>)
    ensures r.Ok? <==> EpochTimeNow(clock, utc).Ok?
    ensures r.Ok? ==> EpochTimeNow(clock, utc).value - r.value == 86400 * days
  {
    var now :- EpochTimeNow(clock, utc);
    Ok(now - days * 24 * 3600)
  }

  /** The three offsets agree: an hour is sixty minutes and a day is
      twenty-four hours. */
  lemma EpochOffsetsAgree(clock: Clock, n: int, utc: string)
    ensures EpochTimeHoursAgo(clock, n, utc) == EpochTimeMinAgo(clock, 60 * n, utc)
    ensures EpochTimeDaysAgo(clock, n, utc) == EpochTimeHoursAgo(clock, 24 * n, utc)
  {
  }
}
