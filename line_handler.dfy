/** `file_handler` as a function of one input line: the gate, the choice of columns by file kind,
    the reformatting of the numeric fields, and the header row written when a field is not a
    number. */
module LineHandler {
  import opened Wrappers
  import opened TabText
  import opened SciNotation
  import opened Naming
  import opened LineGate

  /** The floating-point operations the handler relies on: `parse` is `float(text)`, `None`
      where Python raises ValueError; `render` is `'%.5e' % x`. */
  datatype Numerics = Numerics(parse: string -> Option<real>, render: real -> string)

  /** `render` yields the `%.5e` text of a finite number. */
  ghost predicate ValidNumerics(nm: Numerics)
  {
    forall x: real :: RendersPercentE(nm, x)
  }

  ghost predicate RendersPercentE(nm: Numerics, x: real)
  {
    IsPercentE(nm.render(x))
  }

  /** `sci_not_format(x)`. */
  function Sci(nm: Numerics, x: real): (r: string)
    requires ValidNumerics(nm)
    ensures '\t' !in r && '\n' !in r
  {
    var s := nm.render(x);
    assert RendersPercentE(nm, x);
    PercentEFormatted(s);
    SciNotFormat(s)
  }

  /** `float(text) * UNIT_CONV[units]`: a current in amperes expressed in `units`. */
  function Scaled(i: real, units: string): real
    requires units in UnitConv
  {
    i * UnitConv[units]
  }

  /** The line written for the fields that were kept: `'\t' + '\t'.join(selected) + '\n'`. */
  function Row(selected: seq<string>): string
  {
    "\t" + Join(selected, '\t') + "\n"
  }

  /** The columns kept: `split_line[3:5]` for CV, `split_line[2:5:2]` for CA, all of them otherwise. */
  function Select(k: Kind, parts: seq<string>): seq<string>
    requires |parts| >= 5
  {
    match k
    case CV => parts[3..5]
    case CA => [parts[2], parts[4]]
    case Other => parts
  }

  /** The row written in place of a line whose fields are not numbers. */
  function Header(k: Kind, first: string, units: string): seq<string>
  {
    if k == CV then
      if first == "Vf" then ["Voltage", "Current"] else ["V", units]
    else
      if first == "T" then ["Time", "Current"] else ["s", units]
  }

  /** The `try` block and its `except ValueError` handler on the kept fields. */
  function Convert(k: Kind, sel: seq<string>, shift: Option<real>, units: string, nm: Numerics): seq<string>
    requires k != Other ==> |sel| == 2
    requires units in UnitConv && ValidNumerics(nm)
  {
    match k
    case Other => sel
    case CV =>
      (match nm.parse(sel[1])
       case None => Header(CV, sel[0], units)
       case Some(i) =>
         var current := Sci(nm, Scaled(i, units));
         (match shift
          case None => [sel[0], current]
          case Some(d) =>
            (match nm.parse(sel[0])
             case None => Header(CV, sel[0], units)
             case Some(v) => [Sci(nm, v + d), current])))
    case CA =>
      (match nm.parse(sel[1])
       case None => Header(CA, sel[0], units)
       case Some(i) => [sel[0], Sci(nm, Scaled(i, units))])
  }

  /** What `file_handler` writes for one line of a file called `filename`: nothing unless the line
      is a data row, else exactly one line that starts with a tab and ends with a line break. */
  function HandleLine(line: string, filename: string, shift: Option<real>, units: string, nm: Numerics)
    : (r: Option<string>)
    requires SingleLine(line)
    requires units in UnitConv && ValidNumerics(nm)
    ensures r.Some? <==> DataRow(line)
    ensures r.Some? ==> |r.value| >= 2 && r.value[0] == '\t' && r.value[|r.value| - 1] == '\n'
  {
    Gate(line);
    if !Matches(line) then None
    else
      SplitCount(line);
      var parts := Split(line, '\t');
      var k := Classify(filename);
      Some(Row(Convert(k, Select(k, parts), shift, units, nm)))
  }

  /** A data row splits into at least nine pieces. */
  lemma SplitCount(line: string)
    requires DataRow(line)
    ensures |Split(line, '\t')| >= 9
  {
    DataRowSplit(line);
  }

  /** A data row is written as the row of its converted kept fields. */
  lemma WrittenRow(line: string, filename: string, shift: Option<real>, units: string, nm: Numerics)
    requires SingleLine(line) && DataRow(line)
    requires units in UnitConv && ValidNumerics(nm)
    ensures |Split(line, '\t')| >= 9
    ensures var k := Classify(filename);
      HandleLine(line, filename, shift, units, nm) ==
        Some(Row(Convert(k, Select(k, Split(line, '\t')), shift, units, nm)))
  {
    Gate(line);
    SplitCount(line);
  }

  /** The row of two fields. */
  lemma RowOfTwo(a: string, b: string)
    ensures Row([a, b]) == "\t" + a + "\t" + b + "\n"
  {
    assert Join([a, b], '\t') == a + "\t" + b;
  }

  /** The first and second kept field of a data row: fields 3 and 4 for CV, 2 and 4 for CA. */
  function Kept(k: Kind, fs: seq<string>): (string, string)
    requires |fs| >= 4
  {
    if k == CV then (fs[2], fs[3]) else (fs[1], fs[3])
  }

  /** The split of a data row has at least nine pieces, the first empty; the kept indices all lie
      before the last piece, so CV and CA keep exactly two fields, with no tab or line break. */
  lemma SelectionBounds(line: string, filename: string)
    requires DataRow(line)
    ensures var parts := Split(line, '\t');
      var fs := Fields(line);
      var k := Classify(filename);
      |parts| >= 9 && parts[0] == [] &&
      (forall i :: 1 <= i <= 4 ==> parts[i] == fs[i - 1]) &&
      (k == CV ==> Select(k, parts) == [fs[2], fs[3]]) &&
      (k == CA ==> Select(k, parts) == [fs[1], fs[3]]) &&
      (k != Other ==> |Select(k, parts)| == 2 && AllFields(Select(k, parts)))
  {
    DataRowSplit(line);
    var fs := Fields(line);
    var parts := Split(line, '\t');
    assert forall i :: 1 <= i <= 4 ==> parts[i] == fs[i - 1];
    assert IsField(fs[1]) && IsField(fs[2]) && IsField(fs[3]);
  }

  /** For a file that is neither CV nor CA a data row is echoed whole: one more tab in front and
      one more line break at the end. */
  lemma Echo(line: string, filename: string, shift: Option<real>, units: string, nm: Numerics)
    requires SingleLine(line) && DataRow(line)
    requires units in UnitConv && ValidNumerics(nm)
    requires Classify(filename) == Other
    ensures HandleLine(line, filename, shift, units, nm) == Some("\t" + line + "\n")
  {
    Gate(line);
    SplitJoin(line, '\t');
  }

  /** For CV and CA the kept fields of a data row are the two `Kept` fields. */
  lemma KeptSelected(line: string, k: Kind)
    requires DataRow(line) && k != Other
    ensures |Split(line, '\t')| >= 9
    ensures Select(k, Split(line, '\t')) == [Kept(k, Fields(line)).0, Kept(k, Fields(line)).1]
  {
    DataRowSplit(line);
    var fs := Fields(line);
    var parts := Split(line, '\t');
    assert forall i :: 1 <= i <= 4 ==> parts[i] == fs[i - 1];
  }

  /** The failing conversions fall back to the header row. */
  lemma ConvertFails(k: Kind, first: string, second: string, shift: Option<real>, units: string, nm: Numerics)
    requires k != Other
    requires units in UnitConv && ValidNumerics(nm)
    requires nm.parse(second).None? || (k == CV && shift.Some? && nm.parse(first).None?)
    ensures Convert(k, [first, second], shift, units, nm) == Header(k, first, units)
  {
  }

  /** The current is rescaled and reformatted while the first field is kept as it is. */
  lemma ConvertKeeps(k: Kind, first: string, second: string, shift: Option<real>, units: string, nm: Numerics, i: real)
    requires k == CA || (k == CV && shift.None?)
    requires units in UnitConv && ValidNumerics(nm)
    requires nm.parse(second) == Some(i)
    ensures Convert(k, [first, second], shift, units, nm) == [first, Sci(nm, Scaled(i, units))]
  {
  }

  /** With a shift both CV fields are reformatted. */
  lemma ConvertShifts(first: string, second: string, d: real, units: string, nm: Numerics, v: real, i: real)
    requires units in UnitConv && ValidNumerics(nm)
    requires nm.parse(first) == Some(v) && nm.parse(second) == Some(i)
    ensures Convert(CV, [first, second], Some(d), units, nm) == [Sci(nm, v + d), Sci(nm, Scaled(i, units))]
  {
    var sel := [first, second];
    assert sel[0] == first && sel[1] == second;
  }

  /** The header and units rows as they are written. */
  lemma HeaderRows(k: Kind, first: string, units: string)
    requires k != Other
    ensures Row(Header(k, first, units)) ==
      if k == CV then
        if first == "Vf" then "\tVoltage\tCurrent\n" else "\tV\t" + units + "\n"
      else
        if first == "T" then "\tTime\tCurrent\n" else "\ts\t" + units + "\n"
  {
    var h := Header(k, first, units);
    assert h == [h[0], h[1]];
    RowOfTwo(h[0], h[1]);
    if k == CV {
      if first == "Vf" {
        assert "\t" + "Voltage" + "\t" + "Current" + "\n" == "\tVoltage\tCurrent\n";
      } else {
        assert "\t" + "V" + "\t" + units + "\n" == "\tV\t" + units + "\n";
      }
    } else {
      if first == "T" {
        assert "\t" + "Time" + "\t" + "Current" + "\n" == "\tTime\tCurrent\n";
      } else {
        assert "\t" + "s" + "\t" + units + "\n" == "\ts\t" + units + "\n";
      }
    }
  }

  /** When the current field (or, with a shift, the voltage field) of a CV or CA row is not a
      number, the header or units row for that kind is written instead, and a current already
      reformatted on that line is dropped. */
  lemma HeaderSubstitution(line: string, filename: string, shift: Option<real>, units: string, nm: Numerics)
    requires SingleLine(line) && DataRow(line)
    requires units in UnitConv && ValidNumerics(nm)
    requires Classify(filename) != Other
    requires var (first, second) := Kept(Classify(filename), Fields(line));
      nm.parse(second).None? ||
      (Classify(filename) == CV && shift.Some? && nm.parse(first).None?)
    ensures var first := Kept(Classify(filename), Fields(line)).0;
      HandleLine(line, filename, shift, units, nm) == Some(
        if Classify(filename) == CV then
          if first == "Vf" then "\tVoltage\tCurrent\n" else "\tV\t" + units + "\n"
        else
          if first == "T" then "\tTime\tCurrent\n" else "\ts\t" + units + "\n")
  {
    var k := Classify(filename);
    var (first, second) := Kept(k, Fields(line));
    WrittenRow(line, filename, shift, units, nm);
    KeptSelected(line, k);
    ConvertFails(k, first, second, shift, units, nm);
    HeaderRows(k, first, units);
  }

  /** A CA row keeps its time field as it is and rewrites only the current; so does a CV row when
      no shift is given, with its voltage field. */
  lemma PassThrough(line: string, filename: string, shift: Option<real>, units: string, nm: Numerics, i: real)
    requires SingleLine(line) && DataRow(line)
    requires units in UnitConv && ValidNumerics(nm)
    requires Classify(filename) == CA || (Classify(filename) == CV && shift.None?)
    requires nm.parse(Kept(Classify(filename), Fields(line)).1) == Some(i)
    ensures HandleLine(line, filename, shift, units, nm) ==
      Some("\t" + Kept(Classify(filename), Fields(line)).0 + "\t" + Sci(nm, Scaled(i, units)) + "\n")
  {
    var k := Classify(filename);
    var (first, second) := Kept(k, Fields(line));
    WrittenRow(line, filename, shift, units, nm);
    KeptSelected(line, k);
    ConvertKeeps(k, first, second, shift, units, nm, i);
    RowOfTwo(first, Sci(nm, Scaled(i, units)));
  }

  /** A CV row with a shift and two numbers: the shifted voltage and the scaled current, both
      reformatted. */
  lemma ShiftedVoltage(line: string, filename: string, d: real, units: string, nm: Numerics, v: real, i: real)
    requires SingleLine(line) && DataRow(line)
    requires units in UnitConv && ValidNumerics(nm)
    requires Classify(filename) == CV
    requires nm.parse(Fields(line)[2]) == Some(v) && nm.parse(Fields(line)[3]) == Some(i)
    ensures HandleLine(line, filename, Some(d), units, nm) ==
      Some("\t" + Sci(nm, v + d) + "\t" + Sci(nm, Scaled(i, units)) + "\n")
  {
    var fs := Fields(line);
    WrittenRow(line, filename, Some(d), units, nm);
    KeptSelected(line, CV);
    ConvertShifts(fs[2], fs[3], d, units, nm, v, i);
    RowOfTwo(Sci(nm, v + d), Sci(nm, Scaled(i, units)));
  }

  /** Free of tabs and line breaks. */
  predicate Clean(x: string)
  {
    '\t' !in x && '\n' !in x
  }

  /** The header row of a kind is two clean fields when the unit name is clean. */
  lemma HeaderClean(k: Kind, first: string, units: string)
    requires Clean(units)
    ensures var h := Header(k, first, units);
      |h| == 2 && Clean(h[0]) && Clean(h[1])
  {
  }

  /** Converting two clean fields of a CV or CA row gives two clean fields. */
  lemma ConvertClean(k: Kind, sel: seq<string>, shift: Option<real>, units: string, nm: Numerics)
    requires k != Other && |sel| == 2 && Clean(sel[0]) && Clean(sel[1])
    requires units in UnitConv && ValidNumerics(nm)
    ensures var out := Convert(k, sel, shift, units, nm);
      |out| == 2 && Clean(out[0]) && Clean(out[1])
  {
    assert sel == [sel[0], sel[1]];
    var first, second := sel[0], sel[1];
    if nm.parse(second).None? || (k == CV && shift.Some? && nm.parse(first).None?) {
      UnitTable();
      ConvertFails(k, first, second, shift, units, nm);
      HeaderClean(k, first, units);
    } else if k == CA || shift.None? {
      ConvertKeeps(k, first, second, shift, units, nm, nm.parse(second).value);
    } else {
      ConvertShifts(first, second, shift.value, units, nm, nm.parse(first).value, nm.parse(second).value);
    }
  }

  /** The kept fields of a data row hold no tab or line break. */
  lemma KeptClean(line: string, k: Kind)
    requires DataRow(line)
    ensures Clean(Kept(k, Fields(line)).0) && Clean(Kept(k, Fields(line)).1)
  {
    var fs := Fields(line);
    assert IsField(fs[1]) && IsField(fs[2]) && IsField(fs[3]);
  }

  /** A tab, a field, a tab, a field and one line break: exactly two tabs, and a line break only
      at the end. */
  predicate TwoColumnLine(out: string)
  {
    |out| >= 3 && out[0] == '\t' && out[|out| - 1] == '\n' &&
    Count(out, '\t') == 2 && '\n' !in out[..|out| - 1]
  }

  /** Every line written for a CV or CA file is a tab, a field, a tab, a field and one line break:
      exactly two tabs and a line break only at the end. */
  lemma OutputShape(line: string, filename: string, shift: Option<real>, units: string, nm: Numerics)
    requires SingleLine(line)
    requires units in UnitConv && ValidNumerics(nm)
    requires Classify(filename) != Other
    ensures var r := HandleLine(line, filename, shift, units, nm);
      r.Some? ==> TwoColumnLine(r.value)
  {
    var r := HandleLine(line, filename, shift, units, nm);
    if r.Some? {
      var k := Classify(filename);
      WrittenRow(line, filename, shift, units, nm);
      KeptSelected(line, k);
      var sel := Select(k, Split(line, '\t'));
      KeptClean(line, k);
      ConvertClean(k, sel, shift, units, nm);
      var conv := Convert(k, sel, shift, units, nm);
      var a, b := conv[0], conv[1];
      var out := r.value;
      RowOfTwo(a, b);
      assert conv == [a, b];
      TwoColumnsOfClean(a, b);
    }
  }

  /** Two clean fields make a two-column line. */
  lemma TwoColumnsOfClean(a: string, b: string)
    requires Clean(a) && Clean(b)
    ensures TwoColumnLine("\t" + a + "\t" + b + "\n")
  {
    var ta := "\t" + a;
    var tat := ta + "\t";
    var body := tat + b;
    var out := body + "\n";
    assert Count("\t", '\t') == 1;
    assert Count("\n", '\t') == 0;
    CountConcat("\t", a, '\t');
    CountConcat(ta, "\t", '\t');
    CountConcat(tat, b, '\t');
    CountConcat(body, "\n", '\t');
    assert out[..|out| - 1] == body;
  }

  /** Every row of at least eight fields is written, as exactly one line. */
  lemma EveryRowWritten(fs: seq<string>, filename: string, shift: Option<real>, units: string, nm: Numerics)
    requires |fs| >= 8 && AllFields(fs)
    requires units in UnitConv && ValidNumerics(nm)
    ensures var line := "\t" + Join(fs, '\t') + "\n";
      SingleLine(line) && HandleLine(line, filename, shift, units, nm).Some?
  {
    DataRowOfFields(fs);
    Gate("\t" + Join(fs, '\t') + "\n");
  }
}
