/** `file_handler` as the source runs it, updating its list of kept fields in place and writing to
    the output file, and the loop of `file_opener` that feeds it every line of an input file. */
module FileOpener {
  import opened Wrappers
  import opened TabText
  import opened SciNotation
  import opened Naming
  import opened LineGate
  import opened LineHandler

  /** An output file opened for writing: its path and the lines written to it so far. */
  class OutputFile {
    const path: string
    var written: seq<string>

    /** `open(path, 'w')`: a new file starts empty. */
    constructor (path: string)
      ensures this.path == path && written == []
    {
      this.path := path;
      written := [];
    }

    /** `output_file.write(s)`. */
    method Write(s: string)
      modifies this
      ensures written == old(written) + [s]
    {
      written := written + [s];
    }
  }

  /** `file_handler(line, filename, output_file, shift, units)`: the gate, the kept fields, their
      conversion, and one line written. */
  method FileHandler(line: string, filename: string, out: OutputFile, shift: Option<real>, units: string,
                     nm: Numerics)
    requires SingleLine(line)
    requires units in UnitConv && ValidNumerics(nm)
    modifies out
    ensures out.written == old(out.written) + AsSeq(HandleLine(line, filename, shift, units, nm))
  {
    if !Matches(line) {
      return;
    }
    Gate(line);
    SplitCount(line);
    var splitLine := Split(line, '\t');
    var selected: seq<string>;
    if Contains(filename, "CV") {
      selected := splitLine[3..5];
    } else if Contains(filename, "CA") {
      selected := [splitLine[2], splitLine[4]];
    } else {
      selected := splitLine;
    }
    selected := ReformatFields(filename, selected, shift, units, nm);
    WrittenRow(line, filename, shift, units, nm);
    out.Write("\t" + Join(selected, '\t') + "\n");
  }

  /** The `try` block of `file_handler` and its `except ValueError` handler: the kept fields are
      overwritten one at a time by their reformatted values; when `float` raises ValueError the
      header row replaces them. */
  method ReformatFields(filename: string, kept: seq<string>, shift: Option<real>, units: string, nm: Numerics)
    returns (selected: seq<string>)
    requires Classify(filename) != Other ==> |kept| == 2
    requires units in UnitConv && ValidNumerics(nm)
    ensures selected == Convert(Classify(filename), kept, shift, units, nm)
  {
    var failed;
    selected, failed := TryReformat(filename, kept, shift, units, nm);
    if failed {
      selected := HeaderFields(filename, selected[0], units);
    }
  }

  /** The body of the `try` block. `failed` records that `float` raised ValueError; the first kept
      field is then still as it was, and the conversion is the header row. */
  method TryReformat(filename: string, kept: seq<string>, shift: Option<real>, units: string, nm: Numerics)
    returns (selected: seq<string>, failed: bool)
    requires Classify(filename) != Other ==> |kept| == 2
    requires units in UnitConv && ValidNumerics(nm)
    ensures !failed ==> selected == Convert(Classify(filename), kept, shift, units, nm)
    ensures failed ==> Classify(filename) != Other && |selected| == 2 && selected[0] == kept[0]
    ensures failed ==> Convert(Classify(filename), kept, shift, units, nm) == Header(Classify(filename), kept[0], units)
  {
    ghost var k := Classify(filename);
    selected := kept;
    failed := false;
    if Contains(filename, "CV") {
      assert kept == [kept[0], kept[1]];
      var current := nm.parse(selected[1]);
      if current.None? {
        failed := true;
        ConvertFails(k, kept[0], kept[1], shift, units, nm);
      } else {
        selected := selected[1 := Sci(nm, Scaled(current.value, units))];
        if shift.Some? {
          var voltage := nm.parse(selected[0]);
          if voltage.None? {
            failed := true;
            ConvertFails(k, kept[0], kept[1], shift, units, nm);
          } else {
            selected := selected[0 := Sci(nm, voltage.value + shift.value)];
            ConvertShifts(kept[0], kept[1], shift.value, units, nm, voltage.value, current.value);
          }
        } else {
          ConvertKeeps(k, kept[0], kept[1], shift, units, nm, current.value);
        }
      }
    } else if Contains(filename, "CA") {
      assert kept == [kept[0], kept[1]];
      var current := nm.parse(selected[1]);
      if current.None? {
        failed := true;
        ConvertFails(k, kept[0], kept[1], shift, units, nm);
      } else {
        selected := selected[1 := Sci(nm, Scaled(current.value, units))];
        ConvertKeeps(k, kept[0], kept[1], shift, units, nm, current.value);
      }
    }
  }

  /** The `except ValueError` handler: the header row, or the units row, of the file's kind. */
  method HeaderFields(filename: string, first: string, units: string) returns (selected: seq<string>)
    requires Classify(filename) != Other
    ensures selected == Header(Classify(filename), first, units)
  {
    if Contains(filename, "CV") {
      if first == "Vf" {
        selected := ["Voltage", "Current"];
      } else {
        selected := ["V", units];
      }
    } else {
      if first == "T" {
        selected := ["Time", "Current"];
      } else {
        selected := ["s", units];
      }
    }
  }

  predicate AllSingleLines(lines: seq<string>)
  {
    forall i :: 0 <= i < |lines| ==> SingleLine(lines[i])
  }

  /** What the whole file gets: the lines written for each input line, in input order. */
  function ProcessLines(lines: seq<string>, filename: string, shift: Option<real>, units: string,
                        nm: Numerics): seq<string>
    requires AllSingleLines(lines)
    requires units in UnitConv && ValidNumerics(nm)
  {
    if lines == [] then []
    else
      ProcessLines(lines[..|lines| - 1], filename, shift, units, nm)
      + AsSeq(HandleLine(lines[|lines| - 1], filename, shift, units, nm))
  }

  /** `file_opener`: opens the output file at `mod_filename(output_path, filename)` and passes
      every line of the input file, in order, to `file_handler`. */
  method FileOpener(lines: seq<string>, filename: string, outputPath: string, shift: Option<real>,
                    units: string, nm: Numerics) returns (out: OutputFile)
    requires AllSingleLines(lines)
    requires units in UnitConv && ValidNumerics(nm)
    ensures fresh(out)
    ensures out.path == ModFilename(outputPath, filename)
    ensures out.written == ProcessLines(lines, filename, shift, units, nm)
  {
    out := new OutputFile(ModFilename(outputPath, filename));
    for i := 0 to |lines|
      invariant AllSingleLines(lines[..i])
      invariant out.path == ModFilename(outputPath, filename)
      invariant out.written == ProcessLines(lines[..i], filename, shift, units, nm)
    {
      FileHandler(lines[i], filename, out, shift, units, nm);
      ProcessStep(lines, i, filename, shift, units, nm);
    }
    assert lines[..|lines|] == lines;
  }

  /** Processing one more line appends what the handler writes for it. */
  lemma ProcessStep(lines: seq<string>, i: nat, filename: string, shift: Option<real>, units: string,
                    nm: Numerics)
    requires AllSingleLines(lines) && i < |lines|
    requires units in UnitConv && ValidNumerics(nm)
    ensures AllSingleLines(lines[..i]) && AllSingleLines(lines[..i + 1])
    ensures ProcessLines(lines[..i + 1], filename, shift, units, nm) ==
      ProcessLines(lines[..i], filename, shift, units, nm) + AsSeq(HandleLine(lines[i], filename, shift, units, nm))
  {
    var pre := lines[..i + 1];
    assert pre[..i] == lines[..i] && pre[i] == lines[i];
  }

  /** Number of data rows among `lines`. */
  function DataRows(lines: seq<string>): nat
  {
    if lines == [] then 0
    else DataRows(lines[..|lines| - 1]) + (if DataRow(lines[|lines| - 1]) then 1 else 0)
  }

  /** The output has one line per data row of the input, and no other. */
  lemma {:induction false} OneLinePerRow(lines: seq<string>, filename: string, shift: Option<real>,
                                         units: string, nm: Numerics)
    requires AllSingleLines(lines)
    requires units in UnitConv && ValidNumerics(nm)
    ensures |ProcessLines(lines, filename, shift, units, nm)| == DataRows(lines)
    decreases |lines|
  {
    if lines != [] {
      OneLinePerRow(lines[..|lines| - 1], filename, shift, units, nm);
    }
  }

  lemma AllSingleConcat(a: seq<string>, b: seq<string>)
    requires AllSingleLines(a) && AllSingleLines(b)
    ensures AllSingleLines(a + b)
  {
    forall i | 0 <= i < |a + b| ensures SingleLine((a + b)[i]) {
      if i < |a| { assert (a + b)[i] == a[i]; } else { assert (a + b)[i] == b[i - |a|]; }
    }
  }

  /** Lines are processed independently: the output for two stretches of input is the output for
      the first followed by the output for the second. */
  lemma {:induction false} ProcessConcat(a: seq<string>, b: seq<string>, filename: string, shift: Option<real>,
                                         units: string, nm: Numerics)
    requires AllSingleLines(a) && AllSingleLines(b)
    requires units in UnitConv && ValidNumerics(nm)
    ensures AllSingleLines(a + b)
    ensures ProcessLines(a + b, filename, shift, units, nm) ==
      ProcessLines(a, filename, shift, units, nm) + ProcessLines(b, filename, shift, units, nm)
    decreases |b|
  {
    AllSingleConcat(a, b);
    if b == [] {
      assert a + b == a;
    } else {
      var b' := b[..|b| - 1];
      var ab := a + b;
      assert ab[..|ab| - 1] == a + b';
      assert ab[|ab| - 1] == b[|b| - 1];
      ProcessConcat(a, b', filename, shift, units, nm);
      ProcessLast(ab, filename, shift, units, nm);
      ProcessLast(b, filename, shift, units, nm);
    }
  }

  /** The output of a non-empty input is the output of all but its last line, followed by what
      the handler writes for the last line. */
  lemma ProcessLast(lines: seq<string>, filename: string, shift: Option<real>, units: string, nm: Numerics)
    requires AllSingleLines(lines) && lines != []
    requires units in UnitConv && ValidNumerics(nm)
    ensures AllSingleLines(lines[..|lines| - 1])
    ensures ProcessLines(lines, filename, shift, units, nm) ==
      ProcessLines(lines[..|lines| - 1], filename, shift, units, nm) +
      AsSeq(HandleLine(lines[|lines| - 1], filename, shift, units, nm))
  {
  }

  /** Every line written for a CV or CA file has two tab-separated columns. */
  lemma {:induction false} TwoColumnOutput(lines: seq<string>, filename: string, shift: Option<real>,
                                           units: string, nm: Numerics)
    requires AllSingleLines(lines)
    requires units in UnitConv && ValidNumerics(nm)
    requires Classify(filename) != Other
    ensures forall line :: line in ProcessLines(lines, filename, shift, units, nm) ==> TwoColumnLine(line)
    decreases |lines|
  {
    if lines != [] {
      var init := lines[..|lines| - 1];
      TwoColumnOutput(init, filename, shift, units, nm);
      OutputShape(lines[|lines| - 1], filename, shift, units, nm);
      var before := ProcessLines(init, filename, shift, units, nm);
      var last := AsSeq(HandleLine(lines[|lines| - 1], filename, shift, units, nm));
      var out := ProcessLines(lines, filename, shift, units, nm);
      assert out == before + last;
      forall line | line in out ensures TwoColumnLine(line) {
        if line !in before {
          var h := HandleLine(lines[|lines| - 1], filename, shift, units, nm);
          assert h.Some? && line == h.value;
        }
      }
    }
  }
}
