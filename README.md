# origin_data_prepare — a Dafny model of the line reformatter

`origin_data_prepare.py` prepares Gamry potentiostat `.DTA` exports for import into OriginLab.
For each input file it writes an output file. Each line of the input that is a tab-separated data
row (a tab and at least eight fields, then a line break) becomes one output line.
- **CV (cyclic voltammetry) files:** the output keeps the voltage and current columns.
- **CA (chronoamperometry) files:** it keeps the time and current columns.
- **Any other file:** the row is kept whole.

Currents are rescaled to the chosen unit (`A`, `mA`, `uA`, `nA`). A CV voltage may be shifted by a
constant. Rewritten numbers are printed as `%.5e` with one more exponent digit (`1.23450E+003`).
When the current field, or in a CV file given a shift the voltage field, is not a number, a header
or units row replaces the two kept fields. The output file's name gets a `CV`/`CA` tag.

The model has six modules, one per concern of the script:

- `TabText` (`tab_text.dfy`): `str.split` / `str.join` on one character, substring tests and
  counting. Split and join are proved inverse to each other.
- `SciNotation` (`sci_notation.dfy`): `UNIT_CONV` and `sci_not_format`.
- `Naming` (`naming.dfy`): the CV/CA/other classification of a file name, `os.path.join`
  (POSIX rules) and `mod_filename`.
- `LineGate` (`line_gate.dfy`): the regex gate as a hand-written scanner with the semantics of
  `re.match` (anchored at the start only). It is proved equivalent to a structural description of
  a data row.
- `LineHandler` (`line_handler.dfy`): `file_handler` as a pure function from a line to an
  optional output line, with the column selection, number conversion and header substitution.
- `FileOpener` (`file_opener.dfy`): the same handler as imperative code. It overwrites its kept
  fields one at a time and writes to an output-file object. This module also holds the loop of
  `file_opener` over the lines of a file. Both methods are proved against `LineHandler`.

Floating point is a parameter. `Numerics.parse` stands for `float(text)`, with `None` where Python
raises `ValueError`. `Numerics.render` stands for `'%.5e' % x`; its result is required to have the
`%.5e` shape (`ValidNumerics`). Arithmetic on the parsed values is done on `real`.

## Model

| member | source | states |
|---|---|---|
| `SciNotation.UnitTable` | origin_data_prepare.py:19 | the factors of `UNIT_CONV` are 1, 10^3, 10^6, 10^9, each step a thousand; no unit name holds a tab or line break |
| `SciNotation.UnitChoicesAreKeys` | origin_data_prepare.py:146-147 | the unit choices the command line accepts are exactly the keys of `UNIT_CONV` |
| `SciNotation.SciNotFormat` | origin_data_prepare.py:21-26 | for any text with an `e` (without one the source raises IndexError), the result is one character longer and holds no `e` |
| `SciNotation.PadExponent` | origin_data_prepare.py:25 | `x[:1] + '0' + x[1:]`: one character longer; a `0` alone for an empty text, else the first character, a `0`, then the rest |
| `SciNotation.ExponentPadding` | origin_data_prepare.py:23-26 | `m + 'e' + sign + digits` becomes `m + 'E' + sign + '0' + digits` |
| `SciNotation.PercentEFormatted` | origin_data_prepare.py:21-26 | on a `%.5e` rendering the mantissa is kept and the exponent gains one digit: two digits become the three places of the doc comment, three become four. The result has no tab or line break |
| `Naming.Classify` | origin_data_prepare.py:31-35 | CV exactly when the name contains `CV`; CA exactly when it contains `CA` but not `CV`; other otherwise |
| `Naming.PathJoin` | origin_data_prepare.py:30 | the name is a suffix of the joined path; an absolute name replaces the directory; otherwise the directory is a prefix, and exactly one `/` is put between a non-empty directory not ending in `/` and the name, while an empty directory or one ending in `/` is followed directly by the name |
| `Naming.Tag` | origin_data_prepare.py:32-36 | no contract of its own (the `'CV'`, `'CA'` or empty suffix); characterised by `ModFilename` |
| `Naming.ModFilename` | origin_data_prepare.py:28-36 | the output name is the joined path followed by a tag taken from the file name: `CV` if it contains `CV`, else `CA` if it contains `CA`, else nothing |
| `TabText.Split` | origin_data_prepare.py:49-50 | splitting gives at least one piece, and no piece holds the separator |
| `TabText.SplitPieces` | origin_data_prepare.py:49-50 | splitting gives one more piece than there are separators |
| `TabText.Join` | origin_data_prepare.py:78 | no contract of its own; characterised by `SplitJoin`, `JoinSplit`, `JoinLength` and `JoinAvoids` |
| `TabText.Contains` | origin_data_prepare.py:31-33 | no contract of its own (Python's `in` on strings); characterised by `ContainsOccurs` |
| `TabText.ContainsOccurs` | origin_data_prepare.py:31-33 | `t in s` holds exactly when `t` occurs in `s` at some index |
| `TabText.SplitJoin` | origin_data_prepare.py:50 | re-joining the pieces of a split gives back the text |
| `TabText.JoinSplit` | origin_data_prepare.py:78 | splitting a join of separator-free pieces gives back the pieces |
| `LineGate.MatchesFrom` | origin_data_prepare.py:44-45 | no contract of its own (the regex scanner); characterised by `MatchesBody` and `NoBreakNoMatch` |
| `LineGate.Matches` | origin_data_prepare.py:44-45 | no contract of its own (`regex.match(line) is not None`); characterised by `Gate` |
| `LineGate.Gate` | origin_data_prepare.py:44-46 | for a line as file iteration yields it, the regex accepts it exactly when it is a tab, at least eight non-empty fields free of `\t\n\r\f\v` separated by tabs, and a final line break |
| `LineGate.MatchesBody` | origin_data_prepare.py:44 | the scanner on a text plus line break accepts exactly when the text is empty (with eight repetitions behind it) or is a tab followed by tab-separated fields, enough of them to reach eight |
| `LineGate.NoBreakNoMatch` | origin_data_prepare.py:44 | a line with no line break never matches |
| `LineGate.DataRowOfFields` | origin_data_prepare.py:44-46 | every row built from at least eight fields passes the gate and gives back its fields |
| `LineGate.DataRowSplit` | origin_data_prepare.py:49-50 | a data row is a tab, its fields joined by tabs, and a line break; its split on tabs is an empty piece, then the fields, with the line break stuck to the last one |
| `LineHandler.Sci` | origin_data_prepare.py:21-26 | `sci_not_format(num)`: the result holds no tab or line break; its value is fixed by `PercentEFormatted` |
| `LineHandler.Scaled` | origin_data_prepare.py:60 | no contract of its own (`float(...) * UNIT_CONV[units]`, exact on reals); used by `PassThrough` and `ShiftedVoltage` |
| `LineHandler.Select` | origin_data_prepare.py:51-56 | no contract of its own; characterised by `SelectionBounds` and `KeptSelected` |
| `LineHandler.Convert` | origin_data_prepare.py:58-76 | no contract of its own; characterised by `ConvertFails`, `ConvertKeeps`, `ConvertShifts` and `ConvertClean` |
| `LineHandler.Header` | origin_data_prepare.py:66-76 | no contract of its own; characterised by `HeaderRows` |
| `LineHandler.Row` | origin_data_prepare.py:78 | no contract of its own; characterised by `RowOfTwo`, `Echo` and `OutputShape` |
| `LineHandler.HandleLine` | origin_data_prepare.py:38-79 | a line is written exactly when it is a data row; what is written starts with a tab and ends with a line break |
| `LineHandler.SelectionBounds` | origin_data_prepare.py:49-55 | a data row splits into at least 9 pieces, the first empty. CV keeps fields 3 and 4 and CA keeps fields 2 and 4 (`[2:5:2]`): exactly two fields, none holding a tab or line break |
| `LineHandler.Echo` | origin_data_prepare.py:49-79 | for a file that is neither CV nor CA, the output is the input line with one more tab in front and one more line break behind |
| `LineHandler.HeaderSubstitution` | origin_data_prepare.py:58-76 | when the current (or, with a shift, the voltage) is not a number, CV gives `Voltage`/`Current` if the first field is `Vf`, else `V`/unit; CA gives `Time`/`Current` if it is `T`, else `s`/unit. An already rewritten current is dropped |
| `LineHandler.HeaderRows` | origin_data_prepare.py:66-78 | the header rows are written as `\tVoltage\tCurrent\n`, `\tV\t<unit>\n`, `\tTime\tCurrent\n` and `\ts\t<unit>\n` |
| `LineHandler.ConvertClean` | origin_data_prepare.py:58-76 | converting two fields free of tabs and line breaks gives two such fields, whichever branch is taken |
| `LineHandler.PassThrough` | origin_data_prepare.py:59-65 | CA keeps the time field unchanged, and so does CV its voltage field when no shift is given. Only the current is rewritten, as the scaled value in `%.5e` style |
| `LineHandler.ShiftedVoltage` | origin_data_prepare.py:59-62 | a CV row with a shift writes the shifted voltage and the scaled current, both reformatted |
| `LineHandler.ConvertFails` | origin_data_prepare.py:66-76 | a failed conversion of the kept fields yields the header row of the file's kind |
| `LineHandler.ConvertKeeps` | origin_data_prepare.py:59-65 | a successful conversion without shift keeps the first field and rewrites the current |
| `LineHandler.ConvertShifts` | origin_data_prepare.py:59-62 | a successful conversion with shift rewrites both fields |
| `LineHandler.OutputShape` | origin_data_prepare.py:78 | every line written for a CV or CA file starts with a tab, ends with its only line break, and holds exactly two tabs |
| `LineHandler.EveryRowWritten` | origin_data_prepare.py:44-79 | every row of at least eight well-formed fields yields exactly one output line |
| `FileOpener.OutputFile.constructor` | origin_data_prepare.py:90 | a file opened for writing starts empty, at the given path |
| `FileOpener.OutputFile.Write` | origin_data_prepare.py:79 | writing appends one line and changes nothing else |
| `FileOpener.FileHandler` | origin_data_prepare.py:38-79 | the imperative handler writes exactly what `HandleLine` gives: nothing for a non-row, one line for a row |
| `FileOpener.ReformatFields` | origin_data_prepare.py:58-76 | overwriting the kept fields one at a time, with the ValueError fallback, yields exactly the converted fields of `Convert` |
| `FileOpener.TryReformat` | origin_data_prepare.py:58-65 | the `try` body overwrites the current, then with a shift the voltage; when it stops at a ValueError the first kept field is untouched and `Convert` gives the header row |
| `FileOpener.HeaderFields` | origin_data_prepare.py:66-76 | the `except ValueError` handler picks exactly the header row of the file's kind |
| `FileOpener.ProcessLines` | origin_data_prepare.py:91-92 | no contract of its own; characterised by `OneLinePerRow`, `ProcessConcat` and `TwoColumnOutput`, and tied to the loop by `FileOpener` |
| `FileOpener.FileOpener` | origin_data_prepare.py:81-92 | the output file is created at `mod_filename(output_path, filename)` and receives the handler's output for every input line, in input order |
| `FileOpener.OneLinePerRow` | origin_data_prepare.py:91-92 | the output of a file has one line per data row of the input and no other |
| `FileOpener.ProcessConcat` | origin_data_prepare.py:91-92 | lines are processed independently: the output for two stretches of input is the output of the first followed by the output of the second |
| `FileOpener.TwoColumnOutput` | origin_data_prepare.py:91-92 | every line of a CV or CA output file has exactly two tab-separated columns |

## Left out

- Argument parsing, the version flag and debug printing (lines 138-167): library glue. The
  restriction of the units to `UNIT_CONV`'s keys appears only as the precondition
  `units in UnitConv`.
- `dispatcher` (lines 94-136): directory checks, listing the `DTA` files, creating or deleting the
  output directory and the `[Y/n]` prompt are file-system and console I/O. The optional
  `multiprocessing.Pool` fan-out is only parallelism over independent files.
- `main`'s catch-all exception printing (lines 169-175).
- Opening and reading the input file: the model takes its lines as a sequence. Python's text mode
  turns `\r\n` and a lone `\r` into `\n` before the gate sees a line; that translation is not modelled.
- Floating point: `float()` parsing and `%.5e` rendering are the parameters `parse` and `render`.
  The unit multiplication and the voltage shift are exact on `real`, so IEEE rounding is not
  modelled.
- `SciNotation.SciNotFormat` inside the handler: `render` is required to produce the `%.5e`
  shape, so the uncaught IndexError that `inf` and `nan` (which have no `e`) cause in
  `sci_not_format` is not modelled.
- `LineHandler.HandleLine`: requires a line with at most one line break, at its end, as file
  iteration yields it. The gate itself (`LineGate.Matches`) is modelled for any text.
- The regex engine: the gate is a hand-written scanner, proved equal to the structural row shape.
- `Naming.PathJoin`: follows POSIX `os.path.join`; Windows path rules are not modelled.
- The no-op `selected[0] = selected[0]` (line 64) has no counterpart.
- An unknown unit: it would raise KeyError at line 60 or 65; callers are required to pass one of
  the table's keys, as the `choices` at line 147 ensure.
