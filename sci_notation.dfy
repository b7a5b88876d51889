/** Number rendering: the unit table and `sci_not_format`, which turns the output of
    `'%.5e' % num` into the three-place exponent style (`1.23450E+003`). */
module SciNotation {
  import opened TabText

  /** `UNIT_CONV`: factor from amperes to each selectable current unit. */
  const UnitConv: map<string, real> :=
    map["A" := 1.0, "mA" := 1000.0, "uA" := 1000000.0, "nA" := 1000000000.0]

  /** The `choices` the command line accepts for the units option. */
  const UnitChoices: seq<string> := ["A", "mA", "uA", "nA"]

  /** The accepted choices are exactly the table's keys. */
  lemma UnitChoicesAreKeys()
    ensures forall u :: u in UnitChoices <==> u in UnitConv
  {
  }

  /** Each step of the table is a factor of one thousand, and no unit name contains a tab or a
      line break. */
  lemma UnitTable()
    ensures UnitConv["A"] == 1.0
    ensures UnitConv["mA"] == 1000.0 * UnitConv["A"]
    ensures UnitConv["uA"] == 1000.0 * UnitConv["mA"]
    ensures UnitConv["nA"] == 1000.0 * UnitConv["uA"]
    ensures forall u :: u in UnitConv ==> '\t' !in u && '\n' !in u
  {
  }

  predicate IsDigit(c: char) { '0' <= c <= '9' }

  /** The mantissa printed by `%.5e`: an optional minus, one digit, a point and five digits. */
  predicate IsMantissa(m: string)
  {
    var d := Unsigned(m);
    |d| == 7 && IsDigit(d[0]) && d[1] == '.' && forall i :: 2 <= i < 7 ==> IsDigit(d[i])
  }

  /** `m` without its leading minus sign, if it has one. */
  function Unsigned(m: string): string
  {
    if |m| > 0 && m[0] == '-' then m[1..] else m
  }

  /** The exponent printed by `%.5e` after its `e`: a sign and at least two digits. */
  predicate IsExponent(x: string)
  {
    |x| >= 3 && (x[0] == '+' || x[0] == '-') && forall i :: 1 <= i < |x| ==> IsDigit(x[i])
  }

  /** The shape of `'%.5e' % num` for a finite `num`. */
  predicate IsPercentE(s: string)
  {
    'e' in s &&
    var a := Split(s, 'e');
    |a| == 2 && IsMantissa(a[0]) && IsExponent(a[1])
  }

  /** `x[:1] + '0' + x[1:]`: a zero after the first character (the exponent's sign). */
  function PadExponent(x: string): (y: string)
    ensures |y| == |x| + 1
    ensures x == [] ==> y == "0"
    ensures x != [] ==> y == [x[0]] + "0" + x[1..]
  {
    var k := if |x| < 1 then |x| else 1;
    x[..k] + "0" + x[k..]
  }

  /** `sci_not_format` applied to the text `snum` that `'%.5e' % num` produced: the piece after the
      first `e` gets a zero behind its sign and every `e` becomes `E`.  Without an `e` the source
      raises IndexError, hence the precondition. */
  function SciNotFormat(snum: string): (r: string)
    requires 'e' in snum
    ensures |r| == |snum| + 1
    ensures 'e' !in r
  {
    SplitPieces(snum, 'e');
    var a := Split(snum, 'e');
    var b := a[1 := PadExponent(a[1])];
    SplitJoin(snum, 'e');
    JoinLength(a, 'e');
    JoinLength(b, 'E');
    SumLenUpdate(a, 1, PadExponent(a[1]));
    assert forall i :: 0 <= i < |b| ==> 'e' !in b[i] by {
      forall i | 0 <= i < |b| ensures 'e' !in b[i] {
        if i == 1 {
          var x := a[1];
          assert b[1] == x[..if |x| < 1 then |x| else 1] + "0" + x[if |x| < 1 then |x| else 1..];
        }
      }
    }
    JoinAvoids(b, 'E', 'e');
    Join(b, 'E')
  }

  /** On `m + 'e' + sign + digits` the result is `m + 'E' + sign + '0' + digits`. */
  lemma ExponentPadding(m: string, sign: char, digits: string)
    requires 'e' !in m && sign != 'e' && 'e' !in digits
    ensures SciNotFormat(m + "e" + [sign] + digits) == m + "E" + [sign] + "0" + digits
  {
    var s := m + "e" + [sign] + digits;
    var rest := [sign] + digits;
    assert s == m + ("e" + rest);
    SplitPrefix(m, "e" + rest, 'e');
    assert ("e" + rest)[0] == 'e' && ("e" + rest)[1..] == rest;
    SplitPrefix(rest, [], 'e');
    assert rest + [] == rest;
    var a := Split(s, 'e');
    assert a == [m + [], rest];
    assert m + [] == m;
    assert PadExponent(rest) == [sign] + "0" + digits;
    var b := a[1 := PadExponent(a[1])];
    assert b == [m, [sign] + "0" + digits];
    assert Join(b, 'E') == m + ['E'] + ([sign] + "0" + digits);
  }

  /** For a `%.5e` rendering the mantissa is kept, the exponent gains one digit (two become the three
      places of the documented format, three become four), and the text stays free of tabs and
      line breaks. */
  lemma PercentEFormatted(s: string)
    requires IsPercentE(s)
    ensures var a := Split(s, 'e');
      var r := SciNotFormat(s);
      s == a[0] + "e" + a[1] &&
      r == a[0] + "E" + [a[1][0]] + "0" + a[1][1..] &&
      |r| - |a[0]| - 2 == |a[1]| &&
      '\t' !in r && '\n' !in r
  {
    var a := Split(s, 'e');
    PercentEParts(s);
    var m, x := a[0], a[1];
    PaddedForm(m, x);
    var r := SciNotFormat(s);
    MantissaClean(m);
    ExponentClean(x);
    assert r == m + ("E" + [x[0]] + "0" + x[1..]);
  }

  /** A `%.5e` text is its mantissa, an `e` and its exponent, none of which holds another `e`. */
  lemma PercentEParts(s: string)
    requires IsPercentE(s)
    ensures var a := Split(s, 'e');
      |a| == 2 && s == a[0] + "e" + a[1] && 'e' !in a[0] && 'e' !in a[1] && |a[1]| >= 1
  {
    var a := Split(s, 'e');
    SplitJoin(s, 'e');
    assert Join(a, 'e') == a[0] + "e" + a[1];
  }

  /** `sci_not_format`'s value on a mantissa, an `e` and an exponent. */
  lemma PaddedForm(m: string, x: string)
    requires 'e' !in m && 'e' !in x && |x| >= 1
    ensures SciNotFormat(m + "e" + x) == m + "E" + [x[0]] + "0" + x[1..]
  {
    assert x == [x[0]] + x[1..];
    assert 'e' !in x[1..];
    assert m + "e" + x == m + "e" + [x[0]] + x[1..];
    ExponentPadding(m, x[0], x[1..]);
  }

  /** A `%.5e` mantissa holds no tab or line break. */
  lemma MantissaClean(m: string)
    requires IsMantissa(m)
    ensures '\t' !in m && '\n' !in m
  {
    var d := Unsigned(m);
    var neg := |m| > 0 && m[0] == '-';
    forall i | 0 <= i < |m| ensures m[i] != '\t' && m[i] != '\n' {
      if !neg || i > 0 {
        var j := if neg then i - 1 else i;
        assert d[j] == m[i];
        if j >= 2 { assert IsDigit(d[j]); }
      }
    }
  }

  /** A `%.5e` exponent holds no tab or line break. */
  lemma ExponentClean(x: string)
    requires IsExponent(x)
    ensures '\t' !in x && '\n' !in x
  {
    forall i | 0 <= i < |x| ensures x[i] != '\t' && x[i] != '\n' {
      if i > 0 { assert IsDigit(x[i]); }
    }
  }
}
