/** The gate of the line handler: only lines that `re.match` accepts against
    `(\t[^\t\n\r\f\v]+){8,}\n` are written out; everything else (the file's header block,
    blank lines, short rows) is dropped. */
module LineGate {
  import opened TabText

  const FormFeed: char := '\U{000C}'
  const VerticalTab: char := '\U{000B}'

  /** The regex class `[^\t\n\r\f\v]`. */
  predicate FieldChar(c: char)
  {
    c != '\t' && c != '\n' && c != '\r' && c != FormFeed && c != VerticalTab
  }

  /** One or more field characters. */
  predicate IsField(f: string)
  {
    |f| > 0 && forall i :: 0 <= i < |f| ==> FieldChar(f[i])
  }

  predicate AllFields(fs: seq<string>)
  {
    forall i :: 0 <= i < |fs| ==> IsField(fs[i])
  }

  /** Length of the longest prefix of `s` made of field characters. */
  function FieldRun(s: string): (n: nat)
    ensures n <= |s|
    ensures forall i :: 0 <= i < n ==> FieldChar(s[i])
    ensures n < |s| ==> !FieldChar(s[n])
  {
    if s == [] || !FieldChar(s[0]) then 0 else 1 + FieldRun(s[1..])
  }

  /** The regex matched at the start of `s` when `reps` repetitions of the group are already behind.
      A field never contains the tab or line break that must follow it, so the greedy field run is
      the only one that can lead to a match and no backtracking is needed. */
  predicate MatchesFrom(s: string, reps: nat)
    decreases |s|
  {
    if s == [] then false
    else if s[0] == '\n' then reps >= 8
    else if s[0] != '\t' then false
    else
      var n := FieldRun(s[1..]);
      n > 0 && MatchesFrom(s[1 + n..], reps + 1)
  }

  /** `re.match(r'(\t[^\t\n\r\f\v]+){8,}\n', line) is not None`: anchored at the start only. */
  predicate Matches(line: string)
  {
    MatchesFrom(line, 0)
  }

  /** A line as iterating over a text file yields it: a line break, if any, only at its end. */
  predicate SingleLine(line: string)
  {
    forall i :: 0 <= i < |line| - 1 ==> line[i] != '\n'
  }

  /** The fields of a line `'\t' f1 '\t' ... '\t' fn '\n'`. */
  function Fields(line: string): seq<string>
    requires 2 <= |line|
  {
    Split(line[1..|line| - 1], '\t')
  }

  /** A data row: a tab, at least eight fields separated by tabs, and a final line break. */
  predicate DataRow(line: string)
  {
    |line| >= 2 && line[0] == '\t' && line[|line| - 1] == '\n' &&
    var fs := Fields(line);
    |fs| >= 8 && AllFields(fs)
  }

  /** Without a line break the regex never matches. */
  lemma {:induction false} NoBreakNoMatch(s: string, reps: nat)
    requires '\n' !in s
    ensures !MatchesFrom(s, reps)
    decreases |s|
  {
    if s != [] && s[0] == '\t' {
      var n := FieldRun(s[1..]);
      assert s[1 + n..] == s[1..][n..];
      NoBreakNoMatch(s[1 + n..], reps + 1);
    }
  }

  /** What the gate demands of a line's text before its final line break, `reps` repetitions of
      the group being already behind. */
  predicate RowBody(s: string, reps: nat)
  {
    (s == [] && reps >= 8) ||
    (|s| > 0 && s[0] == '\t' && reps + |Split(s[1..], '\t')| >= 8 && AllFields(Split(s[1..], '\t')))
  }

  /** The scanner on `s + "\n"`, for `s` free of line breaks, against the split of `s` on tabs. */
  lemma {:induction false} MatchesBody(s: string, reps: nat)
    requires '\n' !in s
    ensures MatchesFrom(s + "\n", reps) <==> RowBody(s, reps)
    decreases |s|
  {
    if s == [] {
      assert s + "\n" == "\n";
    } else if s[0] == '\t' {
      var n := ScanStep(s, reps);
      var rest := s[1..][n..];
      if rest == [] {
        LastField(s, reps, n);
      } else if rest[0] == '\t' {
        assert forall c :: c in rest ==> c in s;
        MatchesBody(rest, reps + 1);
        NextField(s, reps, n);
      } else {
        assert rest[0] in s;
        StrayChar(s, reps, n);
      }
    } else {
      assert (s + "\n")[0] == s[0];
    }
  }

  /** The case where the field run reaches the line break. */
  lemma LastField(s: string, reps: nat, n: nat)
    requires |s| > 0 && s[0] == '\t' && n == |s| - 1
    requires forall i :: 0 <= i < n ==> FieldChar(s[1..][i])
    requires MatchesFrom(s + "\n", reps) <==> n > 0 && MatchesFrom(s[1..][n..] + "\n", reps + 1)
    ensures MatchesFrom(s + "\n", reps) <==> RowBody(s, reps)
  {
    var t := s[1..];
    assert t[n..] + "\n" == "\n";
    SplitPrefix(t, [], '\t');
    assert t + [] == t;
    assert Split(t, '\t') == [t];
  }

  /** The case where the field run stops at a tab: the rest of the line is scanned from there. */
  lemma NextField(s: string, reps: nat, n: nat)
    requires |s| > 0 && s[0] == '\t' && n < |s| - 1 && s[1..][n] == '\t'
    requires forall i :: 0 <= i < n ==> FieldChar(s[1..][i])
    requires MatchesFrom(s + "\n", reps) <==> n > 0 && MatchesFrom(s[1..][n..] + "\n", reps + 1)
    requires var t := s[1..];
      Split(t, '\t') == [t[..n] + Split(t[n..], '\t')[0]] + Split(t[n..], '\t')[1..]
    requires MatchesFrom(s[1..][n..] + "\n", reps + 1) <==> RowBody(s[1..][n..], reps + 1)
    ensures MatchesFrom(s + "\n", reps) <==> RowBody(s, reps)
  {
    var t := s[1..];
    FieldThenTab(t[..n], t[n..]);
  }

  /** The case where the field run stops at a character that is neither a tab nor a line break. */
  lemma StrayChar(s: string, reps: nat, n: nat)
    requires |s| > 0 && s[0] == '\t' && n < |s| - 1
    requires s[1..][n] != '\t' && s[1..][n] != '\n' && !FieldChar(s[1..][n])
    requires MatchesFrom(s + "\n", reps) <==> n > 0 && MatchesFrom(s[1..][n..] + "\n", reps + 1)
    requires var t := s[1..];
      Split(t, '\t') == [t[..n] + Split(t[n..], '\t')[0]] + Split(t[n..], '\t')[1..]
    ensures !MatchesFrom(s + "\n", reps) && !RowBody(s, reps)
  {
    var t := s[1..];
    FieldThenOther(t[..n], t[n..], reps);
    assert !IsField(Split(t, '\t')[0]);
  }

  /** One step of the scanner on a line that starts with a tab: it consumes the field run `f`
      that the split of the line's tail starts its first piece with. */
  lemma ScanStep(s: string, reps: nat) returns (n: nat)
    requires |s| > 0 && s[0] == '\t' && '\n' !in s
    ensures n <= |s| - 1
    ensures n == FieldRun(s[1..] + "\n")
    ensures forall i :: 0 <= i < n ==> FieldChar(s[1..][i])
    ensures n < |s| - 1 ==> !FieldChar(s[1..][n])
    ensures MatchesFrom(s + "\n", reps) <==> n > 0 && MatchesFrom(s[1..][n..] + "\n", reps + 1)
    ensures var t := s[1..];
      Split(t, '\t') == [t[..n] + Split(t[n..], '\t')[0]] + Split(t[n..], '\t')[1..]
  {
    var t := s[1..];
    assert s + "\n" == "\t" + t + "\n";
    n := ScanTab(t, reps);
    var f, rest := t[..n], t[n..];
    assert t == f + rest;
    assert forall i :: 0 <= i < |f| ==> f[i] == (t + "\n")[i];
    assert '\t' !in f;
    SplitPrefix(f, rest, '\t');
  }

  /** The scanner on a tab followed by `t` and a line break consumes the field run of `t`, which
      stops before the line break. */
  lemma ScanTab(t: string, reps: nat) returns (n: nat)
    requires '\n' !in t
    ensures n <= |t| && n == FieldRun(t + "\n")
    ensures forall i :: 0 <= i < n ==> FieldChar(t[i])
    ensures n < |t| ==> !FieldChar(t[n])
    ensures MatchesFrom("\t" + t + "\n", reps) <==> n > 0 && MatchesFrom(t[n..] + "\n", reps + 1)
  {
    var line := "\t" + t + "\n";
    var u := t + "\n";
    assert line[0] == '\t' && line[1..] == u;
    n := FieldRun(u);
    assert u[|t|] == '\n';
    assert forall i :: 0 <= i < n ==> u[i] == t[i];
    assert line[1 + n..] == t[n..] + "\n";
  }

  /** A field followed by a tab: the split is the field, then the split after the tab. */
  lemma FieldThenTab(f: string, rest: string)
    requires |rest| > 0 && rest[0] == '\t'
    requires forall i :: 0 <= i < |f| ==> FieldChar(f[i])
    ensures var parts := [f + Split(rest, '\t')[0]] + Split(rest, '\t')[1..];
      var more := Split(rest[1..], '\t');
      parts == [f] + more &&
      (AllFields(parts) <==> |f| > 0 && AllFields(more))
  {
    var more := Split(rest[1..], '\t');
    var pieces := Split(rest, '\t');
    assert pieces == [[]] + more;
    assert pieces[0] == [] && pieces[1..] == more;
    assert f + [] == f;
    AllFieldsCons(f, more);
  }

  /** A list of pieces headed by `f` is all fields exactly when `f` and the rest are. */
  lemma AllFieldsCons(f: string, more: seq<string>)
    ensures AllFields([f] + more) <==> IsField(f) && AllFields(more)
  {
    var parts := [f] + more;
    if AllFields(parts) {
      assert IsField(parts[0]);
      forall i | 0 <= i < |more| ensures IsField(more[i]) {
        assert more[i] == parts[i + 1];
      }
    }
    if IsField(f) && AllFields(more) {
      forall i | 0 <= i < |parts| ensures IsField(parts[i]) {
        if i > 0 { assert parts[i] == more[i - 1]; }
      }
    }
  }

  /** A field run stopped by a character that is neither a tab nor a line break: the scanner
      stops, and the first piece of the split holds that character, so it is not a field. */
  lemma FieldThenOther(f: string, rest: string, reps: nat)
    requires |rest| > 0 && rest[0] != '\t' && rest[0] != '\n' && !FieldChar(rest[0])
    ensures !MatchesFrom(rest + "\n", reps)
    ensures !IsField(f + Split(rest, '\t')[0])
  {
    assert (rest + "\n")[0] == rest[0];
    var q := Split(rest[1..], '\t');
    assert Split(rest, '\t')[0] == [rest[0]] + q[0];
    assert (f + Split(rest, '\t')[0])[|f|] == rest[0];
  }

  /** For a line as file iteration yields it, the regex gate accepts exactly the data rows. */
  lemma Gate(line: string)
    requires SingleLine(line)
    ensures Matches(line) <==> DataRow(line)
  {
    if line == [] || line[|line| - 1] != '\n' {
      assert '\n' !in line;
      NoBreakNoMatch(line, 0);
    } else {
      var body := line[..|line| - 1];
      assert line == body + "\n";
      MatchesBody(body, 0);
      if |body| > 0 {
        assert body[1..] == line[1..|line| - 1];
      }
    }
  }

  /** Every row of at least eight fields passes the gate and gives its fields back. */
  lemma DataRowOfFields(fs: seq<string>)
    requires |fs| >= 8 && AllFields(fs)
    ensures var line := "\t" + Join(fs, '\t') + "\n";
      SingleLine(line) && Matches(line) && Fields(line) == fs
  {
    var body := Join(fs, '\t');
    var line := "\t" + body + "\n";
    forall i | 0 <= i < |fs| ensures '\t' !in fs[i] && '\n' !in fs[i] {
      assert IsField(fs[i]);
    }
    JoinSplit(fs, '\t');
    JoinAvoids(fs, '\t', '\n');
    assert line[1..|line| - 1] == body;
    assert SingleLine(line) by {
      forall i | 0 <= i < |line| - 1 ensures line[i] != '\n' {
        if i > 0 { assert line[i] == body[i - 1]; }
      }
    }
    Gate(line);
  }

  /** A line framed as a data row (a tab in front, a line break at the end) is rebuilt from its
      fields, and its split on tabs is an empty piece, the fields, and the line break stuck to the
      last field. */
  lemma DataRowSplit(line: string)
    requires |line| >= 2 && line[0] == '\t' && line[|line| - 1] == '\n'
    ensures line == "\t" + Join(Fields(line), '\t') + "\n"
    ensures var fs := Fields(line);
      Split(line, '\t') == [[]] + fs[..|fs| - 1] + [fs[|fs| - 1] + "\n"]
  {
    var body := line[1..|line| - 1];
    SplitJoin(body, '\t');
    assert line == "\t" + body + "\n";
    FramedSplit(body);
  }

  /** The split of a tab, a body and a line break. */
  lemma FramedSplit(body: string)
    ensures var fs := Split(body, '\t');
      Split("\t" + body + "\n", '\t') == [[]] + fs[..|fs| - 1] + [fs[|fs| - 1] + "\n"]
  {
    var fs := Split(body, '\t');
    var tail := body + ['\n'];
    assert "\t" + body + "\n" == ['\t'] + tail;
    SplitAfterSeparator(tail, '\t');
    SplitAppend(body, '\n', '\t');
    var init, last := fs[..|fs| - 1], [fs[|fs| - 1] + "\n"];
    assert [[]] + (init + last) == [[]] + init + last;
  }
}
