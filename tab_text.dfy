/** Python's `str.split(sep)` and `sep.join(parts)` for a one-character separator,
    substring tests (`t in s`) and character counting. */
module TabText {

  /** Number of occurrences of `c` in `s`. */
  function Count(s: string, c: char): (n: nat)
    ensures n <= |s|
    ensures n == 0 <==> c !in s
  {
    if s == [] then 0 else (if s[0] == c then 1 else 0) + Count(s[1..], c)
  }

  lemma {:induction false} CountConcat(a: string, b: string, c: char)
    ensures Count(a + b, c) == Count(a, c) + Count(b, c)
  {
    if a != [] {
      assert (a + b)[1..] == a[1..] + b;
      CountConcat(a[1..], b, c);
    } else {
      assert a + b == b;
    }
  }

  /** `s.split(sep)`: the pieces between occurrences of `sep`; `"".split(sep) == [""]`. */
  function Split(s: string, sep: char): (parts: seq<string>)
    ensures |parts| >= 1
    ensures forall i :: 0 <= i < |parts| ==> sep !in parts[i]
    decreases |s|
  {
    if s == [] then [[]]
    else
      var rest := Split(s[1..], sep);
      if s[0] == sep then [[]] + rest
      else [[s[0]] + rest[0]] + rest[1..]
  }

  /** A split has one more piece than the text has separators. */
  lemma {:induction false} SplitPieces(s: string, sep: char)
    ensures |Split(s, sep)| == Count(s, sep) + 1
    decreases |s|
  {
    if s != [] {
      SplitPieces(s[1..], sep);
    }
  }

  /** `sep.join(parts)`. */
  function Join(parts: seq<string>, sep: char): string
  {
    if parts == [] then []
    else if |parts| == 1 then parts[0]
    else parts[0] + [sep] + Join(parts[1..], sep)
  }

  /** Joining the pieces of a split gives back the original text. */
  lemma {:induction false} SplitJoin(s: string, sep: char)
    ensures Join(Split(s, sep), sep) == s
    decreases |s|
  {
    if s != [] {
      var rest := Split(s[1..], sep);
      SplitJoin(s[1..], sep);
      if s[0] == sep {
        assert Split(s, sep) == [[]] + rest;
        assert ([[]] + rest)[1..] == rest;
      } else {
        var parts := Split(s, sep);
        assert parts == [[s[0]] + rest[0]] + rest[1..];
        if |rest| == 1 {
          assert Join(rest, sep) == rest[0];
        } else {
          assert parts[1..] == rest[1..];
          assert Join(rest, sep) == rest[0] + [sep] + Join(rest[1..], sep);
        }
      }
    }
  }

  /** Splitting a text that begins with a separator-free prefix `f`: `f` is glued to the first piece. */
  lemma {:induction false} SplitPrefix(f: string, rest: string, sep: char)
    requires sep !in f
    ensures Split(f + rest, sep) == [f + Split(rest, sep)[0]] + Split(rest, sep)[1..]
    decreases |f|
  {
    if f != [] {
      assert (f + rest)[0] == f[0];
      assert (f + rest)[1..] == f[1..] + rest;
      SplitPrefix(f[1..], rest, sep);
      assert [f[0]] + (f[1..] + Split(rest, sep)[0]) == f + Split(rest, sep)[0];
    } else {
      var p := Split(rest, sep);
      assert f + rest == rest;
      assert [] + p[0] == p[0];
      assert [p[0]] + p[1..] == p;
    }
  }

  /** A text that starts with the separator splits into an empty piece and the pieces of the rest. */
  lemma SplitAfterSeparator(s: string, sep: char)
    ensures Split([sep] + s, sep) == [[]] + Split(s, sep)
  {
    assert ([sep] + s)[1..] == s;
  }

  /** Splitting after appending a non-separator character: it lands at the end of the last piece. */
  lemma {:induction false} SplitAppend(s: string, c: char, sep: char)
    requires c != sep
    ensures var p := Split(s, sep);
      Split(s + [c], sep) == p[..|p| - 1] + [p[|p| - 1] + [c]]
    decreases |s|
  {
    if s == [] {
      assert s + [c] == [c];
      assert Split(s, sep) == [[]];
      assert Split([c], sep) == [[c] + []];
      assert [c] + [] == [] + [c];
    } else {
      assert (s + [c])[0] == s[0];
      assert (s + [c])[1..] == s[1..] + [c];
      SplitAppend(s[1..], c, sep);
      var q := Split(s[1..], sep);
      if s[0] == sep {
        assert Split(s, sep) == [[]] + q;
        assert Split(s + [c], sep) == [[]] + Split(s[1..] + [c], sep);
        AppendAfterSeparator(q, c);
      } else {
        assert Split(s, sep) == [[s[0]] + q[0]] + q[1..];
        assert Split(s + [c], sep) == [[s[0]] + Split(s[1..] + [c], sep)[0]] + Split(s[1..] + [c], sep)[1..];
        AppendAfterPiece(q, s[0], c);
      }
    }
  }

  lemma AppendAfterSeparator(q: seq<string>, c: char)
    requires |q| >= 1
    ensures var p := [[]] + q;
      [[]] + (q[..|q| - 1] + [q[|q| - 1] + [c]]) == p[..|p| - 1] + [p[|p| - 1] + [c]]
  {
    var p := [[]] + q;
    assert p[..|p| - 1] == [[]] + q[..|q| - 1];
  }

  lemma AppendAfterPiece(q: seq<string>, x: char, c: char)
    requires |q| >= 1
    ensures var r := q[..|q| - 1] + [q[|q| - 1] + [c]];
      var p := [[x] + q[0]] + q[1..];
      [[x] + r[0]] + r[1..] == p[..|p| - 1] + [p[|p| - 1] + [c]]
  {
    var r := q[..|q| - 1] + [q[|q| - 1] + [c]];
    var p := [[x] + q[0]] + q[1..];
    if |q| == 1 {
      assert r == [q[0] + [c]];
      assert [x] + (q[0] + [c]) == ([x] + q[0]) + [c];
    } else {
      assert r[0] == q[0];
      assert r[1..] == q[1..|q| - 1] + [q[|q| - 1] + [c]];
      assert p[..|p| - 1] == [[x] + q[0]] + q[1..|q| - 1];
    }
  }

  /** Splitting a join of separator-free pieces gives back the pieces. */
  lemma {:induction false} JoinSplit(parts: seq<string>, sep: char)
    requires |parts| >= 1
    requires forall i :: 0 <= i < |parts| ==> sep !in parts[i]
    ensures Split(Join(parts, sep), sep) == parts
    decreases |parts|
  {
    if |parts| == 1 {
      SplitPrefix(parts[0], [], sep);
      assert parts[0] + [] == parts[0];
    } else {
      var tail := Join(parts[1..], sep);
      JoinSplit(parts[1..], sep);
      assert Join(parts, sep) == parts[0] + ([sep] + tail);
      SplitPrefix(parts[0], [sep] + tail, sep);
      assert ([sep] + tail)[1..] == tail;
      assert Split([sep] + tail, sep) == [[]] + parts[1..];
      assert parts[0] + [] == parts[0];
    }
  }

  /** Total length of the pieces. */
  function SumLen(parts: seq<string>): nat
  {
    if parts == [] then 0 else |parts[0]| + SumLen(parts[1..])
  }

  /** A join is as long as its pieces plus one separator between each two of them. */
  lemma {:induction false} JoinLength(parts: seq<string>, sep: char)
    requires |parts| >= 1
    ensures |Join(parts, sep)| == SumLen(parts) + |parts| - 1
    decreases |parts|
  {
    if |parts| > 1 {
      JoinLength(parts[1..], sep);
    }
  }

  /** Replacing one piece changes the total length by the difference of the two lengths. */
  lemma {:induction false} SumLenUpdate(parts: seq<string>, i: nat, x: string)
    requires i < |parts|
    ensures SumLen(parts[i := x]) == SumLen(parts) - |parts[i]| + |x|
    decreases |parts|
  {
    if i > 0 {
      assert parts[i := x][1..] == parts[1..][i - 1 := x];
      SumLenUpdate(parts[1..], i - 1, x);
    } else {
      assert parts[i := x][1..] == parts[1..];
    }
  }

  /** A character that is neither the separator nor in any piece is not in the join. */
  lemma {:induction false} JoinAvoids(parts: seq<string>, sep: char, c: char)
    requires c != sep
    requires forall i :: 0 <= i < |parts| ==> c !in parts[i]
    ensures c !in Join(parts, sep)
    decreases |parts|
  {
    if |parts| > 1 {
      JoinAvoids(parts[1..], sep, c);
    }
  }

  /** Python's `t in s` for strings: `t` occurs in `s` as a contiguous substring. */
  predicate Contains(s: string, t: string)
    decreases |s|
  {
    |t| <= |s| && (s[..|t|] == t || Contains(s[1..], t))
  }

  /** `t` occurs in `s` starting at index `i`. */
  predicate OccursAt(s: string, t: string, i: nat)
  {
    i + |t| <= |s| && s[i..i + |t|] == t
  }

  /** `Contains` is substring search: `t in s` holds exactly when `t` occurs at some index of `s`. */
  lemma {:induction false} ContainsOccurs(s: string, t: string)
    ensures Contains(s, t) <==> exists i: nat :: OccursAt(s, t, i)
    decreases |s|
  {
    if s == [] {
      if t == [] {
        assert OccursAt(s, t, 0);
      }
    } else if |t| <= |s| {
      ContainsOccurs(s[1..], t);
      if Contains(s, t) {
        if s[..|t|] == t {
          assert OccursAt(s, t, 0);
        } else {
          var j: nat :| OccursAt(s[1..], t, j);
          assert s[1..][j..j + |t|] == s[j + 1..j + 1 + |t|];
          assert OccursAt(s, t, j + 1);
        }
      }
      if exists i: nat :: OccursAt(s, t, i) {
        var i: nat :| OccursAt(s, t, i);
        if i > 0 {
          assert s[1..][i - 1..i - 1 + |t|] == s[i..i + |t|];
          assert OccursAt(s[1..], t, i - 1);
        }
      }
    }
  }
}
