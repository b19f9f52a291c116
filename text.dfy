/** The string operations the scripts call: substring test (`sub in s`),
    `sep.join(xs)`, `s.split(sep)`, `s.replace(old, new)`, `re.sub(' +', ' ', s)`
    and `str(n)` for a natural number. */
module Text {

  /** `sub` occurs in `s` starting at index `i`. */
  predicate OccursAt(s: string, sub: string, i: int)
  {
    0 <= i <= |s| - |sub| && s[i..i + |sub|] == sub
  }

  /** `sub in s` for strings: `sub` occurs as a contiguous substring. */
  predicate Contains(s: string, sub: string)
  {
    exists i | 0 <= i <= |s| - |sub| :: OccursAt(s, sub, i)
  }

  /** Wrapping a string in double quotes neither creates nor hides an
      occurrence of a non-empty pattern that has no double quote in it. */
  lemma QuotingKeepsOccurrences(s: string, sub: string)
    requires |sub| > 0 && '"' !in sub
    ensures Contains("\"" + s + "\"", sub) <==> Contains(s, sub)
  {
    if Contains(s, sub) {
      var i :| 0 <= i <= |s| - |sub| && OccursAt(s, sub, i);
      QuotedOccurrence(s, sub, i);
    }
    if Contains("\"" + s + "\"", sub) {
      var i :| 0 <= i <= |s| + 2 - |sub| && OccursAt("\"" + s + "\"", sub, i);
      UnquotedOccurrence(s, sub, i);
    }
  }

  lemma QuotedOccurrence(s: string, sub: string, i: int)
    requires OccursAt(s, sub, i)
    ensures OccursAt("\"" + s + "\"", sub, i + 1)
  {
    var q := "\"" + s + "\"";
    forall k | 0 <= k < |sub|
      ensures q[i + 1 + k] == sub[k]
    {
      assert q[i + 1 + k] == s[i + k];
    }
    assert q[i + 1..i + 1 + |sub|] == sub;
  }

  lemma UnquotedOccurrence(s: string, sub: string, i: int)
    requires |sub| > 0 && '"' !in sub
    requires OccursAt("\"" + s + "\"", sub, i)
    ensures OccursAt(s, sub, i - 1)
  {
    var q := "\"" + s + "\"";
    assert q[i] == sub[0];
    assert q[i + |sub| - 1] == sub[|sub| - 1];
    assert i != 0 by { assert q[0] == '"'; }
    assert i + |sub| != |q| by { assert q[|q| - 1] == '"'; }
    forall k | 0 <= k < |sub|
      ensures s[i - 1 + k] == sub[k]
    {
      assert q[i + k] == s[i - 1 + k];
    }
    assert s[i - 1..i - 1 + |sub|] == sub;
  }

  // ---------------------------------------------------------------------------
  // Join and split on a one-character separator.

  /** `sep.join(xs)`. */
  function Join(xs: seq<string>, sep: char): string
  {
    if xs == [] then "" else if |xs| == 1 then xs[0] else xs[0] + [sep] + Join(xs[1..], sep)
  }

  /** `s.split(sep)`: the pieces between separators; always at least one. */
  function Split(s: string, sep: char): (r: seq<string>)
    ensures |r| >= 1
  {
    if s == [] then [""]
    else
      var rest := Split(s[1..], sep);
      if s[0] == sep then [""] + rest else [[s[0]] + rest[0]] + rest[1..]
  }

  /** Number of occurrences of `c` in `s`. */
  function Occurrences(s: string, c: char): nat
  {
    if s == [] then 0 else (if s[0] == c then 1 else 0) + Occurrences(s[1..], c)
  }

  lemma {:induction false} OccurrencesConcat(a: string, b: string, c: char)
    ensures Occurrences(a + b, c) == Occurrences(a, c) + Occurrences(b, c)
  {
    if a != [] {
      assert (a + b)[1..] == a[1..] + b;
      OccurrencesConcat(a[1..], b, c);
    } else {
      assert a + b == b;
    }
  }

  /** Splitting gives one more piece than there are separators, and no piece
      holds a separator. */
  lemma {:induction false} SplitPieces(s: string, sep: char)
    ensures |Split(s, sep)| == Occurrences(s, sep) + 1
    ensures forall i :: 0 <= i < |Split(s, sep)| ==> sep !in Split(s, sep)[i]
  {
    if s != [] {
      SplitPieces(s[1..], sep);
      var rest := Split(s[1..], sep);
      if s[0] != sep {
        assert forall i :: 1 <= i < |rest| ==> Split(s, sep)[i] == rest[i];
      }
    }
  }

  /** `sep.join(s.split(sep)) == s`. */
  lemma {:induction false} JoinSplit(s: string, sep: char)
    ensures Join(Split(s, sep), sep) == s
  {
    if s != [] {
      JoinSplit(s[1..], sep);
      var rest := Split(s[1..], sep);
      if s[0] == sep {
        assert Join([""] + rest, sep) == "" + [sep] + Join(rest, sep) by {
          assert ([""] + rest)[1..] == rest;
        }
      } else {
        JoinExtendsFirst(s[0], rest, sep);
        assert s == [s[0]] + s[1..];
      }
    }
  }

  /** Prefixing the first piece by `c` prefixes the join by `c`. */
  lemma JoinExtendsFirst(c: char, xs: seq<string>, sep: char)
    requires |xs| >= 1
    ensures Join([[c] + xs[0]] + xs[1..], sep) == [c] + Join(xs, sep)
  {
    var r := [[c] + xs[0]] + xs[1..];
    if |xs| > 1 {
      assert r[1..] == xs[1..];
      var tail := Join(xs[1..], sep);
      assert ([c] + xs[0]) + [sep] + tail == [c] + (xs[0] + [sep] + tail);
    }
  }

  /** `sep.join(xs).split(sep) == xs` when no element holds the separator:
      a joined column can be read back into its values. */
  lemma {:induction false} SplitJoin(xs: seq<string>, sep: char)
    requires |xs| >= 1
    requires forall i :: 0 <= i < |xs| ==> sep !in xs[i]
    ensures Split(Join(xs, sep), sep) == xs
  {
    if |xs| == 1 {
      SplitWithoutSeparator(xs[0], sep);
    } else {
      SplitJoin(xs[1..], sep);
      SplitAtSeparator(xs[0], Join(xs[1..], sep), sep);
      assert [xs[0]] + xs[1..] == xs;
    }
  }

  lemma {:induction false} SplitWithoutSeparator(a: string, sep: char)
    requires sep !in a
    ensures Split(a, sep) == [a]
  {
    if a != [] {
      SplitWithoutSeparator(a[1..], sep);
      assert [a[0]] + a[1..] == a;
    }
  }

  lemma {:induction false} SplitAtSeparator(a: string, t: string, sep: char)
    requires sep !in a
    ensures Split(a + [sep] + t, sep) == [a] + Split(t, sep)
  {
    if a == [] {
      assert a + [sep] + t == [sep] + t;
      assert ([sep] + t)[1..] == t;
    } else {
      SplitAtSeparator(a[1..], t, sep);
      assert (a + [sep] + t)[1..] == a[1..] + [sep] + t;
      assert [a[0]] + a[1..] == a;
    }
  }

  // ---------------------------------------------------------------------------
  // str.replace

  /** `s.replace(pat, rep)`: every non-overlapping occurrence of `pat`, found
      scanning left to right, is replaced by `rep`. A replacement as long as
      the pattern keeps the length. */
  function Replace(s: string, pat: string, rep: string): (r: string)
    requires |pat| > 0
    ensures |pat| == |rep| ==> |r| == |s|
    decreases |s|
  {
    if |s| < |pat| then s
    else if s[..|pat|] == pat then rep + Replace(s[|pat|..], pat, rep)
    else [s[0]] + Replace(s[1..], pat, rep)
  }

  /** Replacing a single character removes it, and every character of the
      result comes from the input or from the replacement. */
  lemma {:induction false} ReplaceChar(s: string, c: char, rep: string)
    requires c !in rep
    ensures c !in Replace(s, [c], rep)
    ensures forall ch :: ch in Replace(s, [c], rep) ==> ch in s || ch in rep
  {
    if |s| >= 1 {
      ReplaceChar(s[1..], c, rep);
    }
  }

  /** Replacing one character by one character acts position by position. */
  lemma {:induction false} ReplaceCharPointwise(s: string, c: char, d: char)
    ensures |Replace(s, [c], [d])| == |s|
    ensures forall i :: 0 <= i < |s| ==> Replace(s, [c], [d])[i] == if s[i] == c then d else s[i]
  {
    if |s| >= 1 {
      ReplaceCharPointwise(s[1..], c, d);
      assert s[..1] == [s[0]];
    }
  }

  /** A string in which the character does not occur is left unchanged. */
  lemma {:induction false} ReplaceAbsentChar(s: string, c: char, rep: string)
    requires c !in s
    ensures Replace(s, [c], rep) == s
  {
    if |s| >= 1 {
      ReplaceAbsentChar(s[1..], c, rep);
      assert [s[0]] + s[1..] == s;
    }
  }

  /** A string in which the pattern's first character does not occur is
      left unchanged. */
  lemma {:induction false} ReplaceAbsentPattern(s: string, pat: string, rep: string)
    requires |pat| > 0 && pat[0] !in s
    ensures Replace(s, pat, rep) == s
    decreases |s|
  {
    if |s| >= |pat| {
      assert s[..|pat|][0] != pat[0];
      ReplaceAbsentPattern(s[1..], pat, rep);
      assert [s[0]] + s[1..] == s;
    }
  }

  /** With a two-character pattern, a match cannot straddle the boundary
      between `a` and `b` when `a` does not end with the pattern's first
      character: the two parts are rewritten independently. */
  lemma {:induction false} ReplaceConcat(a: string, b: string, pat: string, rep: string)
    requires |pat| == 2 && (a == [] || a[|a| - 1] != pat[0])
    ensures Replace(a + b, pat, rep) == Replace(a, pat, rep) + Replace(b, pat, rep)
    decreases |a|
  {
    if a == [] {
      assert a + b == b;
    } else if |a| == 1 {
      ReplaceConcatSingle(a, b, pat, rep);
    } else if a[..2] == pat {
      ReplaceConcat(a[2..], b, pat, rep);
      ReplaceConcatMatch(a, b, pat, rep);
    } else {
      ReplaceConcat(a[1..], b, pat, rep);
      ReplaceConcatSkip(a, b, pat, rep);
    }
  }

  lemma ReplaceConcatMatch(a: string, b: string, pat: string, rep: string)
    requires |pat| == 2 && |a| >= 2 && a[..2] == pat
    ensures Replace(a + b, pat, rep) == rep + Replace(a[2..] + b, pat, rep)
    ensures Replace(a, pat, rep) == rep + Replace(a[2..], pat, rep)
  {
    assert (a + b)[..2] == pat && (a + b)[2..] == a[2..] + b;
  }

  lemma ReplaceConcatSkip(a: string, b: string, pat: string, rep: string)
    requires |pat| == 2 && |a| >= 2 && a[..2] != pat
    ensures Replace(a + b, pat, rep) == [a[0]] + Replace(a[1..] + b, pat, rep)
    ensures Replace(a, pat, rep) == [a[0]] + Replace(a[1..], pat, rep)
  {
    assert (a + b)[..2] == a[..2] && (a + b)[1..] == a[1..] + b;
  }

  lemma ReplaceConcatSingle(a: string, b: string, pat: string, rep: string)
    requires |pat| == 2 && |a| == 1 && a[0] != pat[0]
    ensures Replace(a + b, pat, rep) == a + Replace(b, pat, rep)
  {
    var s := a + b;
    if |s| >= 2 {
      assert s[..2] != pat by { assert s[..2][0] == a[0]; }
      assert s[1..] == b;
    }
  }

  /** Replacing the pair `a b` by `a c` (three distinct characters) leaves no
      `a b` pair in the result; the first character is kept. */
  lemma {:induction false} ReplacePairRemovesPair(s: string, a: char, b: char, c: char)
    requires a != b && b != c && a != c
    ensures |Replace(s, [a, b], [a, c])| == |s|
    ensures |s| > 0 ==> Replace(s, [a, b], [a, c])[0] == s[0]
    ensures forall i :: 0 <= i < |s| - 1 ==>
      !(Replace(s, [a, b], [a, c])[i] == a && Replace(s, [a, b], [a, c])[i + 1] == b)
    decreases |s|
  {
    var r := Replace(s, [a, b], [a, c]);
    if |s| >= 2 {
      if s[..2] == [a, b] {
        ReplacePairRemovesPair(s[2..], a, b, c);
        var t := Replace(s[2..], [a, b], [a, c]);
        assert r == [a, c] + t;
        forall i | 0 <= i < |s| - 1
          ensures !(r[i] == a && r[i + 1] == b)
        {
          if i >= 2 {
            assert r[i] == t[i - 2] && r[i + 1] == t[i - 1];
          }
        }
      } else {
        ReplacePairRemovesPair(s[1..], a, b, c);
        var t := Replace(s[1..], [a, b], [a, c]);
        assert r == [s[0]] + t;
        forall i | 0 <= i < |s| - 1
          ensures !(r[i] == a && r[i + 1] == b)
        {
          if i == 0 {
            assert r[1] == t[0] == s[1];
            assert s[..2] == [s[0], s[1]];
          } else {
            assert r[i] == t[i - 1] && r[i + 1] == t[i];
          }
        }
      }
    }
  }

  // ---------------------------------------------------------------------------
  // Whitespace normalisation of free text.

  /** `re.sub(' +', ' ', s)`: every run of spaces becomes a single space. A
      space is dropped exactly when the next character is a space too. */
  function CollapseSpaces(s: string): (r: string)
    ensures |s| > 0 ==> |r| > 0 && r[0] == s[0]
    ensures forall i :: 0 <= i < |r| - 1 ==> !(r[i] == ' ' && r[i + 1] == ' ')
    ensures forall ch :: ch in r ==> ch in s
  {
    if |s| < 2 then s
    else if s[0] == ' ' && s[1] == ' ' then CollapseSpaces(s[1..])
    else [s[0]] + CollapseSpaces(s[1..])
  }

  /** The characters of `s` other than spaces, in order. */
  function NonSpaces(s: string): string
  {
    if s == [] then [] else (if s[0] == ' ' then [] else [s[0]]) + NonSpaces(s[1..])
  }

  /** Collapsing removes spaces only: every other character survives, in order. */
  lemma {:induction false} CollapseKeepsNonSpaces(s: string)
    ensures NonSpaces(CollapseSpaces(s)) == NonSpaces(s)
  {
    if |s| >= 2 {
      CollapseKeepsNonSpaces(s[1..]);
      if !(s[0] == ' ' && s[1] == ' ') {
        assert ([s[0]] + CollapseSpaces(s[1..]))[1..] == CollapseSpaces(s[1..]);
      }
    }
  }

  /** A string without two consecutive spaces is left unchanged. */
  lemma {:induction false} CollapseWithoutDoubleSpace(s: string)
    requires forall i :: 0 <= i < |s| - 1 ==> !(s[i] == ' ' && s[i + 1] == ' ')
    ensures CollapseSpaces(s) == s
  {
    if |s| >= 2 {
      CollapseWithoutDoubleSpace(s[1..]);
      assert [s[0]] + s[1..] == s;
    }
  }

  /** Dropping one space of a run of two or more does not change the result:
      with `CollapseWithoutDoubleSpace`, this determines the collapse as
      replacing every run of spaces by a single space. */
  lemma {:induction false} CollapseDropsRun(s: string, i: nat)
    requires i + 1 < |s| && s[i] == ' ' && s[i + 1] == ' '
    ensures CollapseSpaces(s) == CollapseSpaces(s[..i] + s[i + 1..])
  {
    var t := s[..i] + s[i + 1..];
    if i == 0 {
      assert t == s[1..];
    } else {
      var u := s[1..];
      var t' := u[..i - 1] + u[i..];
      CollapseDropsRun(u, i - 1);
      assert t[1..] == t' by {
        assert s[..i] == [s[0]] + u[..i - 1];
        assert s[i + 1..] == u[i..];
      }
      assert t[0] == s[0] && t[1] == s[1];
      if s[0] == ' ' && s[1] == ' ' {
        assert CollapseSpaces(s) == CollapseSpaces(u);
        assert CollapseSpaces(t) == CollapseSpaces(t');
      } else {
        assert CollapseSpaces(s) == [s[0]] + CollapseSpaces(u);
        assert CollapseSpaces(t) == [s[0]] + CollapseSpaces(t');
      }
    }
  }

  /** The normalisation applied to Description and Extended_Description:
      `re.sub(' +', ' ', s.replace('\n', ' ').replace('\t', ''))`. */
  function Normalize(s: string): string
  {
    CollapseSpaces(Replace(Replace(s, "\n", " "), "\t", ""))
  }

  ghost predicate IsNormalized(s: string)
  {
    '\n' !in s && '\t' !in s && forall i :: 0 <= i < |s| - 1 ==> !(s[i] == ' ' && s[i + 1] == ' ')
  }

  /** Normalised text holds no newline, no tab and no two consecutive spaces. */
  lemma NormalizeIsNormalized(s: string)
    ensures IsNormalized(Normalize(s))
  {
    var t1 := Replace(s, "\n", " ");
    ReplaceChar(s, '\n', " ");
    var t2 := Replace(t1, "\t", "");
    ReplaceChar(t1, '\t', "");
    assert '\n' !in t2;
  }

  /** Normalising twice is the same as normalising once. */
  lemma NormalizeIdempotent(s: string)
    ensures Normalize(Normalize(s)) == Normalize(s)
  {
    NormalizeIsNormalized(s);
    NormalizeKeepsNormalized(Normalize(s));
  }

  /** Normalised text is left as it is. */
  lemma NormalizeKeepsNormalized(s: string)
    requires IsNormalized(s)
    ensures Normalize(s) == s
  {
    ReplaceAbsentChar(s, '\n', " ");
    ReplaceAbsentChar(s, '\t', "");
    CollapseWithoutDoubleSpace(s);
  }

  // ---------------------------------------------------------------------------
  // str(n)

  function DigitChar(d: nat): (c: char)
    requires d < 10
  {
    ('0' as int + d) as char
  }

  /** `str(n)` for a natural number: its decimal digits, most significant first. */
  function NatToString(n: nat): (r: string)
    ensures |r| >= 1
    ensures n >= 10 ==> |r| >= 2
    ensures forall i :: 0 <= i < |r| ==> '0' <= r[i] <= '9'
  {
    if n < 10 then [DigitChar(n)] else NatToString(n / 10) + [DigitChar(n % 10)]
  }

  /** Different numbers have different decimal representations. */
  lemma {:induction false} NatToStringInjective(a: nat, b: nat)
    requires NatToString(a) == NatToString(b)
    ensures a == b
  {
    var ra, rb := NatToString(a), NatToString(b);
    assert ra[|ra| - 1] == rb[|rb| - 1];
    assert a % 10 == b % 10;
    if a >= 10 && b >= 10 {
      assert NatToString(a / 10) == ra[..|ra| - 1] == rb[..|rb| - 1] == NatToString(b / 10);
      NatToStringInjective(a / 10, b / 10);
    }
  }
}
