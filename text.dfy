/**
 * Python string primitives used by every part of the model, restricted to ASCII:
 * whitespace and word-character classes, `upper`/`lower`, `startswith`, `in`,
 * `find`, `strip`, `split(sep)`, `split()`, `join`, slicing, `str(int)` and
 * the ordering `sorted` uses on strings.
 */
module Text {
  import opened Wrappers

  // ---------------------------------------------------------------------------
  // Character classes
  // ---------------------------------------------------------------------------

  /** Python's `str.isspace` / regex `\s` on ASCII: space, \t \n \v \f \r and \x1c-\x1f. */
  predicate IsSpace(c: char)
  {
    c == ' ' || c == '\t' || c == '\n' || c == '\r' || c == '\U{000B}' || c == '\U{000C}'
    || ('\U{001C}' <= c <= '\U{001F}')
  }

  predicate IsUpper(c: char) { 'A' <= c <= 'Z' }
  predicate IsLower(c: char) { 'a' <= c <= 'z' }
  predicate IsDigit(c: char) { '0' <= c <= '9' }
  predicate IsLetter(c: char) { IsUpper(c) || IsLower(c) }

  /** Regex `\w` on ASCII: [A-Za-z0-9_]. */
  predicate IsWordChar(c: char) { IsLetter(c) || IsDigit(c) || c == '_' }

  function UpperChar(c: char): char
  {
    if IsLower(c) then (c as int - 32) as char else c
  }

  function LowerChar(c: char): char
  {
    if IsUpper(c) then (c as int + 32) as char else c
  }

  /** `s.upper()` on ASCII letters; other characters are copied. */
  function Upper(s: string): (r: string)
    ensures |r| == |s|
    ensures forall i :: 0 <= i < |s| ==> r[i] == UpperChar(s[i])
  {
    seq(|s|, i requires 0 <= i < |s| => UpperChar(s[i]))
  }

  /** `s.lower()` on ASCII letters; other characters are copied. */
  function Lower(s: string): (r: string)
    ensures |r| == |s|
    ensures forall i :: 0 <= i < |s| ==> r[i] == LowerChar(s[i])
  {
    seq(|s|, i requires 0 <= i < |s| => LowerChar(s[i]))
  }

  predicate AllSpace(s: string) { forall i :: 0 <= i < |s| ==> IsSpace(s[i]) }
  predicate NoSpace(s: string) { forall i :: 0 <= i < |s| ==> !IsSpace(s[i]) }
  predicate AllWordChars(s: string) { forall i :: 0 <= i < |s| ==> IsWordChar(s[i]) }

  // ---------------------------------------------------------------------------
  // Substrings
  // ---------------------------------------------------------------------------

  predicate StartsWith(s: string, p: string) { |p| <= |s| && s[..|p|] == p }
  predicate EndsWith(s: string, p: string) { |p| <= |s| && s[|s| - |p|..] == p }

  /** `p` occurs in `s` starting at index `i`. */
  predicate OccursAt(s: string, p: string, i: int)
  {
    0 <= i && i + |p| <= |s| && s[i..i + |p|] == p
  }

  /** Python's `p in s`. */
  predicate Contains(s: string, p: string)
  {
    exists i :: 0 <= i <= |s| && OccursAt(s, p, i)
  }

  /** `s.find(p, from)`: the first index at or after `from` where `p` occurs, else -1. */
  function IndexOf(s: string, p: string, from: nat): (r: int)
    ensures r == -1 || (from <= r && OccursAt(s, p, r))
    ensures forall i :: from <= i && (r == -1 || i < r) ==> !OccursAt(s, p, i)
    decreases |s| - from
  {
    if from + |p| > |s| then -1
    else if OccursAt(s, p, from) then from
    else IndexOf(s, p, from + 1)
  }

  lemma ContainsIffFound(s: string, p: string)
    ensures Contains(s, p) <==> IndexOf(s, p, 0) >= 0
  {
    if IndexOf(s, p, 0) >= 0 {
      assert OccursAt(s, p, IndexOf(s, p, 0));
    }
  }

  /** The first index at or after `from` holding `c`, else -1. */
  function FindChar(s: string, c: char, from: nat): (r: int)
    ensures r == -1 || (from <= r < |s| && s[r] == c)
    ensures forall i :: from <= i < |s| && (r == -1 || i < r) ==> s[i] != c
    decreases |s| - from
  {
    if from >= |s| then -1
    else if s[from] == c then from
    else FindChar(s, c, from + 1)
  }

  /** Python's `s[:n]` for a non-negative `n`. */
  function Take<T>(s: seq<T>, n: nat): (r: seq<T>)
    ensures |r| <= n && |r| <= |s| && r == s[..|r|]
    ensures |s| <= n ==> r == s
    ensures n <= |s| ==> |r| == n
  {
    if |s| <= n then s else s[..n]
  }

  /** `s.replace(a, b)` for single characters. */
  function ReplaceChar(s: string, a: char, b: char): (r: string)
    ensures |r| == |s|
    ensures forall i :: 0 <= i < |s| ==> r[i] == (if s[i] == a then b else s[i])
  {
    seq(|s|, i requires 0 <= i < |s| => if s[i] == a then b else s[i])
  }

  /** `s.replace(a, "")` for a single character. */
  function RemoveChar(s: string, a: char): (r: string)
    ensures a !in r
    ensures |r| <= |s|
    decreases |s|
  {
    if |s| == 0 then ""
    else if s[0] == a then RemoveChar(s[1..], a)
    else [s[0]] + RemoveChar(s[1..], a)
  }

  // ---------------------------------------------------------------------------
  // strip
  // ---------------------------------------------------------------------------

  /** `s.lstrip()`: the suffix left after dropping leading whitespace. */
  function LStrip(s: string): (r: string)
    ensures |r| <= |s| && r == s[|s| - |r|..]
    ensures r == [] || !IsSpace(r[0])
    decreases |s|
  {
    if |s| > 0 && IsSpace(s[0]) then LStrip(s[1..]) else s
  }

  /** What `lstrip` drops is whitespace. */
  lemma {:induction false} LStripDropsSpace(s: string)
    ensures AllSpace(s[..|s| - |LStrip(s)|])
    decreases |s|
  {
    if |s| > 0 && IsSpace(s[0]) {
      var r := LStrip(s[1..]);
      LStripDropsSpace(s[1..]);
      assert s[..|s| - |r|] == [s[0]] + s[1..][..|s[1..]| - |r|];
    }
  }

  /** `s.rstrip()`: the prefix left after dropping trailing whitespace. */
  function RStrip(s: string): (r: string)
    ensures |r| <= |s| && r == s[..|r|]
    ensures r == [] || !IsSpace(r[|r| - 1])
    decreases |s|
  {
    if |s| > 0 && IsSpace(s[|s| - 1]) then RStrip(s[..|s| - 1]) else s
  }

  /** What `rstrip` drops is whitespace. */
  lemma {:induction false} RStripDropsSpace(s: string)
    ensures AllSpace(s[|RStrip(s)|..])
    decreases |s|
  {
    if |s| > 0 && IsSpace(s[|s| - 1]) {
      var r := RStrip(s[..|s| - 1]);
      RStripDropsSpace(s[..|s| - 1]);
      assert s[|r|..] == s[..|s| - 1][|r|..] + [s[|s| - 1]];
    }
  }

  /** `s.strip()`. */
  function Strip(s: string): (r: string)
  {
    RStrip(LStrip(s))
  }

  /** `not s.strip()`: the text is empty or whitespace only. */
  predicate IsBlank(s: string) { AllSpace(s) }

  lemma StripEmptyIffBlank(s: string)
    ensures Strip(s) == "" <==> IsBlank(s)
  {
    var l := LStrip(s);
    LStripDropsSpace(s);
    RStripDropsSpace(l);
    if Strip(s) == "" {
      assert AllSpace(l[0..]);
      assert |l| == 0;
      forall i | 0 <= i < |s| ensures IsSpace(s[i]) {
        assert s[i] == s[..|s| - |l|][i];
      }
    } else if l != [] {
      assert s[|s| - |l|] == l[0];
    }
  }

  /** `s.strip()` is a slice of `s` with no whitespace at either end. */
  lemma {:induction false} StripShape(s: string)
    ensures var a := |s| - |LStrip(s)|; a + |Strip(s)| <= |s| && Strip(s) == s[a..a + |Strip(s)|]
    ensures Strip(s) == [] || (!IsSpace(Strip(s)[0]) && !IsSpace(Strip(s)[|Strip(s)| - 1]))
  {
    StripSlice(s);
    StripEnds(s);
  }

  lemma {:induction false} StripSlice(s: string)
    ensures var a := |s| - |LStrip(s)|; a + |Strip(s)| <= |s| && Strip(s) == s[a..a + |Strip(s)|]
  {
    SliceOfSlice(s, LStrip(s), RStrip(LStrip(s)), Strip(s));
  }

  /** A prefix of a suffix of `s` is a slice of `s`. */
  lemma SliceOfSlice(s: string, l: string, r: string, x: string)
    requires |l| <= |s| && l == s[|s| - |l|..]
    requires |r| <= |l| && r == l[..|r|]
    requires x == r
    ensures var a := |s| - |l|; a + |x| <= |s| && x == s[a..a + |x|]
  {
  }

  lemma {:induction false} StripEnds(s: string)
    ensures Strip(s) == [] || (!IsSpace(Strip(s)[0]) && !IsSpace(Strip(s)[|Strip(s)| - 1]))
  {
    TrimmedSlice(s, LStrip(s), RStrip(LStrip(s)));
  }

  /** A prefix `r` of a suffix `l` of `s`, with no whitespace at the front of `l` or the back of `r`. */
  lemma TrimmedSlice(s: string, l: string, r: string)
    requires |l| <= |s| && l == s[|s| - |l|..] && (l == [] || !IsSpace(l[0]))
    requires |r| <= |l| && r == l[..|r|] && (r == [] || !IsSpace(r[|r| - 1]))
    ensures var a := |s| - |l|; a + |r| <= |s| && r == s[a..a + |r|]
    ensures r == [] || (!IsSpace(r[0]) && !IsSpace(r[|r| - 1]))
  {
    if r != [] {
      assert r[0] == l[0];
    }
  }

  /** Stripping never brings in a character the text did not hold. */
  lemma StripKeepsOut(s: string, c: char)
    requires c !in s
    ensures c !in Strip(s)
  {
    StripShape(s);
  }

  lemma StripOfUnpadded(s: string)
    requires s == [] || (!IsSpace(s[0]) && !IsSpace(s[|s| - 1]))
    ensures Strip(s) == s
  {
  }

  // ---------------------------------------------------------------------------
  // split / join
  // ---------------------------------------------------------------------------

  /** `sep.join(xs)`. */
  function Join(xs: seq<string>, sep: string): string
    decreases |xs|
  {
    if |xs| == 0 then ""
    else if |xs| == 1 then xs[0]
    else xs[0] + sep + Join(xs[1..], sep)
  }

  /** `s.split(sep)` for a one-character separator: never empty, pieces free of `sep`. */
  function Split(s: string, sep: char): (r: seq<string>)
    ensures |r| >= 1
    ensures forall k :: 0 <= k < |r| ==> sep !in r[k]
    decreases |s|
  {
    var i := FindChar(s, sep, 0);
    if i < 0 then [s] else [s[..i]] + Split(s[i + 1..], sep)
  }

  /** Splitting and re-joining with the same separator gives back the text. */
  lemma {:induction false} JoinSplit(s: string, sep: char)
    ensures Join(Split(s, sep), [sep]) == s
    decreases |s|
  {
    var i := FindChar(s, sep, 0);
    if i >= 0 {
      JoinSplit(s[i + 1..], sep);
      var rest := Split(s[i + 1..], sep);
      var parts := Split(s, sep);
      assert parts == [s[..i]] + rest;
      assert parts[0] == s[..i] && parts[1..] == rest && |parts| >= 2;
      assert Join(parts, [sep]) == s[..i] + [sep] + Join(rest, [sep]);
      assert s == s[..i] + [sep] + s[i + 1..];
    }
  }

  /** Joining pieces free of `sep` and splitting again gives back the pieces. */
  lemma {:induction false} SplitJoin(xs: seq<string>, sep: char)
    requires |xs| >= 1
    requires forall k :: 0 <= k < |xs| ==> sep !in xs[k]
    ensures Split(Join(xs, [sep]), sep) == xs
    decreases |xs|
  {
    var s := Join(xs, [sep]);
    if |xs| == 1 {
      assert FindChar(s, sep, 0) == -1;
    } else {
      var tail := Join(xs[1..], [sep]);
      assert s == xs[0] + [sep] + tail;
      assert s[|xs[0]|] == sep;
      assert FindChar(s, sep, 0) == |xs[0]| by {
        assert forall j :: 0 <= j < |xs[0]| ==> s[j] == xs[0][j];
      }
      assert s[..|xs[0]|] == xs[0];
      assert s[|xs[0]| + 1..] == tail;
      SplitJoin(xs[1..], sep);
    }
  }

  /** Splitting at a separator splits the two sides independently. */
  lemma {:induction false} SplitAppend(a: string, b: string, sep: char)
    ensures Split(a + [sep] + b, sep) == Split(a, sep) + Split(b, sep)
    decreases |a|
  {
    var t := a + [sep] + b;
    var i := FindChar(a, sep, 0);
    if i < 0 {
      assert t[|a|] == sep;
      assert FindChar(t, sep, 0) == |a| by {
        assert forall j :: 0 <= j < |a| ==> t[j] == a[j];
      }
      assert t[..|a|] == a && t[|a| + 1..] == b;
    } else {
      assert FindChar(t, sep, 0) == i by {
        assert forall j :: 0 <= j < |a| ==> t[j] == a[j];
      }
      assert t[..i] == a[..i];
      assert t[i + 1..] == a[i + 1..] + [sep] + b;
      SplitAppend(a[i + 1..], b, sep);
    }
  }

  /** `s.split()` without arguments: the maximal runs of non-whitespace characters. */
  function Words(s: string): (r: seq<string>)
    ensures forall k :: 0 <= k < |r| ==> r[k] != "" && NoSpace(r[k])
    decreases |s|
  {
    var t := LStrip(s);
    if t == "" then []
    else
      var j := WordEnd(t, 0);
      assert j > 0 && NoSpace(t[..j]);
      [t[..j]] + Words(t[j..])
  }

  /** The end of the run of non-whitespace characters starting at `i`. */
  function WordEnd(t: string, i: nat): (r: nat)
    requires i <= |t|
    ensures i <= r <= |t|
    ensures forall k :: i <= k < r ==> !IsSpace(t[k])
    ensures r == |t| || IsSpace(t[r])
    decreases |t| - i
  {
    if i == |t| || IsSpace(t[i]) then i else WordEnd(t, i + 1)
  }

  /** The end of the run of whitespace starting at `i` (a greedy regex `\s*`). */
  function SkipSpaces(t: string, i: nat): (r: nat)
    requires i <= |t|
    ensures i <= r <= |t|
    ensures forall k :: i <= k < r ==> IsSpace(t[k])
    ensures r == |t| || !IsSpace(t[r])
    decreases |t| - i
  {
    if i == |t| || !IsSpace(t[i]) then i else SkipSpaces(t, i + 1)
  }

  /** The end of the run of word characters starting at `i` (a greedy regex `\w*`). */
  function SkipWord(t: string, i: nat): (r: nat)
    requires i <= |t|
    ensures i <= r <= |t|
    ensures forall k :: i <= k < r ==> IsWordChar(t[k])
    ensures r == |t| || !IsWordChar(t[r])
    decreases |t| - i
  {
    if i == |t| || !IsWordChar(t[i]) then i else SkipWord(t, i + 1)
  }

  /** The index of the first '\n' at or after `i`, or the end of the text. */
  function LineEnd(t: string, i: nat): (r: nat)
    requires i <= |t|
    ensures i <= r <= |t|
    ensures forall k :: i <= k < r ==> t[k] != '\n'
    ensures r == |t| || t[r] == '\n'
    decreases |t| - i
  {
    if i == |t| || t[i] == '\n' then i else LineEnd(t, i + 1)
  }

  // ---------------------------------------------------------------------------
  // Numbers as text
  // ---------------------------------------------------------------------------

  function DigitChar(d: nat): char
    requires d < 10
  {
    ('0' as int + d) as char
  }

  /** `str(n)` for a natural number. */
  function NatToString(n: nat): (r: string)
    ensures |r| >= 1
    ensures forall i :: 0 <= i < |r| ==> IsDigit(r[i])
    decreases n
  {
    if n < 10 then [DigitChar(n)] else NatToString(n / 10) + [DigitChar(n % 10)]
  }

  /** Reads back a string of decimal digits. */
  function ParseNat(s: string): nat
    requires forall i :: 0 <= i < |s| ==> IsDigit(s[i])
    decreases |s|
  {
    if |s| == 0 then 0
    else
      assert IsDigit(s[|s| - 1]);
      ParseNat(s[..|s| - 1]) * 10 + (s[|s| - 1] as int - '0' as int)
  }

  lemma {:induction false} ParseNatToString(n: nat)
    ensures ParseNat(NatToString(n)) == n
    decreases n
  {
    if n >= 10 {
      ParseNatToString(n / 10);
      var s := NatToString(n);
      assert s[..|s| - 1] == NatToString(n / 10);
    }
  }

  /** `str(i)` for an integer. */
  function IntToString(i: int): string
  {
    if i < 0 then "-" + NatToString(-i) else NatToString(i)
  }

  // ---------------------------------------------------------------------------
  // Ordering of strings, as Python's `<` and `sorted` use it
  // ---------------------------------------------------------------------------

  /** Lexicographic order by character code; a prefix sorts first. */
  predicate Le(a: string, b: string)
    decreases |a|
  {
    |a| == 0 || (|b| > 0 && (a[0] < b[0] || (a[0] == b[0] && Le(a[1..], b[1..]))))
  }

  lemma {:induction false} LeRefl(a: string)
    ensures Le(a, a)
    decreases |a|
  {
    if |a| > 0 { LeRefl(a[1..]); }
  }

  lemma {:induction false} LeAntisym(a: string, b: string)
    requires Le(a, b) && Le(b, a)
    ensures a == b
    decreases |a|
  {
    if |a| > 0 {
      LeAntisym(a[1..], b[1..]);
      assert a == [a[0]] + a[1..] && b == [b[0]] + b[1..];
    }
  }

  lemma {:induction false} LeTotal(a: string, b: string)
    ensures Le(a, b) || Le(b, a)
    decreases |a|
  {
    if |a| > 0 && |b| > 0 && a[0] == b[0] { LeTotal(a[1..], b[1..]); }
  }

  lemma {:induction false} LeTrans(a: string, b: string, c: string)
    requires Le(a, b) && Le(b, c)
    ensures Le(a, c)
    decreases |a|
  {
    if |a| > 0 && |b| > 0 && |c| > 0 && a[0] == b[0] && b[0] == c[0] {
      LeTrans(a[1..], b[1..], c[1..]);
    }
  }

  predicate IsLeast(m: string, s: set<string>)
  {
    m in s && forall y :: y in s ==> Le(m, y)
  }

  lemma LeastExists(s: set<string>)
    requires s != {}
    ensures exists m :: IsLeast(m, s)
    decreases |s|
  {
    var x :| x in s;
    if s == {x} {
      LeRefl(x);
      assert IsLeast(x, s);
    } else {
      LeastExists(s - {x});
      var m :| IsLeast(m, s - {x});
      LeTotal(m, x);
      if Le(m, x) {
        assert IsLeast(m, s);
      } else {
        forall y | y in s ensures Le(x, y) {
          if y == x { LeRefl(x); } else { LeTrans(x, m, y); }
        }
        assert IsLeast(x, s);
      }
    }
  }

  lemma LeastUnique(s: set<string>)
    ensures forall m1, m2 :: IsLeast(m1, s) && IsLeast(m2, s) ==> m1 == m2
  {
    forall m1, m2 | IsLeast(m1, s) && IsLeast(m2, s) ensures m1 == m2 {
      LeAntisym(m1, m2);
    }
  }

  /** Strictly ascending: sorted and free of duplicates. */
  predicate StrictlySorted(xs: seq<string>)
  {
    forall i, j :: 0 <= i < j < |xs| ==> Le(xs[i], xs[j]) && xs[i] != xs[j]
  }

  /** `sorted(s)` for a set of strings. */
  function SortedSet(s: set<string>): (r: seq<string>)
    ensures |r| == |s|
    ensures forall x :: x in r <==> x in s
    ensures StrictlySorted(r)
    decreases |s|
  {
    if s == {} then []
    else
      LeastExists(s);
      LeastUnique(s);
      var m :| IsLeast(m, s);
      [m] + SortedSet(s - {m})
  }

  // ---------------------------------------------------------------------------
  // per-character rewriting
  // ---------------------------------------------------------------------------

  /** `"".join(f(c) for c in s)`: each character replaced by the text `f` gives it. */
  function ConcatMap(s: string, f: char -> string): string
    decreases |s|
  {
    if |s| == 0 then "" else f(s[0]) + ConcatMap(s[1..], f)
  }

  lemma {:induction false} ConcatMapAppend(a: string, b: string, f: char -> string)
    ensures ConcatMap(a + b, f) == ConcatMap(a, f) + ConcatMap(b, f)
    decreases |a|
  {
    if |a| == 0 {
      assert a + b == b;
    } else {
      assert (a + b)[0] == a[0];
      assert (a + b)[1..] == a[1..] + b;
      ConcatMapAppend(a[1..], b, f);
    }
  }

  /** The step a left-to-right loop over `s` takes. */
  lemma ConcatMapSnoc(s: string, i: nat, f: char -> string)
    requires i < |s|
    ensures ConcatMap(s[..i + 1], f) == ConcatMap(s[..i], f) + f(s[i])
  {
    assert s[..i + 1] == s[..i] + [s[i]];
    ConcatMapAppend(s[..i], [s[i]], f);
  }
}
