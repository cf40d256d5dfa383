/**
 * The regular expressions both documentation parsers apply to AsciiDoc
 * text (data/scripts/parse_cypher_docs.py and parse_modeling_docs.py),
 * each written out as the match Python's `re` makes on ASCII text: Cypher
 * code blocks, the `= ` title, the `:description:` attribute, the splits
 * at `==` and `===` headings and the first meaningful line of a block.
 */
module AsciiDoc {
  import opened Wrappers
  import opened Text

  // ---------------------------------------------------------------------------
  // `\s{min,}(.+)`
  // ---------------------------------------------------------------------------

  /**
   * `\s*(.+)` (min 0) or `\s+(.+)` (min 1) matched at `q`, group stripped.
   * The greedy `\s` run may cross lines; `.+` then takes the rest of the
   * line. When the text ends in whitespace the regex backtracks and the
   * group is one whitespace character, stripped to "".
   */
  function SpacedRest(t: string, q: nat, min: nat): (r: Option<string>)
    requires q <= |t|
    ensures r.Some? ==> '\n' !in r.value
    ensures r.Some? ==> r.value == [] || (!IsSpace(r.value[0]) && !IsSpace(r.value[|r.value| - 1]))
  {
    var j := SkipSpaces(t, q);
    if j < |t| then
      if j - q >= min then
        var line := t[j..LineEnd(t, j)];
        StripKeepsOut(line, '\n');
        StripShape(line);
        Some(Strip(line))
      else None
    else if exists p :: q + min <= p < j && t[p] != '\n' then Some("")
    else None
  }

  // ---------------------------------------------------------------------------
  // Cypher code blocks
  // ---------------------------------------------------------------------------

  /**
   * `\[source,\s*cypher[^\]]*\]\s*\n----\n(.*?)----` (DOTALL) matched at
   * `i`: the body and the end of the match. The first `]` closes the
   * attribute list; the whitespace after it must end in a newline that
   * starts the `----` line; the body runs to the next `----`.
   */
  function BlockAt(t: string, i: nat): (r: Option<(string, nat)>)
    requires i <= |t|
    ensures r.Some? ==> i < r.value.1 <= |t|
  {
    if !OccursAt(t, "[source,", i) then None
    else
      var j := SkipSpaces(t, i + 8);
      if !OccursAt(t, "cypher", j) then None
      else
        var k := FindChar(t, ']', j + 6);
        if k < 0 then None
        else
          var e := SkipSpaces(t, k + 1);
          if e == k + 1 || t[e - 1] != '\n' || !OccursAt(t, "----\n", e) then None
          else
            var m := IndexOf(t, "----", e + 5);
            if m < 0 then None else Some((t[e + 5..m], m + 4))
  }

  predicate Trimmed(s: string)
  {
    s != [] && !IsSpace(s[0]) && !IsSpace(s[|s| - 1])
  }

  /** `code = body.strip(); if code: blocks.append(code)`. */
  function Kept(body: string): (r: seq<string>)
    ensures |r| <= 1 && forall k :: 0 <= k < |r| ==> Trimmed(r[k]) && r[k] == Strip(body)
    ensures r == [] <==> Strip(body) == ""
  {
    StripShape(body);
    if Strip(body) != "" then [Strip(body)] else []
  }

  /** `pattern.finditer(t)` from `i`, keeping the non-empty stripped bodies. */
  function BlocksFrom(t: string, i: nat): (r: seq<string>)
    requires i <= |t|
    ensures forall k :: 0 <= k < |r| ==> Trimmed(r[k])
    decreases |t| - i
  {
    if i == |t| then []
    else
      var b := BlockAt(t, i);
      if b.None? then BlocksFrom(t, i + 1)
      else Kept(b.value.0) + BlocksFrom(t, b.value.1)
  }

  /** `extract_code_blocks`: the stripped, non-empty Cypher code blocks, in order. */
  function CodeBlocks(t: string): (r: seq<string>)
    ensures forall k :: 0 <= k < |r| ==> Trimmed(r[k])
  {
    BlocksFrom(t, 0)
  }

  const BlockOpen := "[source,cypher]\n----\n"

  /** A document holding one code block gives back exactly its body. */
  lemma SingleBlock(body: string)
    requires Trimmed(body) && !Contains(body, "----")
    ensures CodeBlocks(BlockOpen + body + "\n----") == [body]
  {
    var t := BlockOpen + body + "\n----";
    var m := |BlockOpen| + |body| + 1;
    assert t[..21] == BlockOpen;
    OpenerParsed(t);
    assert t[21..21 + |body|] == body && t[21 + |body|..] == "\n----";
    ClosingFence(body, t);
    StripNewline(body);
    assert BlockAt(t, 0) == Some((body + "\n", m + 4));
    assert Kept(body + "\n") == [body];
    assert BlocksFrom(t, m + 4) == [];
    assert BlocksFrom(t, 0) == Kept(body + "\n") + BlocksFrom(t, m + 4);
  }

  /** The `[source,cypher]` line and the opening `----` are matched. */
  lemma OpenerParsed(t: string)
    requires |t| >= 21 && t[..21] == BlockOpen
    ensures OccursAt(t, "[source,", 0) && SkipSpaces(t, 8) == 8 && OccursAt(t, "cypher", 8)
    ensures FindChar(t, ']', 14) == 14 && SkipSpaces(t, 15) == 16 && t[15] == '\n'
    ensures OccursAt(t, "----\n", 16)
  {
    OpenerText(t);
    OpenerScan(t);
  }

  lemma OpenerText(t: string)
    requires |t| >= 21 && t[..21] == BlockOpen
    ensures OccursAt(t, "[source,", 0) && OccursAt(t, "cypher", 8) && OccursAt(t, "----\n", 16)
    ensures t[8] == 'c' && t[14] == ']' && t[15] == '\n' && t[16] == '-'
  {
    assert t[..8] == BlockOpen[..8];
    assert t[8..14] == BlockOpen[8..14];
    assert t[16..21] == BlockOpen[16..21];
    assert t[8] == BlockOpen[8] && t[14] == BlockOpen[14];
    assert t[15] == BlockOpen[15] && t[16] == BlockOpen[16];
  }

  lemma OpenerScan(t: string)
    requires |t| >= 21 && t[8] == 'c' && t[14] == ']' && t[15] == '\n' && t[16] == '-'
    ensures SkipSpaces(t, 8) == 8 && FindChar(t, ']', 14) == 14 && SkipSpaces(t, 15) == 16
  {
    assert SkipSpaces(t, 16) == 16;
  }

  /** The body holds no `----`, so the lazy match closes at the final fence. */
  lemma ClosingFence(body: string, t: string)
    requires !Contains(body, "----") && |t| == 21 + |body| + 5
    requires t[21..21 + |body|] == body && t[21 + |body|..] == "\n----"
    ensures IndexOf(t, "----", 21) == 21 + |body| + 1
    ensures t[21..21 + |body| + 1] == body + "\n"
  {
    var m := 21 + |body| + 1;
    assert t[m..m + 4] == t[21 + |body|..][1..];
    forall p | 21 <= p < m
      ensures !OccursAt(t, "----", p)
    {
      NoFenceInside(body, t, p);
    }
    FindFirst(t, "----", 21, m);
    assert t[21..m] == t[21..21 + |body|] + [t[21 + |body|]];
  }

  /** `find` returns the first occurrence at or after its start. */
  lemma FindFirst(s: string, p: string, from: nat, m: nat)
    requires from <= m && OccursAt(s, p, m)
    requires forall i :: from <= i < m ==> !OccursAt(s, p, i)
    ensures IndexOf(s, p, from) == m
  {
  }

  lemma NoFenceInside(body: string, t: string, p: nat)
    requires !Contains(body, "----") && |t| == 21 + |body| + 5
    requires t[21..21 + |body|] == body && t[21 + |body|..] == "\n----"
    requires 21 <= p < 21 + |body| + 1
    ensures !OccursAt(t, "----", p)
  {
    var n := 21;
    if p + 4 <= n + |body| {
      forall i | p <= i < p + 4
        ensures t[i] == body[i - 21]
      {
        assert t[i] == t[21..21 + |body|][i - 21];
      }
      assert t[p..p + 4] == body[p - n..p - n + 4];
      if OccursAt(t, "----", p) {
        assert OccursAt(body, "----", p - n);
        assert Contains(body, "----");
      }
    } else {
      assert t[n + |body|] == t[21 + |body|..][0];
      assert t[p..p + 4][n + |body| - p] == '\n';
    }
  }

  /** Stripping the newline that precedes the closing fence gives the body back. */
  lemma StripNewline(body: string)
    requires Trimmed(body)
    ensures Strip(body + "\n") == body
  {
    var b := body + "\n";
    assert b[0] == body[0];
    assert LStrip(b) == b;
    assert IsSpace(b[|b| - 1]);
    assert b[..|b| - 1] == body;
    assert RStrip(b) == RStrip(body);
  }

  // ---------------------------------------------------------------------------
  // Title and description
  // ---------------------------------------------------------------------------

  function TitleFrom(t: string, p: nat): (r: Option<string>)
    requires p <= |t|
    ensures r.Some? ==> '\n' !in r.value
    decreases |t| - p
  {
    if p == |t| then None
    else if (p == 0 || t[p - 1] == '\n') && t[p] == '=' && SpacedRest(t, p + 1, 1).Some? then SpacedRest(t, p + 1, 1)
    else TitleFrom(t, p + 1)
  }

  /** `re.search(r'^=\s+(.+)', t, re.MULTILINE)`, group stripped; `None` without a match. */
  function Title(t: string): (r: Option<string>)
    ensures r.Some? ==> '\n' !in r.value
  {
    TitleFrom(t, 0)
  }

  /**
   * The attribute and table-cell searches: `:description:\s*(.+)` and, in
   * a function's details table, `\*Description\*[^|]*\|\s*(.+?)(?:\n|$)`,
   * `\*Syntax\*[^|]*\|\s*`([^`]+)`` and `\*Returns\*[^|]*\|\s*`?(\w+)`?`.
   */
  datatype Pattern = DescriptionAttr | TableDescription | TableSyntax | TableReturns

  function Marker(pat: Pattern): string
  {
    match pat
    case DescriptionAttr => ":description:"
    case TableDescription => "*Description*"
    case TableSyntax => "*Syntax*"
    case TableReturns => "*Returns*"
  }

  /**
   * The stripped group of a match of `pat` starting at `p`. In a table
   * pattern `[^|]*\|` runs to the first `|` after the marker, across lines.
   * The lazy `.+?` up to a newline or the end takes the rest of the line,
   * as `.+` does. `[^`]+` may cross lines. `\w+` takes the whole word run.
   */
  function MatchAt(t: string, p: nat, pat: Pattern): (r: Option<string>)
    requires p <= |t|
    ensures r.Some? && pat != TableSyntax ==> '\n' !in r.value
    ensures r.Some? ==> OccursAt(t, Marker(pat), p)
  {
    if !OccursAt(t, Marker(pat), p) then None
    else if pat == DescriptionAttr then SpacedRest(t, p + 13, 0)
    else
      var k := FindChar(t, '|', p + |Marker(pat)|);
      if k < 0 then None
      else if pat == TableSyntax then
        var w := SkipSpaces(t, k + 1);
          if w == |t| || t[w] != '`' then None
          else
            var m := FindChar(t, '`', w + 1);
            if m <= w + 1 then None else Some(Strip(t[w + 1..m]))
      else if pat == TableReturns then
        var w := SkipSpaces(t, k + 1);
          var v := if w < |t| && t[w] == '`' then w + 1 else w;
          var e := SkipWord(t, v);
          if e == v then None
          else
            assert forall x :: v <= x < e ==> t[x] != '\n';
            assert forall x :: 0 <= x < e - v ==> t[v..e][x] == t[v + x];
            Some(t[v..e])
      else SpacedRest(t, k + 1, 0)
  }

  /** `re.search` from `p`: the group of the first match at or after `p`. */
  function SearchFrom(t: string, p: nat, pat: Pattern): (r: Option<string>)
    requires p <= |t|
    ensures r.Some? && pat != TableSyntax ==> '\n' !in r.value
    ensures r.Some? ==> exists q :: p <= q < |t| && MatchAt(t, q, pat) == r
    ensures r.None? ==> forall q :: p <= q < |t| ==> MatchAt(t, q, pat).None?
    decreases |t| - p
  {
    if p == |t| then None
    else if MatchAt(t, p, pat).Some? then MatchAt(t, p, pat)
    else SearchFrom(t, p + 1, pat)
  }

  /** `extract_description`: `re.search(r':description:\s*(.+)', t)`, group stripped; "" without a match. */
  function Description(t: string): (r: string)
    ensures '\n' !in r
  {
    match SearchFrom(t, 0, DescriptionAttr)
    case Some(d) => d
    case None => ""
  }

  /** A description attribute on a line of its own is found, whatever precedes it. */
  lemma DescriptionFound(head: string, d: string)
    requires Trimmed(d) && '\n' !in d && !Contains(head, ":description:")
    requires head == [] || head[|head| - 1] == '\n'
    ensures Description(head + ":description: " + d + "\n") == d
  {
    var t := head + ":description: " + d + "\n";
    AttributeMatch(head, d);
    DescriptionSkips(t, head, 0);
    assert t[..|head|] == head;
    assert SearchFrom(t, |head|, DescriptionAttr) == Some(d);
  }

  lemma AttributeMatch(head: string, d: string)
    requires Trimmed(d) && '\n' !in d
    ensures MatchAt(head + ":description: " + d + "\n", |head|, DescriptionAttr) == Some(d)
  {
    var t := head + ":description: " + d + "\n";
    var h := |head|;
    assert t[h..h + 13] == ":description:";
    assert t[h + 13] == ' ';
    assert t[h + 14..h + 14 + |d|] == d;
    AttributeAt(t, h, d);
  }

  /** The attribute at `h`, one space, the trimmed value and a newline. */
  lemma AttributeAt(t: string, h: nat, d: string)
    requires Trimmed(d) && '\n' !in d && |t| == h + 14 + |d| + 1
    requires t[h..h + 13] == ":description:" && t[h + 13] == ' '
    requires t[h + 14..h + 14 + |d|] == d && t[|t| - 1] == '\n'
    ensures MatchAt(t, h, DescriptionAttr) == Some(d)
  {
    var j := h + 14;
    assert t[j] == d[0];
    assert SkipSpaces(t, j) == j;
    forall k | j <= k < j + |d|
      ensures t[k] != '\n'
    {
      assert t[k] == t[j..j + |d|][k - j];
    }
    LineEndAt(t, j, j + |d|);
    StripOfUnpadded(d);
  }

  /** The end of the line is the first newline at or after its start. */
  lemma LineEndAt(t: string, j: nat, e: nat)
    requires j <= e < |t| && t[e] == '\n'
    requires forall k :: j <= k < e ==> t[k] != '\n'
    ensures LineEnd(t, j) == e
  {
  }

  /** Before the first occurrence of the attribute, the search moves on. */
  lemma {:induction false} DescriptionSkips(t: string, head: string, p: nat)
    requires |head| <= |t| && t[..|head|] == head && !Contains(head, ":description:")
    requires head == [] || head[|head| - 1] == '\n'
    requires p <= |head|
    ensures SearchFrom(t, p, DescriptionAttr) == SearchFrom(t, |head|, DescriptionAttr)
    decreases |head| - p
  {
    if p < |head| {
      NotBefore(t, head, p);
      assert MatchAt(t, p, DescriptionAttr).None?;
      DescriptionSkips(t, head, p + 1);
    }
  }

  lemma NotBefore(t: string, head: string, p: nat)
    requires |head| <= |t| && t[..|head|] == head && !Contains(head, ":description:")
    requires head == [] || head[|head| - 1] == '\n'
    requires p < |head|
    ensures !OccursAt(t, ":description:", p)
  {
    if p + 13 <= |head| {
      assert !OccursAt(head, ":description:", p);
      assert t[p..p + 13] == head[p..p + 13];
    } else if p + 13 <= |t| {
      var d := |head| - 1 - p;
      assert t[|head| - 1] == '\n';
      assert t[p..p + 13][d] == '\n';
    }
  }

  // ---------------------------------------------------------------------------
  // Heading splits
  // ---------------------------------------------------------------------------

  /** `re.split(r'\n==\s+(?!=)', t)` (H2) and `re.split(r'\n===\s+', t)` (H3). */
  datatype Splitter = H2 | H3

  /**
   * The end of a separator match starting at `p`. For H2 the whitespace run
   * may not be followed by `=`; the regex then gives back one whitespace
   * character if the run has two or more.
   */
  function SepEnd(t: string, p: nat, sp: Splitter): (r: Option<nat>)
    requires p <= |t|
    ensures r.Some? ==> p < r.value <= |t|
  {
    match sp
    case H2 =>
      if !OccursAt(t, "\n==", p) then None
      else
        var w := SkipSpaces(t, p + 3);
        if w == p + 3 then None
        else if w == |t| || t[w] != '=' then Some(w)
        else if w - (p + 3) >= 2 then Some(w - 1)
        else None
    case H3 =>
      if !OccursAt(t, "\n===", p) then None
      else
        var w := SkipSpaces(t, p + 4);
        if w == p + 4 then None else Some(w)
  }

  /** The pieces of `t[start..]` between separators, scanning from `p`. */
  function PiecesFrom(t: string, start: nat, p: nat, sp: Splitter): (r: seq<string>)
    requires start <= p <= |t|
    ensures |r| >= 1
    decreases |t| - p
  {
    if p == |t| then [t[start..]]
    else match SepEnd(t, p, sp)
      case Some(e) => [t[start..p]] + PiecesFrom(t, e, e, sp)
      case None => PiecesFrom(t, start, p + 1, sp)
  }

  /** The separators themselves, in order. */
  function SepsFrom(t: string, p: nat, sp: Splitter): (r: seq<string>)
    requires p <= |t|
    decreases |t| - p
  {
    if p == |t| then []
    else match SepEnd(t, p, sp)
      case Some(e) => [t[p..e]] + SepsFrom(t, e, sp)
      case None => SepsFrom(t, p + 1, sp)
  }

  function SplitAt(t: string, sp: Splitter): (r: seq<string>)
    ensures |r| >= 1
  {
    PiecesFrom(t, 0, 0, sp)
  }

  /** Pieces and separators, alternating. */
  function Weave(pieces: seq<string>, seps: seq<string>): string
    requires |pieces| == |seps| + 1
    decreases |seps|
  {
    if |seps| == 0 then pieces[0] else pieces[0] + seps[0] + Weave(pieces[1..], seps[1..])
  }

  /** Splitting loses nothing: the pieces and the separators between them rebuild the text. */
  lemma {:induction false} SplitRejoin(t: string, start: nat, p: nat, sp: Splitter)
    requires start <= p <= |t|
    ensures |PiecesFrom(t, start, p, sp)| == |SepsFrom(t, p, sp)| + 1
    ensures Weave(PiecesFrom(t, start, p, sp), SepsFrom(t, p, sp)) == t[start..]
    decreases |t| - p
  {
    if p < |t| {
      match SepEnd(t, p, sp)
      case Some(e) =>
        SplitRejoin(t, e, e, sp);
        var ps := PiecesFrom(t, start, p, sp);
        var ss := SepsFrom(t, p, sp);
        assert ps[1..] == PiecesFrom(t, e, e, sp) && ss[1..] == SepsFrom(t, e, sp);
        assert t[start..] == t[start..p] + t[p..e] + t[e..];
      case None =>
        SplitRejoin(t, start, p + 1, sp);
    }
  }

  lemma SplitAtRejoin(t: string, sp: Splitter)
    ensures |SplitAt(t, sp)| == |SepsFrom(t, 0, sp)| + 1
    ensures Weave(SplitAt(t, sp), SepsFrom(t, 0, sp)) == t
  {
    SplitRejoin(t, 0, 0, sp);
  }

  // ---------------------------------------------------------------------------
  // First meaningful line
  // ---------------------------------------------------------------------------

  /** `s.startswith(tuple(ps))`. */
  predicate StartsWithAny(s: string, ps: seq<string>)
  {
    exists k :: 0 <= k < |ps| && StartsWith(s, ps[k])
  }

  /** Whether the markup prefixes are looked for on the stripped line or on the line as it stands. */
  datatype Test = OnStripped | OnRaw

  /** A line whose stripped text is non-empty and which starts with none of the markup prefixes. */
  predicate Meaningful(line: string, skip: seq<string>, test: Test)
  {
    Strip(line) != "" && !StartsWithAny(Tested(line, test), skip)
  }

  function Tested(line: string, test: Test): string
  {
    if test == OnStripped then Strip(line) else line
  }

  /** The index of the first meaningful line, or `|lines|` when there is none. */
  function FirstMeaningfulIndex(lines: seq<string>, skip: seq<string>, test: Test): (i: nat)
    ensures i <= |lines|
    ensures i < |lines| ==> Meaningful(lines[i], skip, test)
    ensures forall j :: 0 <= j < i ==> !Meaningful(lines[j], skip, test)
  {
    MeaningfulFrom(lines, 0, skip, test)
  }

  /** The search for the first meaningful line, from index `k` on. */
  function MeaningfulFrom(lines: seq<string>, k: nat, skip: seq<string>, test: Test): (i: nat)
    requires k <= |lines|
    ensures k <= i <= |lines|
    ensures i < |lines| ==> Meaningful(lines[i], skip, test)
    ensures forall j :: k <= j < i ==> !Meaningful(lines[j], skip, test)
    decreases |lines| - k
  {
    if k == |lines| || Meaningful(lines[k], skip, test) then k else MeaningfulFrom(lines, k + 1, skip, test)
  }

  /**
   * The loop `for line in lines: stripped = line.strip(); if stripped and not
   * <prefix test>: take stripped; break`: the stripped first meaningful line,
   * "" when every line is blank or markup.
   */
  function FirstMeaningful(lines: seq<string>, skip: seq<string>, test: Test): (r: string)
    ensures r == "" <==> forall i :: 0 <= i < |lines| ==> !Meaningful(lines[i], skip, test)
    ensures r != "" ==> r == Strip(lines[FirstMeaningfulIndex(lines, skip, test)])
  {
    var i := FirstMeaningfulIndex(lines, skip, test);
    if i < |lines| then Strip(lines[i]) else ""
  }

  /** The search loop itself: stops at the first meaningful line. */
  method FindMeaningful(lines: seq<string>, skip: seq<string>, test: Test) returns (r: string)
    ensures r == FirstMeaningful(lines, skip, test)
  {
    r := "";
    var i := 0;
    while i < |lines|
      invariant 0 <= i <= |lines|
      invariant forall j :: 0 <= j < i ==> !Meaningful(lines[j], skip, test)
    {
      var stripped := Strip(lines[i]);
      if Meaningful(lines[i], skip, test) {
        r := stripped;
        FirstIndexIs(lines, skip, test, i);
        return;
      }
      i := i + 1;
    }
    FirstIndexIs(lines, skip, test, |lines|);
  }

  /** The first meaningful index is the one before which no line is meaningful. */
  lemma {:induction false} FirstIndexIs(lines: seq<string>, skip: seq<string>, test: Test, i: nat)
    requires i <= |lines| && (i < |lines| ==> Meaningful(lines[i], skip, test))
    requires forall j :: 0 <= j < i ==> !Meaningful(lines[j], skip, test)
    ensures FirstMeaningfulIndex(lines, skip, test) == i
  {
    var k := FirstMeaningfulIndex(lines, skip, test);
    assert !(k < i) && !(i < k);
  }
}
