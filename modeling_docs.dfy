/**
 * The data-modelling guide and knowledge-base parser
 * (data/scripts/parse_modeling_docs.py): labels and relationship types
 * found in a page, the pattern / practice classification of a page, the
 * tips under its `===` headings, and knowledge-base articles. Directory
 * walks and file reads are left to the caller; every operation takes the
 * page text and its path.
 */
module ModelingDocs {
  import opened Wrappers
  import opened Text
  import opened AsciiDoc

  // ---------------------------------------------------------------------------
  // extract_labels_and_rels
  // ---------------------------------------------------------------------------

  /** The end of the run of letters starting at `i`. */
  function LetterEnd(t: string, i: nat): (r: nat)
    requires i <= |t|
    ensures i <= r <= |t| && (r == |t| || !IsLetter(t[r]))
    ensures forall k :: i <= k < r ==> IsLetter(t[k])
    decreases |t| - i
  {
    if i == |t| || !IsLetter(t[i]) then i else LetterEnd(t, i + 1)
  }

  predicate IsRelChar(c: char) { IsUpper(c) || c == '_' }

  /** The end of the run of `[A-Z_]` starting at `i`. */
  function RelEnd(t: string, i: nat): (r: nat)
    requires i <= |t|
    ensures i <= r <= |t| && (r == |t| || !IsRelChar(t[r]))
    ensures forall k :: i <= k < r ==> IsRelChar(t[k])
    decreases |t| - i
  {
    if i == |t| || !IsRelChar(t[i]) then i else RelEnd(t, i + 1)
  }

  /** `:([A-Z][a-zA-Z]+)` matches at `p`. */
  predicate LabelAt(t: string, p: nat)
  {
    p + 2 < |t| && t[p] == ':' && IsUpper(t[p + 1]) && IsLetter(t[p + 2])
  }

  /** The group of that match: the whole letter run after the colon. */
  function LabelText(t: string, p: nat): string
    requires LabelAt(t, p)
  {
    t[p + 1..LetterEnd(t, p + 1)]
  }

  /** `\[:([A-Z_]+)` matches at `p`. */
  predicate RelAt(t: string, p: nat)
  {
    p + 2 < |t| && t[p] == '[' && t[p + 1] == ':' && IsRelChar(t[p + 2])
  }

  function RelText(t: string, p: nat): string
    requires RelAt(t, p)
  {
    t[p + 2..RelEnd(t, p + 2)]
  }

  /**
   * The labels `finditer` yields. A match holds its only `:` (or `[`) at
   * its start, so matches never overlap and every position where the
   * pattern matches is a match.
   */
  function Labels(t: string): set<string>
  {
    set p | 0 <= p < |t| && LabelAt(t, p) :: LabelText(t, p)
  }

  function Rels(t: string): set<string>
  {
    set p | 0 <= p < |t| && RelAt(t, p) :: RelText(t, p)
  }

  /** The labels matched at positions before `i`. */
  function LabelsBefore(t: string, i: nat): set<string>
  {
    set p | 0 <= p < i && p < |t| && LabelAt(t, p) :: LabelText(t, p)
  }

  function RelsBefore(t: string, i: nat): set<string>
  {
    set p | 0 <= p < i && p < |t| && RelAt(t, p) :: RelText(t, p)
  }

  lemma LabelsStep(t: string, i: nat)
    requires i < |t|
    ensures LabelsBefore(t, i + 1) == LabelsBefore(t, i) + (if LabelAt(t, i) then {LabelText(t, i)} else {})
  {
  }

  lemma RelsStep(t: string, i: nat)
    requires i < |t|
    ensures RelsBefore(t, i + 1) == RelsBefore(t, i) + (if RelAt(t, i) then {RelText(t, i)} else {})
  {
  }

  /** `extract_labels_and_rels`: both sets filled by scanning the text, then sorted. */
  method ExtractLabelsAndRels(t: string) returns (labels: seq<string>, rels: seq<string>)
    ensures labels == SortedSet(Labels(t)) && rels == SortedSet(Rels(t))
  {
    var ls: set<string> := {};
    var i := 0;
    while i < |t|
      invariant 0 <= i <= |t|
      invariant ls == LabelsBefore(t, i)
    {
      LabelsStep(t, i);
      if LabelAt(t, i) {
        ls := ls + {LabelText(t, i)};
      }
      i := i + 1;
    }
    assert ls == Labels(t);
    var rs: set<string> := {};
    i := 0;
    while i < |t|
      invariant 0 <= i <= |t|
      invariant rs == RelsBefore(t, i)
    {
      RelsStep(t, i);
      if RelAt(t, i) {
        rs := rs + {RelText(t, i)};
      }
      i := i + 1;
    }
    assert rs == Rels(t);
    labels := SortedSet(ls);
    rels := SortedSet(rs);
  }

  /** Every label is an upper-case letter and at least one more letter; every type is a run of `[A-Z_]`. */
  lemma ExtractedShapes(t: string)
    ensures forall x :: x in Labels(t) ==> |x| >= 2 && IsUpper(x[0]) && forall k :: 0 <= k < |x| ==> IsLetter(x[k])
    ensures forall x :: x in Rels(t) ==> |x| >= 1 && forall k :: 0 <= k < |x| ==> IsRelChar(x[k])
  {
    forall x | x in Labels(t)
      ensures |x| >= 2 && IsUpper(x[0]) && forall k :: 0 <= k < |x| ==> IsLetter(x[k])
    {
      var p :| 0 <= p < |t| && LabelAt(t, p) && LabelText(t, p) == x;
      assert LetterEnd(t, p + 1) >= p + 3 by { assert LetterEnd(t, p + 1) == LetterEnd(t, p + 2); }
      assert x[0] == t[p + 1];
    }
    forall x | x in Rels(t) ensures |x| >= 1 && forall k :: 0 <= k < |x| ==> IsRelChar(x[k]) {
      var p :| 0 <= p < |t| && RelAt(t, p) && RelText(t, p) == x;
      assert x[0] == t[p + 2];
    }
  }

  /** A `:Label` written in a page, not followed by another letter, is found. */
  lemma LabelFound(pre: string, name: string, post: string)
    requires |name| >= 2 && IsUpper(name[0]) && forall k :: 0 <= k < |name| ==> IsLetter(name[k])
    requires post == [] || !IsLetter(post[0])
    ensures name in Labels(pre + ":" + name + post)
  {
    var t := pre + ":" + name + post;
    var p := |pre|;
    assert LabelAt(t, p) by { assert t[p] == ':' && t[p + 1] == name[0] && t[p + 2] == name[1]; }
    LetterRun(t, p + 1, name);
    assert t[p + 1..p + 1 + |name|] == name;
  }

  lemma {:induction false} LetterRun(t: string, i: nat, name: string)
    requires i + |name| <= |t| && t[i..i + |name|] == name
    requires forall k :: 0 <= k < |name| ==> IsLetter(name[k])
    requires i + |name| == |t| || !IsLetter(t[i + |name|])
    ensures LetterEnd(t, i) == i + |name|
    decreases |name|
  {
    if |name| > 0 {
      assert t[i] == name[0];
      assert t[i + 1..i + 1 + |name[1..]|] == name[1..];
      LetterRun(t, i + 1, name[1..]);
    }
  }

  /**
   * A relationship type made only of letters is also taken as a label:
   * `[:KNOWS]` puts `KNOWS` in both lists.
   */
  lemma RelAlsoLabel(t: string, p: nat)
    requires RelAt(t, p)
    requires var r := RelText(t, p); |r| >= 2 && forall k :: 0 <= k < |r| ==> IsUpper(r[k])
    requires RelEnd(t, p + 2) == |t| || !IsLetter(t[RelEnd(t, p + 2)])
    ensures RelText(t, p) in Labels(t)
  {
    var r := RelText(t, p);
    assert r[0] == t[p + 2] && r[1] == t[p + 3];
    assert LabelAt(t, p + 1);
    LetterRun(t, p + 2, r);
    assert LabelText(t, p + 1) == r;
  }

  // ---------------------------------------------------------------------------
  // Modelling pages
  // ---------------------------------------------------------------------------

  datatype ModelingPattern = ModelingPattern(name: string, description: string, whenToUse: string,
                                             antiPattern: string, cypherExamples: seq<string>,
                                             nodeLabels: seq<string>, relationshipTypes: seq<string>,
                                             sourceFile: string, authorityLevel: int)

  datatype BestPractice = BestPractice(title: string, description: string, category: string,
                                       cypherExamples: seq<string>, sourceFile: string, authorityLevel: int)

  /** `any(kw in s for kw in kws)`. */
  predicate ContainsAny(s: string, kws: seq<string>)
  {
    exists k :: 0 <= k < |kws| && Contains(s, kws[k])
  }

  const PatternKeywords: seq<string> := ["modeling-designs", "refactor", "relational-to-graph", "versioning"]
  const PracticeKeywords: seq<string> := ["tips", "concepts", "naming"]
  const WhenKeywords: seq<string> := ["when", "use case"]
  const AntiKeywords: seq<string> := ["anti", "avoid", "don't"]

  /** The markup a tip description may not start with. */
  const TipSkip: seq<string> := ["[", ":", "=", "include", "image", "|", "----", "//"]

  predicate IsPatternPath(relPath: string) { ContainsAny(Lower(relPath), PatternKeywords) }
  predicate IsPracticePath(relPath: string) { ContainsAny(Lower(relPath), PracticeKeywords) }

  /** `section[:500].strip()`: cut first, then strip. */
  function Cut500(section: string): (r: string)
    ensures |r| <= 500 && (r == [] || Trimmed(r))
  {
    StripShape(Take(section, 500));
    Strip(Take(section, 500))
  }

  /** The index of the last section whose lower-cased text holds a keyword, or -1. */
  function LastMatch(sections: seq<string>, kws: seq<string>): (i: int)
    ensures -1 <= i < |sections|
    ensures i >= 0 ==> ContainsAny(Lower(sections[i]), kws)
    ensures forall j :: i < j < |sections| ==> !ContainsAny(Lower(sections[j]), kws)
  {
    LastMatchBefore(sections, |sections|, kws)
  }

  /** The same search among the first `n` sections, scanning down from `n - 1`. */
  function LastMatchBefore(sections: seq<string>, n: nat, kws: seq<string>): (i: int)
    requires n <= |sections|
    ensures -1 <= i < n
    ensures i >= 0 ==> ContainsAny(Lower(sections[i]), kws)
    ensures forall j :: i < j < n ==> !ContainsAny(Lower(sections[j]), kws)
    decreases n
  {
    if n == 0 then -1
    else if ContainsAny(Lower(sections[n - 1]), kws) then n - 1
    else LastMatchBefore(sections, n - 1, kws)
  }

  /** What the loop leaves in `when_to_use` or `anti_pattern`: the cut of the last section that matches. */
  function LastNote(sections: seq<string>, kws: seq<string>): (r: string)
    ensures LastMatch(sections, kws) < 0 ==> r == ""
    ensures LastMatch(sections, kws) >= 0 ==> r == Cut500(sections[LastMatch(sections, kws)])
  {
    NoteBefore(sections, |sections|, kws)
  }

  /** The note left after the first `n` sections. */
  function NoteBefore(sections: seq<string>, n: nat, kws: seq<string>): string
    requires n <= |sections|
  {
    var i := LastMatchBefore(sections, n, kws);
    if i < 0 then "" else Cut500(sections[i])
  }

  /** A matching section overwrites the note; any other keeps it. */
  lemma NoteStep(sections: seq<string>, i: nat, kws: seq<string>)
    requires i < |sections|
    ensures NoteBefore(sections, i + 1, kws)
      == if ContainsAny(Lower(sections[i]), kws) then Cut500(sections[i]) else NoteBefore(sections, i, kws)
  {
  }

  /** The loop over the `==` sections; each match overwrites what an earlier one left. */
  method SectionNotes(sections: seq<string>) returns (whenToUse: string, antiPattern: string)
    ensures whenToUse == LastNote(sections, WhenKeywords) && antiPattern == LastNote(sections, AntiKeywords)
  {
    whenToUse := "";
    antiPattern := "";
    var i := 0;
    while i < |sections|
      invariant 0 <= i <= |sections|
      invariant whenToUse == NoteBefore(sections, i, WhenKeywords)
      invariant antiPattern == NoteBefore(sections, i, AntiKeywords)
    {
      NoteStep(sections, i, WhenKeywords);
      NoteStep(sections, i, AntiKeywords);
      var lower := Lower(sections[i]);
      if ContainsAny(lower, WhenKeywords) {
        whenToUse := Cut500(sections[i]);
      }
      if ContainsAny(lower, AntiKeywords) {
        antiPattern := Cut500(sections[i]);
      }
      i := i + 1;
    }
  }

  /** A tip's category: naming, then performance, else modelling. */
  function TipCategory(title: string, relPath: string): (r: string)
    ensures r == "naming" <==> Contains(Lower(title), "name") || Contains(Lower(relPath), "naming")
    ensures r == "performance" <==> !(Contains(Lower(title), "name") || Contains(Lower(relPath), "naming"))
                                     && Contains(Lower(title), "performance")
    ensures r in {"naming", "performance", "modeling"}
  {
    if Contains(Lower(title), "name") || Contains(Lower(relPath), "naming") then "naming"
    else if Contains(Lower(title), "performance") then "performance"
    else "modeling"
  }

  /** One `===` section: a practice when both its title line and a description line are there. */
  function TipOf(tip: string, relPath: string): (r: Option<BestPractice>)
    ensures var lines := Split(tip, '\n');
      r.Some? <==> Strip(lines[0]) != "" && FirstMeaningful(lines[1..], TipSkip, OnStripped) != ""
    ensures r.Some? ==> var b := r.value;
      && b.title == Strip(Split(tip, '\n')[0]) && '\n' !in b.title
      && b.category == TipCategory(b.title, relPath) && |b.cypherExamples| <= 5
      && b.cypherExamples == Take(CodeBlocks(tip), 5) && b.sourceFile == relPath
    ensures r.Some? ==> r.value.description == FirstMeaningful(Split(tip, '\n')[1..], TipSkip, OnStripped)
  {
    var lines := Split(tip, '\n');
    var title := Strip(lines[0]);
    StripKeepsOut(lines[0], '\n');
    var desc := FirstMeaningful(lines[1..], TipSkip, OnStripped);
    if title != "" && desc != "" then
      Some(BestPractice(title, desc, TipCategory(title, relPath), Take(CodeBlocks(tip), 5), relPath, 1))
    else None
  }

  function TipsOf(tips: seq<string>, relPath: string): (r: seq<BestPractice>)
    ensures |r| <= |tips|
    ensures forall k :: 0 <= k < |r| ==> r[k].title != "" && r[k].description != "" && r[k].sourceFile == relPath
    decreases |tips|
  {
    if |tips| == 0 then []
    else
      var init := TipsOf(tips[..|tips| - 1], relPath);
      var o := TipOf(tips[|tips| - 1], relPath);
      if o.None? then init
      else
        TipOfFields(tips[|tips| - 1], relPath);
        TipAppend(init, o.value, relPath);
        init + [o.value]
  }

  /** A tip that is made has a title, a description and the page's path. */
  lemma TipOfFields(tip: string, relPath: string)
    ensures var o := TipOf(tip, relPath);
      o.Some? ==> o.value.title != "" && o.value.description != "" && o.value.sourceFile == relPath
  {
  }

  lemma TipAppend(bs: seq<BestPractice>, b: BestPractice, relPath: string)
    requires forall k :: 0 <= k < |bs| ==> bs[k].title != "" && bs[k].description != "" && bs[k].sourceFile == relPath
    requires b.title != "" && b.description != "" && b.sourceFile == relPath
    ensures forall k :: 0 <= k < |bs + [b]| ==>
      (bs + [b])[k].title != "" && (bs + [b])[k].description != "" && (bs + [b])[k].sourceFile == relPath
  {
  }

  /** The tips of a page: the sections after the preamble of the split at `===` headings. */
  function Tips(text: string, relPath: string): seq<BestPractice>
  {
    TipsOf(SplitAt(text, H3)[1..], relPath)
  }

  method ParseTips(text: string, relPath: string) returns (practices: seq<BestPractice>)
    ensures practices == Tips(text, relPath)
  {
    var tipSections := SplitAt(text, H3)[1..];
    practices := [];
    var i := 0;
    while i < |tipSections|
      invariant 0 <= i <= |tipSections|
      invariant practices == TipsOf(tipSections[..i], relPath)
    {
      var tip := TipOf(tipSections[i], relPath);
      TipsOfStep(tipSections, i, relPath);
      practices := practices + (if tip.Some? then [tip.value] else []);
      i := i + 1;
    }
    assert tipSections[..i] == tipSections;
  }

  lemma TipsOfStep(tips: seq<string>, i: int, relPath: string)
    requires 0 <= i < |tips|
    ensures var o := TipOf(tips[i], relPath);
      TipsOf(tips[..i + 1], relPath) == TipsOf(tips[..i], relPath) + (if o.Some? then [o.value] else [])
  {
    assert tips[..i + 1][..i] == tips[..i];
  }

  /** What one page contributes. */
  datatype PageResult = PageResult(pattern: Option<ModelingPattern>, practices: seq<BestPractice>)

  /** The pattern record a page makes: its title, description, notes, examples, labels and types. */
  function PagePattern(title: string, text: string, relPath: string): (m: ModelingPattern)
    ensures m.name == title && m.sourceFile == relPath
    ensures m.description == Description(text) || (Description(text) == "" && m.description == title)
    ensures |m.cypherExamples| <= 10 && |m.whenToUse| <= 500 && |m.antiPattern| <= 500
    ensures m.cypherExamples == Take(CodeBlocks(text), 10)
    ensures m.whenToUse == LastNote(SplitAt(text, H2), WhenKeywords)
    ensures m.antiPattern == LastNote(SplitAt(text, H2), AntiKeywords)
    ensures StrictlySorted(m.nodeLabels) && StrictlySorted(m.relationshipTypes)
    ensures (forall x :: x in m.nodeLabels <==> x in Labels(text)) && (forall x :: x in m.relationshipTypes <==> x in Rels(text))
  {
    var description := Description(text);
    var sections := SplitAt(text, H2);
    ModelingPattern(title, if description != "" then description else title,
                    LastNote(sections, WhenKeywords), LastNote(sections, AntiKeywords),
                    Take(CodeBlocks(text), 10), SortedSet(Labels(text)), SortedSet(Rels(text)), relPath, 1)
  }

  /**
   * The body of the page loop in `parse_modeling_pages`. Navigation and
   * index files and pages without a `= ` title contribute nothing.
   */
  function ParsePage(fileName: string, relPath: string, text: string): (r: PageResult)
    ensures fileName in {"nav.adoc", "index.adoc"} || Title(text).None? ==> r == PageResult(None, [])
    ensures r.pattern.Some? <==>
      (fileName !in {"nav.adoc", "index.adoc"} && Title(text).Some?
       && (IsPatternPath(relPath) || (Labels(text) != {} && Rels(text) != {})))
    ensures r.pattern.Some? ==> var m := r.pattern.value;
      && m.name == Title(text).value && m.sourceFile == relPath
      && (m.description == Description(text) || (Description(text) == "" && m.description == m.name))
    ensures r.pattern.Some? ==> var m := r.pattern.value;
      && |m.cypherExamples| <= 10 && |m.whenToUse| <= 500 && |m.antiPattern| <= 500
      && StrictlySorted(m.nodeLabels) && StrictlySorted(m.relationshipTypes)
      && (forall x :: x in m.nodeLabels <==> x in Labels(text)) && (forall x :: x in m.relationshipTypes <==> x in Rels(text))
    ensures r.pattern.Some? ==> var m := r.pattern.value;
      && m.cypherExamples == Take(CodeBlocks(text), 10)
      && m.whenToUse == LastNote(SplitAt(text, H2), WhenKeywords)
      && m.antiPattern == LastNote(SplitAt(text, H2), AntiKeywords)
    ensures fileName !in {"nav.adoc", "index.adoc"} && Title(text).Some? ==>
      r.practices
        == (if IsPracticePath(relPath) || Contains(Lower(relPath), "tips") then Tips(text, relPath) else [])
         + (if IsPracticePath(relPath) && Description(text) != "" then
              [BestPractice(Title(text).value, Description(text), "modeling", Take(CodeBlocks(text), 5), relPath, 1)]
            else [])
  {
    if fileName in {"nav.adoc", "index.adoc"} then PageResult(None, [])
    else match Title(text)
      case None => PageResult(None, [])
      case Some(title) =>
        var description := Description(text);
        var examples := CodeBlocks(text);
        var labels := SortedSet(Labels(text));
        var rels := SortedSet(Rels(text));
        var pattern :=
          if IsPatternPath(relPath) || (labels != [] && rels != []) then Some(PagePattern(title, text, relPath))
          else None;
        var tips := if IsPracticePath(relPath) || Contains(Lower(relPath), "tips") then Tips(text, relPath) else [];
        var whole := if IsPracticePath(relPath) && description != "" then
                       [BestPractice(title, description, "modeling", Take(examples, 5), relPath, 1)]
                     else [];
        PageResult(pattern, tips + whole)
  }

  /** Every practice a page yields has a description and points back at the page; a practice page with a description ends with the page itself. */
  lemma PagePracticesMeaning(fileName: string, relPath: string, text: string)
    ensures var ps := ParsePage(fileName, relPath, text).practices;
      forall k :: 0 <= k < |ps| ==> ps[k].description != "" && ps[k].sourceFile == relPath
    ensures fileName !in {"nav.adoc", "index.adoc"} && Title(text).Some? && IsPracticePath(relPath) && Description(text) != "" ==>
      var ps := ParsePage(fileName, relPath, text).practices;
      |ps| > 0 && ps[|ps| - 1].title == Title(text).value && ps[|ps| - 1].category == "modeling"
  {
    var ps := ParsePage(fileName, relPath, text).practices;
    if fileName !in {"nav.adoc", "index.adoc"} && Title(text).Some? {
      var tips := if IsPracticePath(relPath) || Contains(Lower(relPath), "tips") then Tips(text, relPath) else [];
      var whole := if IsPracticePath(relPath) && Description(text) != "" then
                     [BestPractice(Title(text).value, Description(text), "modeling", Take(CodeBlocks(text), 5), relPath, 1)]
                   else [];
      assert ps == tips + whole;
      forall k | 0 <= k < |ps|
        ensures ps[k].description != "" && ps[k].sourceFile == relPath
      {
        if k < |tips| {
          assert ps[k] == tips[k];
        } else {
          assert ps[k] == whole[k - |tips|];
        }
      }
    }
  }

  /** A page whose path names no keyword but whose text has both labels and relationship types is a pattern. */
  lemma CypherMakesPattern(fileName: string, relPath: string, text: string, p: nat, q: nat)
    requires fileName !in {"nav.adoc", "index.adoc"} && Title(text).Some?
    requires p < |text| && LabelAt(text, p) && q < |text| && RelAt(text, q)
    ensures ParsePage(fileName, relPath, text).pattern.Some?
  {
    assert LabelText(text, p) in Labels(text);
    assert RelText(text, q) in Rels(text);
  }

  // ---------------------------------------------------------------------------
  // Knowledge-base articles
  // ---------------------------------------------------------------------------

  /** The markup a knowledge-base description may not start with. */
  const KbSkip: seq<string> := ["[", ":", "=", "include", "image", "|", "----", "//", "ifdef", "endif"]

  /** The index of the first line starting with `= `, or `|lines|`. */
  function FirstTitleLine(lines: seq<string>): (i: nat)
    ensures i <= |lines| && (i < |lines| ==> StartsWith(lines[i], "= "))
    ensures forall k :: 0 <= k < i ==> !StartsWith(lines[k], "= ")
  {
    TitleFrom(lines, 0)
  }

  /** The search for the first `= ` line, from index `j` on. */
  function TitleFrom(lines: seq<string>, j: nat): (i: nat)
    requires j <= |lines|
    ensures j <= i <= |lines| && (i < |lines| ==> StartsWith(lines[i], "= "))
    ensures forall k :: j <= k < i ==> !StartsWith(lines[k], "= ")
    decreases |lines| - j
  {
    if j == |lines| || StartsWith(lines[j], "= ") then j else TitleFrom(lines, j + 1)
  }

  /** The first meaningful line after the first `= ` line, "" when there is none. */
  function DescriptionAfterTitle(lines: seq<string>, skip: seq<string>): (r: string)
    ensures r != "" ==> FirstTitleLine(lines) < |lines|
  {
    if FirstTitleLine(lines) == |lines| then "" else FirstMeaningful(lines[FirstTitleLine(lines) + 1..], skip, OnStripped)
  }

  /** The description of a knowledge-base article, skipping its markup lines. */
  function KbDescription(lines: seq<string>): string
  {
    DescriptionAfterTitle(lines, KbSkip)
  }

  /**
   * The loop of `parse_kb_articles` with its `in_content` flag. Later `= `
   * lines are skipped by the flag test; they start with `=`, a markup
   * prefix, so they are never taken anyway.
   */
  method KbDescriptionLoop(lines: seq<string>) returns (description: string)
    ensures description == KbDescription(lines)
  {
    description := "";
    var inContent := false;
    var i := 0;
    while i < |lines|
      invariant 0 <= i <= |lines|
      invariant inContent <==> FirstTitleLine(lines) < i
      invariant inContent ==> forall k :: FirstTitleLine(lines) < k < i ==> !Meaningful(lines[k], KbSkip, OnStripped)
    {
      var line := lines[i];
      if StartsWith(line, "= ") {
        if !inContent {
          assert FirstTitleLine(lines) == i;
        } else {
          TitleLineNotMeaningful(line);
        }
        inContent := true;
        i := i + 1;
        continue;
      }
      if inContent {
        var stripped := Strip(line);
        if Meaningful(line, KbSkip, OnStripped) {
          description := stripped;
          KbFound(lines, i, KbSkip);
          return;
        }
      }
      i := i + 1;
    }
    KbNotFound(lines, inContent, KbSkip);
  }

  lemma TitleLineNotMeaningful(line: string)
    requires StartsWith(line, "= ")
    ensures !Meaningful(line, KbSkip, OnStripped)
  {
    assert !IsSpace(line[0]);
    assert Strip(line) == RStrip(line);
    StripShape(line);
    if Strip(line) != "" {
      assert Strip(line)[0] == '=';
      assert StartsWith(Strip(line), KbSkip[2]);
    }
  }

  lemma {:induction false} KbFound(lines: seq<string>, i: nat, skip: seq<string>)
    requires FirstTitleLine(lines) < i < |lines| && Meaningful(lines[i], skip, OnStripped)
    requires forall k :: FirstTitleLine(lines) < k < i ==> !Meaningful(lines[k], skip, OnStripped)
    ensures Strip(lines[i]) == DescriptionAfterTitle(lines, skip)
  {
    FoundAfter(lines, FirstTitleLine(lines), i, skip);
    DescriptionAfterUnfold(lines, skip);
  }

  lemma DescriptionAfterUnfold(lines: seq<string>, skip: seq<string>)
    requires FirstTitleLine(lines) < |lines|
    ensures DescriptionAfterTitle(lines, skip) == FirstMeaningful(lines[FirstTitleLine(lines) + 1..], skip, OnStripped)
  {
  }

  /** A search over `lines[t + 1..]` finds the first meaningful line after `t`. */
  lemma {:induction false} FoundAfter(lines: seq<string>, t: nat, i: nat, skip: seq<string>)
    requires t < i < |lines| && Meaningful(lines[i], skip, OnStripped)
    requires forall k :: t < k < i ==> !Meaningful(lines[k], skip, OnStripped)
    ensures FirstMeaningful(lines[t + 1..], skip, OnStripped) == Strip(lines[i])
  {
    var rest := lines[t + 1..];
    assert rest[i - t - 1] == lines[i];
    forall j | 0 <= j < i - t - 1 ensures !Meaningful(rest[j], skip, OnStripped) {
      assert rest[j] == lines[t + 1 + j];
    }
    FirstIndexIs(rest, skip, OnStripped, i - t - 1);
  }

  lemma {:induction false} KbNotFound(lines: seq<string>, inContent: bool, skip: seq<string>)
    requires inContent <==> FirstTitleLine(lines) < |lines|
    requires inContent ==> forall k :: FirstTitleLine(lines) < k < |lines| ==> !Meaningful(lines[k], skip, OnStripped)
    ensures DescriptionAfterTitle(lines, skip) == ""
  {
    var t := FirstTitleLine(lines);
    if t < |lines| {
      var rest := lines[t + 1..];
      forall j | 0 <= j < |rest| ensures !Meaningful(rest[j], skip, OnStripped) {
        assert rest[j] == lines[t + 1 + j];
      }
    }
  }

  /** The keyword groups of the knowledge-base categories, in the order they are tried. */
  const KbGroups: seq<seq<string>> := [
    ["cypher", "query", "match", "return"],
    ["model", "schema", "label", "relationship"],
    ["performance", "memory", "index", "cache"],
    ["security", "auth", "ssl", "encrypt"],
    ["import", "load", "csv", "export"]]

  const KbCategories: seq<string> := ["cypher", "modeling", "performance", "security", "data-import"]

  /** The first group, from `g` on, one of whose keywords occurs in `lower`; 5 when none does. */
  function FirstGroup(lower: string, g: nat): (r: nat)
    requires g <= 5
    ensures g <= r <= 5 && (r < 5 ==> ContainsAny(lower, KbGroups[r]))
    ensures forall k :: g <= k < r ==> !ContainsAny(lower, KbGroups[k])
    decreases 5 - g
  {
    if g == 5 then 5 else if ContainsAny(lower, KbGroups[g]) then g else FirstGroup(lower, g + 1)
  }

  /** The category chain of `parse_kb_articles` over the title and the first 500 characters. */
  function KbCategory(title: string, text: string): (r: string)
    ensures var lower := Lower(title + Take(text, 500));
      r == "general" <==> forall g :: 0 <= g < 5 ==> !ContainsAny(lower, KbGroups[g])
    ensures var g := FirstGroup(Lower(title + Take(text, 500)), 0); g < 5 ==> r == KbCategories[g]
  {
    var g := FirstGroup(Lower(title + Take(text, 500)), 0);
    if g < 5 then KbCategories[g] else "general"
  }

  /**
   * One article: none without a `= ` title or a description; otherwise
   * the description cut to 500 characters and at most three examples.
   */
  function ParseKbArticle(text: string, sourceFile: string): (r: Option<BestPractice>)
    ensures r.Some? <==> Title(text).Some? && KbDescription(Split(text, '\n')) != ""
    ensures r.Some? ==> var b := r.value;
      && b.title == Title(text).value && b.description == Take(KbDescription(Split(text, '\n')), 500)
      && |b.description| <= 500 && b.description != ""
      && b.category == KbCategory(b.title, text) && b.cypherExamples == Take(CodeBlocks(text), 3)
      && b.sourceFile == sourceFile && b.authorityLevel == 1
  {
    match Title(text)
    case None => None
    case Some(title) =>
      var description := KbDescription(Split(text, '\n'));
      if description == "" then None
      else Some(BestPractice(title, Take(description, 500), KbCategory(title, text),
                             Take(CodeBlocks(text), 3), sourceFile, 1))
  }
}
