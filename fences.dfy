/**
 * Markdown code-fence removal, applied both to the scorer's Socratic reply
 * and to the Cypher the retriever asks the LLM for.
 */
module Fences {
  import opened Text
  import opened Seqs

  const Fence := "```"

  predicate IsFenceLine(line: string) { StartsWith(line, Fence) }

  function KeepLine(line: string): bool { !IsFenceLine(line) }

  /**
   * When the text opens with a fence, every line starting with one is
   * dropped and the remaining lines are re-joined and stripped.
   */
  function DropFences(text: string): string
  {
    if StartsWith(text, Fence) then Strip(Join(Filter(Split(text, '\n'), KeepLine), "\n")) else text
  }

  /** A reply as the code reads it: stripped, then unfenced. */
  function CleanReply(content: string): string
  {
    DropFences(Strip(content))
  }

  /** A body wrapped in an opening fence (with an info tag such as `json`) and a closing one. */
  function Fenced(tag: string, body: string): string
  {
    Fence + tag + "\n" + body + "\n" + Fence
  }

  /**
   * Unfencing recovers the stripped body of a fenced reply, provided no line
   * of the body itself starts with a fence.
   */
  lemma CleanFenced(tag: string, body: string)
    requires '\n' !in tag
    requires NoFenceLines(Split(body, '\n'))
    ensures CleanReply(Fenced(tag, body)) == Strip(body)
  {
    FencedShape(tag, body);
    FencedLines(tag, body);
    DropFenceLines(Fence + tag, Split(body, '\n'));
    JoinSplit(body, '\n');
  }

  predicate NoFenceLines(lines: seq<string>)
  {
    forall k :: 0 <= k < |lines| ==> !IsFenceLine(lines[k])
  }

  lemma FencedShape(tag: string, body: string)
    ensures Strip(Fenced(tag, body)) == Fenced(tag, body)
    ensures StartsWith(Fenced(tag, body), Fence)
    ensures IsFenceLine(Fence + tag)
  {
    var f := Fenced(tag, body);
    FencedEnds(tag, body);
    StripOfUnpadded(f);
  }

  lemma FencedEnds(tag: string, body: string)
    ensures var f := Fenced(tag, body); |f| >= 3 && f[..3] == Fence && f[0] == '`' && f[|f| - 1] == '`'
    ensures (Fence + tag)[..3] == Fence
  {
    var f := Fenced(tag, body);
    assert f == Fence + (tag + "\n" + body + "\n" + Fence);
    assert f[|f| - 3..] == Fence;
  }

  lemma FencedLines(tag: string, body: string)
    requires '\n' !in tag
    ensures Split(Fenced(tag, body), '\n') == [Fence + tag] + Split(body, '\n') + [Fence]
  {
    var head := Fence + tag;
    assert Fenced(tag, body) == head + ['\n'] + (body + ['\n'] + Fence);
    SplitAppend(head, body + ['\n'] + Fence, '\n');
    SplitAppend(body, Fence, '\n');
    assert FindChar(head, '\n', 0) == -1;
    assert FindChar(Fence, '\n', 0) == -1;
  }

  lemma DropFenceLines(head: string, lines: seq<string>)
    requires IsFenceLine(head)
    requires NoFenceLines(lines)
    ensures Filter([head] + lines + [Fence], KeepLine) == lines
  {
    FilterAppend([head] + lines, [Fence], KeepLine);
    FilterAppend([head], lines, KeepLine);
    FilterAll(lines, KeepLine);
    assert Filter([head], KeepLine) == [] by {
      assert [head][..0] == [];
    }
    assert Filter([Fence], KeepLine) == [] by {
      assert [Fence][..0] == [];
    }
  }
}
