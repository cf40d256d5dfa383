/**
 * Matching pre-computed example embeddings to `CypherExample` nodes
 * (data/scripts/load_embeddings.py): whitespace normalisation, the
 * ` Cypher: ` marker lookup, matching and the 50-entry write chunks.
 * Embedding rows are named by their index; the rows themselves, the
 * database reads and the writes are outside the model (the chunks are
 * returned instead of written).
 */
module LoadEmbeddings {
  import opened Wrappers
  import opened Text
  import opened Seqs

  // ---------------------------------------------------------------------------
  // normalize_ws
  // ---------------------------------------------------------------------------

  /** `" ".join(s.split())`. */
  function NormalizeWs(s: string): string
  {
    Join(Words(s), " ")
  }

  /** No whitespace at either end, only plain spaces inside, never two in a row. */
  predicate Normal(r: string)
  {
    && (r == [] || (!IsSpace(r[0]) && !IsSpace(r[|r| - 1])))
    && (forall i :: 0 <= i < |r| && IsSpace(r[i]) ==> r[i] == ' ')
    && (forall i :: 0 <= i < |r| - 1 ==> !(IsSpace(r[i]) && IsSpace(r[i + 1])))
  }

  /** Stripping leading whitespace looks through an all-space prefix. */
  lemma {:induction false} LStripSpaces(x: string, y: string)
    requires AllSpace(x)
    ensures LStrip(x + y) == LStrip(y)
    decreases |x|
  {
    if |x| > 0 {
      assert (x + y)[1..] == x[1..] + y;
      LStripSpaces(x[1..], y);
    } else {
      assert x + y == y;
    }
  }

  /** ... and stops inside a prefix holding a non-space. */
  lemma {:induction false} LStripWord(x: string, y: string)
    requires LStrip(x) != ""
    ensures LStrip(x + y) == LStrip(x) + y
    decreases |x|
  {
    if |x| > 0 && IsSpace(x[0]) {
      assert (x + y)[1..] == x[1..] + y;
      LStripWord(x[1..], y);
    }
  }

  /** A word ending before the end of `t`, or at a space, ends at the same place in `t + u`. */
  lemma {:induction false} WordEndAppend(t: string, u: string, i: nat)
    requires i <= |t|
    requires WordEnd(t, i) < |t| || u == [] || IsSpace(u[0])
    ensures WordEnd(t + u, i) == WordEnd(t, i)
    decreases |t| - i
  {
    if i < |t| && !IsSpace(t[i]) {
      WordEndAppend(t, u, i + 1);
    }
  }

  /** `Words` depends only on the text after its leading whitespace. */
  lemma WordsSameStrip(x: string, y: string)
    requires LStrip(x) == LStrip(y)
    ensures Words(x) == Words(y)
  {
  }

  /** The first word of a text that is not blank, and the rest. */
  lemma WordsStep(s: string)
    requires LStrip(s) != ""
    ensures var t := LStrip(s); var j := WordEnd(t, 0);
      0 < j && Words(s) == [t[..j]] + Words(t[j..])
  {
  }

  /** A non-empty run of whitespace separates the words on its two sides. */
  lemma {:induction false} WordsGap(a: string, w: string, b: string)
    requires w != [] && AllSpace(w)
    ensures Words(a + w + b) == Words(a) + Words(b)
    decreases |a|
  {
    var l := LStrip(a);
    if l == "" {
      WordsGapBlank(a, w, b);
    } else {
      var j := WordEnd(l, 0);
      WordsGapFirst(a, w, b);
      WordsStep(a);
      WordsGap(l[j..], w, b);
      ConsAssoc(l[..j], Words(l[j..]), Words(b));
    }
  }

  /** After blank text, a gap adds no word. */
  lemma WordsGapBlank(a: string, w: string, b: string)
    requires AllSpace(w) && LStrip(a) == ""
    ensures Words(a + w + b) == Words(a) + Words(b)
  {
    BlankAllSpace(a);
    assert a + w + b == a + (w + b);
    LStripSpaces(a, w + b);
    LStripSpaces(w, b);
    WordsSameStrip(a + w + b, b);
    assert Words(a) == [];
  }

  /** Text with nothing left after `lstrip` is whitespace only. */
  lemma {:induction false} BlankAllSpace(a: string)
    requires LStrip(a) == ""
    ensures AllSpace(a)
    decreases |a|
  {
    if |a| > 0 {
      BlankAllSpace(a[1..]);
      assert forall i :: 1 <= i < |a| ==> a[i] == a[1..][i - 1];
    }
  }

  /** The first word of `a` is the first word of `a + w + b`, when `w` starts with whitespace. */
  lemma WordsGapFirst(a: string, w: string, b: string)
    requires w != [] && AllSpace(w) && LStrip(a) != ""
    ensures var l := LStrip(a); var j := WordEnd(l, 0);
      Words(a + w + b) == [l[..j]] + Words(l[j..] + w + b)
  {
    var s := a + w + b;
    var l := LStrip(a);
    var j := WordEnd(l, 0);
    GapStrip(a, w, b);
    WordsStep(s);
    SliceAppend(l, w + b, j);
    assert l[j..] + (w + b) == l[j..] + w + b;
  }

  /** Where `a + w + b` starts after its whitespace, and where its first word ends. */
  lemma GapStrip(a: string, w: string, b: string)
    requires w != [] && AllSpace(w) && LStrip(a) != ""
    ensures var l := LStrip(a);
      LStrip(a + w + b) == l + (w + b) && WordEnd(l + (w + b), 0) == WordEnd(l, 0)
  {
    assert a + w + b == a + (w + b);
    LStripWord(a, w + b);
    WordEndAppend(LStrip(a), w + b, 0);
  }

  lemma SliceAppend(l: string, u: string, j: nat)
    requires j <= |l|
    ensures (l + u)[..j] == l[..j] && (l + u)[j..] == l[j..] + u
  {
  }

  lemma ConsAssoc(x: string, ys: seq<string>, zs: seq<string>)
    ensures ([x] + ys) + zs == [x] + (ys + zs)
  {
  }

  /** A single word splits into itself. */
  lemma WordsOfWord(x: string)
    requires x != [] && NoSpace(x)
    ensures Words(x) == [x]
  {
    assert LStrip(x) == x;
    WordEndWhole(x, 0);
    WordsStep(x);
    assert x[..|x|] == x;
    assert Words(x[|x|..]) == [] by { assert x[|x|..] == []; }
  }

  lemma {:induction false} WordEndWhole(x: string, i: nat)
    requires i <= |x| && NoSpace(x)
    ensures WordEnd(x, i) == |x|
    decreases |x| - i
  {
    if i < |x| {
      WordEndWhole(x, i + 1);
    }
  }

  /** Words joined by single spaces split back into the same words. */
  lemma {:induction false} WordsJoin(ws: seq<string>)
    requires forall k :: 0 <= k < |ws| ==> ws[k] != "" && NoSpace(ws[k])
    ensures Words(Join(ws, " ")) == ws
    decreases |ws|
  {
    if |ws| == 1 {
      WordsOfWord(ws[0]);
    } else if |ws| > 1 {
      WordsJoin(ws[1..]);
      WordsJoinCons(ws);
    }
  }

  lemma WordsJoinCons(ws: seq<string>)
    requires |ws| > 1 && forall k :: 0 <= k < |ws| ==> ws[k] != "" && NoSpace(ws[k])
    requires Words(Join(ws[1..], " ")) == ws[1..]
    ensures Words(Join(ws, " ")) == ws
  {
    assert Join(ws, " ") == ws[0] + " " + Join(ws[1..], " ");
    WordThenText(ws[0], Join(ws[1..], " "));
    assert [ws[0]] + ws[1..] == ws;
  }

  lemma WordThenText(x: string, y: string)
    requires x != [] && NoSpace(x)
    ensures Words(x + " " + y) == [x] + Words(y)
  {
    WordsGap(x, " ", y);
    WordsOfWord(x);
  }

  /** Words joined by single spaces make a normal text. */
  lemma {:induction false} JoinNormal(ws: seq<string>)
    requires forall k :: 0 <= k < |ws| ==> ws[k] != "" && NoSpace(ws[k])
    ensures Normal(Join(ws, " "))
    ensures Join(ws, " ") == [] <==> ws == []
    decreases |ws|
  {
    if |ws| > 1 {
      JoinNormal(ws[1..]);
      var x, y := ws[0], Join(ws[1..], " ");
      var r := x + " " + y;
      assert r[0] == x[0] && r[|r| - 1] == y[|y| - 1];
      forall i | 0 <= i < |r| && IsSpace(r[i]) ensures r[i] == ' ' {
        if i > |x| { assert r[i] == y[i - |x| - 1]; }
      }
      forall i | 0 <= i < |r| - 1 ensures !(IsSpace(r[i]) && IsSpace(r[i + 1])) {
        if i > |x| { assert r[i] == y[i - |x| - 1] && r[i + 1] == y[i - |x|]; }
        else if i == |x| { assert r[i + 1] == y[0]; }
        else if i == |x| - 1 { assert r[i] == x[i]; }
        else { assert r[i] == x[i]; }
      }
    }
  }

  /**
   * The normal form: no surrounding whitespace, single spaces only, and a
   * second normalisation changes nothing.
   */
  lemma NormalizeWsNormal(s: string)
    ensures Normal(NormalizeWs(s))
    ensures NormalizeWs(NormalizeWs(s)) == NormalizeWs(s)
  {
    JoinNormal(Words(s));
    WordsJoin(Words(s));
  }

  /** Texts differing only in the whitespace of one gap normalise to the same key. */
  lemma NormalizeWsGap(a: string, w1: string, w2: string, b: string)
    requires w1 != [] && AllSpace(w1) && w2 != [] && AllSpace(w2)
    ensures NormalizeWs(a + w1 + b) == NormalizeWs(a + w2 + b)
  {
    WordsGap(a, w1, b);
    WordsGap(a, w2, b);
  }

  // ---------------------------------------------------------------------------
  // set_example_embeddings
  // ---------------------------------------------------------------------------

  /** An embedding-metadata entry of type `cypher_example`: its text and its row. */
  datatype MetaEntry = MetaEntry(text: string, embeddingIndex: nat)

  /** A `CypherExample` node read back from the database. */
  datatype ExampleNode = ExampleNode(eid: string, cypher: string)

  /** A node to receive the embedding in the given row. */
  datatype Match = Match(eid: string, embeddingIndex: nat)

  const Marker := " Cypher: "

  /** The lookup key of a metadata text: the normalised text after the first marker. */
  function MarkerKey(text: string): (r: Option<string>)
    ensures r.None? <==> !Contains(text, Marker)
    ensures r.Some? ==> Normal(r.value)
  {
    ContainsIffFound(text, Marker);
    var idx := IndexOf(text, Marker, 0);
    if idx == -1 then None
    else
      NormalizeWsNormal(text[idx + |Marker|..]);
      Some(NormalizeWs(text[idx + |Marker|..]))
  }

  /** `cypher_to_vec` after the loop: each key bound to the row of its last entry. */
  function KeyMap(entries: seq<MetaEntry>, keyOf: string -> Option<string>): map<string, nat>
    decreases |entries|
  {
    if |entries| == 0 then map[]
    else
      var m := KeyMap(entries[..|entries| - 1], keyOf);
      var e := entries[|entries| - 1];
      match keyOf(e.text)
      case Some(k) => m[k := e.embeddingIndex]
      case None => m
  }

  lemma KeyMapStep(entries: seq<MetaEntry>, i: nat, keyOf: string -> Option<string>)
    requires i < |entries|
    ensures KeyMap(entries[..i + 1], keyOf) ==
      match keyOf(entries[i].text)
      case Some(k) => KeyMap(entries[..i], keyOf)[k := entries[i].embeddingIndex]
      case None => KeyMap(entries[..i], keyOf)
  {
    assert entries[..i + 1][..i] == entries[..i];
  }

  /** The last entry with key `k`, or -1. */
  function LastWithKey(entries: seq<MetaEntry>, k: string, keyOf: string -> Option<string>): (i: int)
    ensures -1 <= i < |entries|
    ensures i >= 0 ==> keyOf(entries[i].text) == Some(k)
    ensures forall j :: i < j < |entries| ==> keyOf(entries[j].text) != Some(k)
    decreases |entries|
  {
    if |entries| == 0 then -1
    else if keyOf(entries[|entries| - 1].text) == Some(k) then |entries| - 1
    else LastWithKey(entries[..|entries| - 1], k, keyOf)
  }

  /** A key is bound exactly when some entry has it, and the last such entry wins. */
  lemma {:induction false} KeyMapLastWins(entries: seq<MetaEntry>, k: string, keyOf: string -> Option<string>)
    ensures k in KeyMap(entries, keyOf) <==> LastWithKey(entries, k, keyOf) >= 0
    ensures k in KeyMap(entries, keyOf) ==>
      KeyMap(entries, keyOf)[k] == entries[LastWithKey(entries, k, keyOf)].embeddingIndex
    decreases |entries|
  {
    if |entries| > 0 {
      var init := entries[..|entries| - 1];
      KeyMapLastWins(init, k, keyOf);
      if keyOf(entries[|entries| - 1].text) != Some(k) {
        assert LastWithKey(entries, k, keyOf) == LastWithKey(init, k, keyOf);
        if LastWithKey(init, k, keyOf) >= 0 {
          assert init[LastWithKey(init, k, keyOf)] == entries[LastWithKey(init, k, keyOf)];
        }
      }
    }
  }

  /** The nodes whose normalised Cypher has an embedding, in the order they were read. */
  function Matches(nodes: seq<ExampleNode>, m: map<string, nat>, norm: string -> string): (r: seq<Match>)
    ensures |r| <= |nodes|
    decreases |nodes|
  {
    if |nodes| == 0 then []
    else
      var init := Matches(nodes[..|nodes| - 1], m, norm);
      var n := nodes[|nodes| - 1];
      var key := norm(n.cypher);
      if key in m then init + [Match(n.eid, m[key])] else init
  }

  /** Every node whose key is bound is matched, with the row bound to its key; nothing else is. */
  lemma {:induction false} MatchesMeaning(nodes: seq<ExampleNode>, m: map<string, nat>, norm: string -> string)
    ensures forall j :: 0 <= j < |nodes| && norm(nodes[j].cypher) in m ==>
      Match(nodes[j].eid, m[norm(nodes[j].cypher)]) in Matches(nodes, m, norm)
    ensures forall x :: x in Matches(nodes, m, norm) ==>
      exists j :: 0 <= j < |nodes| && nodes[j].eid == x.eid && norm(nodes[j].cypher) in m
                  && x.embeddingIndex == m[norm(nodes[j].cypher)]
    decreases |nodes|
  {
    if |nodes| > 0 {
      var init := nodes[..|nodes| - 1];
      var last := nodes[|nodes| - 1];
      MatchesMeaning(init, m, norm);
      forall j | 0 <= j < |nodes| - 1 ensures nodes[j] == init[j] { }
      forall x | x in Matches(nodes, m, norm)
        ensures exists j :: 0 <= j < |nodes| && nodes[j].eid == x.eid && norm(nodes[j].cypher) in m
                            && x.embeddingIndex == m[norm(nodes[j].cypher)]
      {
        if x in Matches(init, m, norm) {
          var j :| 0 <= j < |init| && init[j].eid == x.eid && norm(init[j].cypher) in m
                   && x.embeddingIndex == m[norm(init[j].cypher)];
          assert nodes[j] == init[j];
        } else {
          assert x == Match(last.eid, m[norm(last.cypher)]);
        }
      }
    }
  }

  const ChunkSize := 50

  /**
   * The first loop of `set_example_embeddings`: fills `cypher_to_vec`,
   * with `keyOf` the key read from an entry's text (`MarkerKey`).
   */
  method BuildKeyMap(entries: seq<MetaEntry>, keyOf: string -> Option<string>) returns (cypherToVec: map<string, nat>)
    ensures cypherToVec == KeyMap(entries, keyOf)
  {
    cypherToVec := map[];
    var i := 0;
    while i < |entries|
      invariant 0 <= i <= |entries|
      invariant cypherToVec == KeyMap(entries[..i], keyOf)
    {
      KeyMapStep(entries, i, keyOf);
      var key := keyOf(entries[i].text);
      if key.Some? {
        cypherToVec := cypherToVec[key.value := entries[i].embeddingIndex];
      }
      i := i + 1;
    }
    assert entries[..i] == entries;
  }

  /** The second loop: the nodes whose normalised Cypher is a key. */
  method FindMatches(nodes: seq<ExampleNode>, cypherToVec: map<string, nat>) returns (matches: seq<Match>)
    ensures matches == Matches(nodes, cypherToVec, NormalizeWs)
  {
    matches := [];
    var i := 0;
    while i < |nodes|
      invariant 0 <= i <= |nodes|
      invariant matches == Matches(nodes[..i], cypherToVec, NormalizeWs)
    {
      assert nodes[..i + 1][..i] == nodes[..i];
      var key := NormalizeWs(nodes[i].cypher);
      if key in cypherToVec {
        matches := matches + [Match(nodes[i].eid, cypherToVec[key])];
      }
      i := i + 1;
    }
    assert nodes[..i] == nodes;
  }

  /** The write loop: `matches[i:i + 50]` for `i` stepping by 50. */
  method ChunkMatches(matches: seq<Match>) returns (written: seq<seq<Match>>)
    ensures written == Chunks(matches, ChunkSize)
  {
    written := [];
    var i := 0;
    while i < |matches|
      invariant 0 <= i <= |matches|
      invariant written + Chunks(matches[i..], ChunkSize) == Chunks(matches, ChunkSize)
      decreases |matches| - i
    {
      var end := if i + ChunkSize <= |matches| then i + ChunkSize else |matches|;
      var chunk := matches[i..end];
      ChunkStep(matches, i, end);
      written := written + [chunk];
      i := end;
    }
  }

  lemma ChunkStep(matches: seq<Match>, i: nat, end: nat)
    requires i < |matches| && end == (if i + ChunkSize <= |matches| then i + ChunkSize else |matches|)
    ensures Chunks(matches[i..], ChunkSize) == [matches[i..end]] + Chunks(matches[end..], ChunkSize)
  {
    var rest := matches[i..];
    if |rest| > ChunkSize {
      assert rest[..ChunkSize] == matches[i..end];
      assert rest[ChunkSize..] == matches[end..];
    } else {
      assert rest == matches[i..end];
      assert matches[end..] == [];
    }
  }

  /**
   * `set_example_embeddings`: the key map, the matches, and the chunks written
   * back; it returns the number of matches and of distinct keys.
   */
  method SetExampleEmbeddings(entries: seq<MetaEntry>, nodes: seq<ExampleNode>)
    returns (written: seq<seq<Match>>, matched: nat, distinct: nat)
    ensures written == Chunks(Matches(nodes, KeyMap(entries, MarkerKey), NormalizeWs), ChunkSize)
    ensures matched == |Matches(nodes, KeyMap(entries, MarkerKey), NormalizeWs)|
    ensures distinct == |KeyMap(entries, MarkerKey).Keys|
  {
    var cypherToVec := BuildKeyMap(entries, MarkerKey);
    var matches := FindMatches(nodes, cypherToVec);
    written := ChunkMatches(matches);
    matched := |matches|;
    distinct := |cypherToVec.Keys|;
  }
}
