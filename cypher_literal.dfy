/**
 * Single-quoted Cypher string literals, as the two loading scripts write
 * them: `str.replace` chains over one-character patterns, and the reading
 * Neo4j gives the body of a literal for the escapes those chains produce.
 */
module CypherLiteral {
  import opened Wrappers
  import opened Text

  /** The per-character rewrite of `s.replace(a, b)` for a one-character `a`. */
  function Replacer(a: char, b: string): char -> string
  {
    c => if c == a then b else [c]
  }

  /** `s.replace(a, b)` for a one-character `a`. */
  function ReplaceWith(s: string, a: char, b: string): string
  {
    ConcatMap(s, Replacer(a, b))
  }

  /** Rewriting twice is rewriting once with the composed rewrite. */
  lemma {:induction false} ConcatMapCompose(s: string, f: char -> string, g: char -> string, h: char -> string)
    requires forall c :: c in s ==> h(c) == ConcatMap(f(c), g)
    ensures ConcatMap(ConcatMap(s, f), g) == ConcatMap(s, h)
    decreases |s|
  {
    if |s| > 0 {
      ConcatMapAppend(f(s[0]), ConcatMap(s[1..], f), g);
      assert forall c :: c in s[1..] ==> c in s;
      ConcatMapCompose(s[1..], f, g, h);
    }
  }

  /** The body of a literal read back: `\\`, `\'` and `\n` decoded; None at an unescaped quote or another escape. */
  function Unescape(t: string): Option<string>
    decreases |t|
  {
    if |t| == 0 then Some("")
    else if t[0] == '\'' then None
    else if t[0] == '\\' then
      if |t| < 2 then None
      else
        var d := if t[1] == 'n' then Some('\n') else if t[1] == '\\' then Some('\\')
                 else if t[1] == '\'' then Some('\'') else None;
        if d.None? then None else Prepend([d.value], Unescape(t[2..]))
    else Prepend([t[0]], Unescape(t[1..]))
  }

  function Prepend(d: string, o: Option<string>): Option<string>
  {
    if o.None? then None else Some(d + o.value)
  }

  /** `tok` is a piece of literal body that reads back as `d`. */
  predicate TokenFor(tok: string, d: string)
  {
    || (tok == ['\\', '\\'] && d == ['\\'])
    || (tok == ['\\', '\''] && d == ['\''])
    || (tok == ['\\', 'n'] && d == ['\n'])
    || (|tok| == 1 && tok[0] != '\\' && tok[0] != '\'' && d == tok)
    || (tok == [] && d == [])
  }

  lemma TokenDecodes(tok: string, d: string, rest: string)
    requires TokenFor(tok, d)
    ensures Unescape(tok + rest) == Prepend(d, Unescape(rest))
  {
    var t := tok + rest;
    if |tok| == 2 {
      assert t[2..] == rest;
    } else if |tok| == 1 {
      assert t[1..] == rest;
      assert t[0] == tok[0] && d == [t[0]];
    } else {
      assert t == rest;
      var o := Unescape(rest);
      if o.Some? {
        assert d + o.value == o.value;
      }
    }
  }

  /** A text written token by token reads back as the concatenation of what the tokens stand for. */
  lemma {:induction false} UnescapeConcatMap(s: string, enc: char -> string, dec: char -> string)
    requires forall c :: c in s ==> TokenFor(enc(c), dec(c))
    ensures Unescape(ConcatMap(s, enc)) == Some(ConcatMap(s, dec))
    decreases |s|
  {
    if |s| > 0 {
      assert forall c :: c in s[1..] ==> c in s;
      UnescapeConcatMap(s[1..], enc, dec);
      TokenDecodes(enc(s[0]), dec(s[0]), ConcatMap(s[1..], enc));
    }
  }

  /** A character no rewrite produces does not occur in the rewritten text. */
  lemma {:induction false} ConcatMapAvoids(s: string, f: char -> string, x: char)
    requires forall c :: c in s ==> x !in f(c)
    ensures x !in ConcatMap(s, f)
    decreases |s|
  {
    if |s| > 0 {
      assert forall c :: c in s[1..] ==> c in s;
      ConcatMapAvoids(s[1..], f, x);
    }
  }

  /** Every character kept as it is. */
  function Keep(c: char): string
  {
    [c]
  }

  lemma {:induction false} ConcatMapKeep(s: string)
    ensures ConcatMap(s, Keep) == s
    decreases |s|
  {
    if |s| > 0 {
      ConcatMapKeep(s[1..]);
      assert s == [s[0]] + s[1..];
    }
  }

  /** In a body that reads back, every quote follows a backslash. */
  lemma {:induction false} DecodableQuotes(t: string)
    requires Unescape(t).Some?
    ensures forall i :: 0 <= i < |t| && t[i] == '\'' ==> 0 < i && t[i - 1] == '\\'
    decreases |t|
  {
    if |t| > 0 {
      if t[0] == '\\' {
        DecodableQuotes(t[2..]);
        forall i | 2 <= i < |t| && t[i] == '\'' ensures t[i - 1] == '\\' {
          assert t[2..][i - 2] == t[i];
          if i > 2 {
            assert t[2..][i - 3] == t[i - 1];
          } else {
            assert false;
          }
        }
      } else {
        DecodableQuotes(t[1..]);
        forall i | 1 <= i < |t| && t[i] == '\'' ensures t[i - 1] == '\\' {
          assert t[1..][i - 1] == t[i];
          if i > 1 {
            assert t[1..][i - 2] == t[i - 1];
          } else {
            assert false;
          }
        }
      }
    }
  }
}
