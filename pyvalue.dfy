/**
 * The dictionaries that flow between the retriever, the pruner, the
 * visualizer and the agent: property maps read from Neo4j records. A value is
 * a string, an integer, a float (kept as its Python `repr` text), a boolean,
 * `None`, a list or a nested dictionary.
 */
module PyValue {
  import opened Wrappers
  import opened Text

  datatype Value =
    | Str(s: string)
    | Int(i: int)
    | Float(repr: string)
    | Bool(b: bool)
    | Null
    | List(items: seq<Value>)
    | Obj(fields: seq<(string, Value)>)

  /** A Python dict as its entries in insertion order. */
  type Dict = seq<(string, Value)>

  /**
   * The subgraph dict passed between the retriever, the pruner, the
   * visualizer and the agent: its "nodes" and "edges" lists, empty when absent.
   */
  datatype Subgraph = Subgraph(nodes: seq<Dict>, edges: seq<Dict>)

  /** `d.get(k)`: the value stored under `k`, if any. */
  function Get(d: Dict, k: string): (r: Option<Value>)
    ensures r.Some? <==> exists i :: 0 <= i < |d| && d[i].0 == k
    ensures r.Some? ==> exists i :: 0 <= i < |d| && d[i] == (k, r.value)
    decreases |d|
  {
    if |d| == 0 then None
    else if d[0].0 == k then Some(d[0].1)
    else
      var r := Get(d[1..], k);
      assert forall i :: 0 < i < |d| ==> d[i] == d[1..][i - 1];
      r
  }

  /** The keys of a dict, in order. */
  function Keys(d: Dict): seq<string>
  {
    seq(|d|, i requires 0 <= i < |d| => d[i].0)
  }

  /** A dict never holds a key twice. */
  predicate DistinctKeys(d: Dict)
  {
    forall i, j :: 0 <= i < j < |d| ==> d[i].0 != d[j].0
  }

  /** Python truthiness. A float is false exactly when its repr is a zero. */
  predicate Truthy(v: Value)
  {
    match v
    case Str(s) => s != ""
    case Int(i) => i != 0
    case Float(t) => t != "0.0" && t != "-0.0"
    case Bool(b) => b
    case Null => false
    case List(items) => items != []
    case Obj(fields) => fields != []
  }

  // ---------------------------------------------------------------------------
  // `repr` of a string
  // ---------------------------------------------------------------------------

  /** The quote `repr` delimits a string with: `"` when it holds `'` but no `"`. */
  function ReprQuote(s: string): (q: char)
    ensures q == '"' <==> '\'' in s && '"' !in s
    ensures q == '"' || q == '\''
  {
    if '\'' in s && '"' !in s then '"' else '\''
  }

  /** The characters `repr` writes as `\xhh`: the ASCII controls other than tab, newline and CR, and DEL. */
  predicate HexEscaped(c: char)
  {
    (c as int < 32 && c != '\t' && c != '\n' && c != '\r') || c as int == 127
  }

  /** A lower-case hex digit, as `repr` writes them. */
  function ReprHexDigit(d: nat): char
    requires d < 16
  {
    if d < 10 then ('0' as int + d) as char else ('a' as int + d - 10) as char
  }

  function ReprHexValue(c: char): Option<nat>
  {
    if '0' <= c <= '9' then Some(c as int - '0' as int)
    else if 'a' <= c <= 'f' then Some(c as int - 'a' as int + 10)
    else None
  }

  /**
   * How `repr` writes one character of a string delimited by `q`: the
   * backslash and the delimiter are escaped, tab, newline and CR get their
   * letter escapes, the other ASCII controls a hex escape, and every other
   * character is written as it is.
   */
  function ReprChar(c: char, q: char): (r: string)
    requires q == '"' || q == '\''
    ensures |r| >= 1
    ensures '\n' !in r && '\r' !in r
    ensures r == [c] <==> c != '\\' && c != q && c != '\t' && c != '\n' && c != '\r' && !HexEscaped(c)
  {
    if c == '\\' then "\\\\"
    else if c == q then ['\\', q]
    else if c == '\t' then "\\t"
    else if c == '\n' then "\\n"
    else if c == '\r' then "\\r"
    else if HexEscaped(c) then ['\\', 'x', ReprHexDigit(c as int / 16), ReprHexDigit(c as int % 16)]
    else [c]
  }

  /** The text between the quotes of `repr(s)`. */
  function ReprBody(s: string, q: char): (r: string)
    requires q == '"' || q == '\''
    ensures '\n' !in r && '\r' !in r
    decreases |s|
  {
    if |s| == 0 then [] else ReprChar(s[0], q) + ReprBody(s[1..], q)
  }

  /**
   * `repr(s)` for a string: the delimiter `ReprQuote` picks, then each
   * character as `ReprChar` writes it. The result never spans two lines.
   */
  function QuoteStr(s: string): (r: string)
    ensures |r| >= 2 && r[0] == ReprQuote(s) && r[|r| - 1] == ReprQuote(s)
    ensures '\n' !in r && '\r' !in r
  {
    var q := ReprQuote(s);
    [q] + ReprBody(s, q) + [q]
  }

  function Prepend(c: char, rest: Option<string>): Option<string>
  {
    if rest.None? then None else Some([c] + rest.value)
  }

  /**
   * Reads a single-line string literal body delimited by `q`, as Python's
   * parser does for the escapes `repr` writes. A raw delimiter, a raw line
   * break or an unknown escape is refused.
   */
  function ReadBody(t: string, q: char): Option<string>
    decreases |t|
  {
    if |t| == 0 then Some([])
    else if t[0] == q || t[0] == '\n' || t[0] == '\r' then None
    else if t[0] != '\\' then Prepend(t[0], ReadBody(t[1..], q))
    else if |t| < 2 then None
    else if t[1] == '\\' || t[1] == '\'' || t[1] == '"' then Prepend(t[1], ReadBody(t[2..], q))
    else if t[1] == 't' then Prepend('\t', ReadBody(t[2..], q))
    else if t[1] == 'n' then Prepend('\n', ReadBody(t[2..], q))
    else if t[1] == 'r' then Prepend('\r', ReadBody(t[2..], q))
    else if t[1] == 'x' && |t| >= 4 && ReprHexValue(t[2]).Some? && ReprHexValue(t[3]).Some? then
      Prepend((ReprHexValue(t[2]).value * 16 + ReprHexValue(t[3]).value) as char, ReadBody(t[4..], q))
    else None
  }

  /** Reads a `'`- or `"`-delimited string literal. */
  function ReadLiteral(t: string): Option<string>
  {
    if |t| < 2 || t[0] != t[|t| - 1] || (t[0] != '\'' && t[0] != '"') then None
    else ReadBody(t[1..|t| - 1], t[0])
  }

  lemma ReprHexReadsBack(d: nat)
    requires d < 16
    ensures ReprHexValue(ReprHexDigit(d)) == Some(d)
  {
  }

  /** Reading an escaped character gives the character back before the rest. */
  lemma ReadReprChar(c: char, q: char, rest: string)
    requires q == '"' || q == '\''
    ensures ReadBody(ReprChar(c, q) + rest, q) == Prepend(c, ReadBody(rest, q))
  {
    if c == '\\' || c == q || c == '\t' || c == '\n' || c == '\r' {
      ReadLetterEscape(c, q, rest);
    } else if HexEscaped(c) {
      ReadHexEscape(c, q, rest);
    } else {
      ReadRawChar(c, q, rest);
    }
  }

  lemma ReadLetterEscape(c: char, q: char, rest: string)
    requires q == '"' || q == '\''
    requires c == '\\' || c == q || c == '\t' || c == '\n' || c == '\r'
    ensures ReadBody(ReprChar(c, q) + rest, q) == Prepend(c, ReadBody(rest, q))
  {
    var t := ReprChar(c, q) + rest;
    assert |ReprChar(c, q)| == 2 && t[0] == '\\';
    assert t[2..] == rest;
  }

  lemma ReadHexEscape(c: char, q: char, rest: string)
    requires q == '"' || q == '\''
    requires HexEscaped(c) && c != '\t' && c != '\n' && c != '\r'
    ensures ReadBody(ReprChar(c, q) + rest, q) == Prepend(c, ReadBody(rest, q))
  {
    var n := c as int;
    var t := ReprChar(c, q) + rest;
    assert ReprChar(c, q) == ['\\', 'x', ReprHexDigit(n / 16), ReprHexDigit(n % 16)];
    ReprHexReadsBack(n / 16);
    ReprHexReadsBack(n % 16);
    assert t[2] == ReprHexDigit(n / 16) && t[3] == ReprHexDigit(n % 16);
    assert t[4..] == rest;
    assert (n / 16 * 16 + n % 16) as char == c;
  }

  lemma ReadRawChar(c: char, q: char, rest: string)
    requires q == '"' || q == '\''
    requires c != '\\' && c != q && c != '\t' && c != '\n' && c != '\r' && !HexEscaped(c)
    ensures ReadBody(ReprChar(c, q) + rest, q) == Prepend(c, ReadBody(rest, q))
  {
    var t := ReprChar(c, q) + rest;
    assert t == [c] + rest;
    assert t[1..] == rest;
  }

  /** Reading the body `repr` writes gives the string back. */
  lemma {:induction false} ReadReprBody(s: string, q: char)
    requires q == '"' || q == '\''
    ensures ReadBody(ReprBody(s, q), q) == Some(s)
    decreases |s|
  {
    if |s| > 0 {
      ReadReprBody(s[1..], q);
      ReadReprChar(s[0], q, ReprBody(s[1..], q));
      assert [s[0]] + s[1..] == s;
    }
  }

  /** `repr` of a string reads back as that string: the round trip Python's parser completes. */
  lemma ReprRoundTrip(s: string)
    ensures ReadLiteral(QuoteStr(s)) == Some(s)
  {
    var q := ReprQuote(s);
    var r := QuoteStr(s);
    assert r[1..|r| - 1] == ReprBody(s, q);
    ReadReprBody(s, q);
  }

  /** Strings without quotes, backslashes or control characters are written as they are. */
  lemma {:induction false} ReprBodyPlain(s: string, q: char)
    requires q == '"' || q == '\''
    requires forall i :: 0 <= i < |s| ==> s[i] != '\\' && s[i] != q && s[i] as int >= 32 && s[i] as int != 127
    ensures ReprBody(s, q) == s
    decreases |s|
  {
    if |s| > 0 {
      ReprBodyPlain(s[1..], q);
      assert [s[0]] + s[1..] == s;
    }
  }

  /** `repr(v)`. */
  function Repr(v: Value): string
    decreases v
  {
    match v
    case Str(s) => QuoteStr(s)
    case Int(i) => IntToString(i)
    case Float(t) => t
    case Bool(b) => if b then "True" else "False"
    case Null => "None"
    case List(items) =>
      "[" + Join(seq(|items|, i requires 0 <= i < |items| => Repr(items[i])), ", ") + "]"
    case Obj(fields) =>
      "{" + Join(seq(|fields|, i requires 0 <= i < |fields| =>
                   QuoteStr(fields[i].0) + ": " + Repr(fields[i].1)), ", ") + "}"
  }

  /** `str(v)`: like `repr` except that a string is shown bare. */
  function Show(v: Value): string
  {
    if v.Str? then v.s else Repr(v)
  }

  /** `repr(xs)` for a list of strings. */
  function ReprStrings(xs: seq<string>): string
  {
    Repr(List(seq(|xs|, i requires 0 <= i < |xs| => Str(xs[i]))))
  }

  /** Joining texts free of a character, with a separator free of it, gives a text free of it. */
  lemma {:induction false} JoinAvoids(xs: seq<string>, sep: string, c: char)
    requires forall i :: 0 <= i < |xs| ==> c !in xs[i]
    requires c !in sep
    ensures c !in Join(xs, sep)
    decreases |xs|
  {
    if |xs| > 1 {
      JoinAvoids(xs[1..], sep, c);
    }
  }

  /** `repr` of a list of strings never spans two lines, whatever the strings hold. */
  lemma ReprStringsOneLine(xs: seq<string>)
    ensures '\n' !in ReprStrings(xs) && '\r' !in ReprStrings(xs)
  {
    var items := seq(|xs|, i requires 0 <= i < |xs| => Str(xs[i]));
    var parts := seq(|items|, i requires 0 <= i < |items| => Repr(items[i]));
    assert forall i :: 0 <= i < |parts| ==> parts[i] == QuoteStr(xs[i]);
    JoinAvoids(parts, ", ", '\n');
    JoinAvoids(parts, ", ", '\r');
    assert ReprStrings(xs) == "[" + Join(parts, ", ") + "]";
  }
}
