/**
 Glob patterns compiled to regular expressions by rewriting text.

 `Translate` is the escape-and-replace pipeline.  Its output is read back by `Parse`, which follows
 the Pattern grammar of section 22.2.1 of ECMA-262, and run by `Backtrack`, the matcher of section
 22.2.2.  The reference is `GlobMatches`, which never mentions regular expressions: the value is cut
 into one piece per token and each piece is what its token allows.
 */
module Glob {
  import opened Strings
  import opened Wrappers

  const NUL: char := '\0'

  /******* The compiler: three passes of text replacement after an escape *******/

  predicate Escaped(c: char) {
    c in ".+^${}()|[]\\"
  }

  function Escape(p: string): string {
    if p == "" then "" else (if Escaped(p[0]) then ['\\', p[0]] else [p[0]]) + Escape(p[1..])
  }

  function Translate(p: string): string {
    ReplaceAll(ReplaceAll(ReplaceAll(Escape(p), "**", [NUL]), "*", "[^/]*"), [NUL], ".*")
  }

  /******* Regular expressions *******/

  datatype Atom = Exactly(c: char) | NotSlash | Dot

  datatype Quantifier = Once | Optional | Many

  datatype Term = Term(atom: Atom, quantifier: Quantifier, reluctant: bool)

  datatype Regex = Terms(terms: seq<Term>) | SyntaxError | Unsupported

  predicate LineTerminator(c: char) {
    c == '\n' || c == '\r' || c == '\U{2028}' || c == '\U{2029}'
  }

  predicate Admits(a: Atom, c: char) {
    match a
    case Exactly(d) => c == d
    case NotSlash => c != '/'
    case Dot => !LineTerminator(c)
  }

  predicate SyntaxCharacter(c: char) {
    c in "^$\\.*+?()[]{}|"
  }

  datatype ReadAtom = Read(atom: Atom, rest: string) | NothingToRepeat | NotRead

  /** One atom.  Only the forms a translated pattern can hold are read; the rest is `NotRead`. */
  function ParseAtom(s: string): (r: ReadAtom)
    requires s != ""
    ensures r.Read? ==> |r.rest| < |s|
  {
    if s[0] == '\\' then (if |s| > 1 && SyntaxCharacter(s[1]) then Read(Exactly(s[1]), s[2..]) else NotRead)
    else if s[0] == '.' then Read(Dot, s[1..])
    else if StartsWith(s, "[^/]") then Read(NotSlash, s[4..])
    else if s[0] in "*+?" then NothingToRepeat
    else if SyntaxCharacter(s[0]) then NotRead
    else Read(Exactly(s[0]), s[1..])
  }

  /** An optional quantifier after an atom, with its optional reluctance mark. */
  function ParseQuantifier(s: string): (r: (Quantifier, bool, string))
    ensures |r.2| <= |s|
  {
    if s != "" && (s[0] == '*' || s[0] == '?') then
      var q := if s[0] == '*' then Many else Optional;
      if |s| > 1 && s[1] == '?' then (q, true, s[2..]) else (q, false, s[1..])
    else (Once, false, s)
  }

  /** The terms up to the closing end-of-input assertion. */
  function Parse(s: string): Regex
    decreases |s|
  {
    if s == "" then Unsupported
    else if s == "$" then Terms([])
    else match ParseAtom(s)
      case NothingToRepeat => SyntaxError
      case NotRead => Unsupported
      case Read(a, rest) =>
        var (q, reluctant, rest') := ParseQuantifier(rest);
        match Parse(rest')
        case Terms(ts) => Terms([Term(a, q, reluctant)] + ts)
        case SyntaxError => SyntaxError
        case Unsupported => Unsupported
  }

  /** The backtracking matcher: greedy terms consume first, reluctant ones skip first. */
  predicate Backtrack(ts: seq<Term>, v: string)
    decreases |ts| + |v|
  {
    if ts == [] then v == ""
    else
      var t := ts[0];
      match t.quantifier
      case Once => v != "" && Admits(t.atom, v[0]) && Backtrack(ts[1..], v[1..])
      case Optional =>
        if t.reluctant
        then Backtrack(ts[1..], v) || (v != "" && Admits(t.atom, v[0]) && Backtrack(ts[1..], v[1..]))
        else (v != "" && Admits(t.atom, v[0]) && Backtrack(ts[1..], v[1..])) || Backtrack(ts[1..], v)
      case Many =>
        if t.reluctant
        then Backtrack(ts[1..], v) || (v != "" && Admits(t.atom, v[0]) && Backtrack(ts, v[1..]))
        else (v != "" && Admits(t.atom, v[0]) && Backtrack(ts, v[1..])) || Backtrack(ts[1..], v)
  }

  /** `new RegExp("^" + Translate(p) + "$").test(v)`; refused when the constructor throws. */
  function MatchGlob(v: string, p: string): Option<bool> {
    match Parse(Translate(p) + "$")
    case Terms(ts) => Some(Backtrack(ts, v))
    case _ => None
  }

  /******* The reference meaning *******/

  datatype Token = Literal(c: char) | Maybe(c: char) | Segment | Cross

  /** A question mark after a wildcard, or a second one after a character, changes nothing. */
  function SkipMark(p: string): (r: string)
    ensures |r| <= |p|
  {
    if p != "" && p[0] == '?' then p[1..] else p
  }

  /** The tokens of a pattern; none when a question mark has nothing before it. */
  function Tokens(p: string): Option<seq<Token>>
    decreases |p|
  {
    if p == "" then Some([])
    else if p[0] == '?' then None
    else if StartsWith(p, "**") then Then(Cross, Tokens(SkipMark(p[2..])))
    else if p[0] == NUL then Then(Cross, Tokens(SkipMark(p[1..])))
    else if p[0] == '*' then Then(Segment, Tokens(SkipMark(p[1..])))
    else if |p| > 1 && p[1] == '?' then Then(Maybe(p[0]), Tokens(SkipMark(p[2..])))
    else Then(Literal(p[0]), Tokens(p[1..]))
  }

  function Then(t: Token, ts: Option<seq<Token>>): Option<seq<Token>> {
    if ts.None? then None else Some([t] + ts.value)
  }

  predicate PieceOk(t: Token, piece: string) {
    match t
    case Literal(c) => piece == [c]
    case Maybe(c) => piece == "" || piece == [c]
    case Segment => '/' !in piece
    case Cross => forall c | c in piece :: !LineTerminator(c)
  }

  function Concat(pieces: seq<string>): string {
    if pieces == [] then "" else pieces[0] + Concat(pieces[1..])
  }

  ghost predicate Cuts(ts: seq<Token>, v: string, pieces: seq<string>) {
    |pieces| == |ts| && Concat(pieces) == v && forall i | 0 <= i < |ts| :: PieceOk(ts[i], pieces[i])
  }

  /** `v` can be cut into one piece per token. */
  ghost predicate GlobMatches(ts: seq<Token>, v: string) {
    exists pieces :: Cuts(ts, v, pieces)
  }
}
