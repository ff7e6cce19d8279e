/** The text produced for a glob, one leading pattern item at a time, and what reading it back gives. */
module GlobCompiler {
  import opened Glob
  import opened Strings
  import opened Wrappers

  lemma {:induction false} ReplaceStep(s: string, p: string, r: string)
    requires p != ""
    ensures ReplaceAll(p + s, p, r) == r + ReplaceAll(s, p, r)
  {
  }

  lemma {:induction false} CopyStep(w: string, s: string, p: string, r: string)
    requires p != "" && p[0] !in w
    ensures ReplaceAll(w + s, p, r) == w + ReplaceAll(s, p, r)
  {
    if w == "" {
      assert w + s == s;
    } else {
      assert (w + s)[0] == w[0] && (w + s)[1..] == w[1..] + s;
      CopyStep(w[1..], s, p, r);
      assert w == [w[0]] + w[1..];
    }
  }

  /** The three replacements over text already escaped. */
  function Passes(e: string): string {
    ReplaceAll(ReplaceAll(ReplaceAll(e, "**", [NUL]), "*", "[^/]*"), [NUL], ".*")
  }

  /** Text without wildcards goes through all three passes unchanged. */
  lemma {:induction false} PlainStep(w: string, e: string)
    requires '*' !in w && NUL !in w
    ensures Passes(w + e) == w + Passes(e)
  {
    var once := ReplaceAll(e, "**", [NUL]);
    CopyStep(w, e, "**", [NUL]);
    CopyStep(w, once, "*", "[^/]*");
    CopyStep(w, ReplaceAll(once, "*", "[^/]*"), [NUL], ".*");
  }

  lemma {:induction false} CrossStep(w: string, e: string)
    requires w == "**" || w == [NUL]
    ensures Passes(w + e) == ".*" + Passes(e)
  {
  }

  lemma {:induction false} SegmentStep(e: string)
    requires e == "" || e[0] != '*'
    ensures Passes("*" + e) == "[^/]*" + Passes(e)
  {
    var once := ReplaceAll(e, "**", [NUL]);
    assert !StartsWith("*" + e, "**") && ("*" + e)[1..] == e;
    assert ReplaceAll("*" + e, "**", [NUL]) == "*" + once;
    ReplaceStep(once, "*", "[^/]*");
    CopyStep("[^/]*", ReplaceAll(once, "*", "[^/]*"), [NUL], ".*");
  }

  /** How many leading characters of a pattern one translated item covers. */
  function Width(p: string): (k: nat)
    requires p != ""
    ensures 1 <= k <= |p|
  {
    if StartsWith(p, "**") then 2 else 1
  }

  function Item(p: string): string
    requires p != ""
  {
    if StartsWith(p, "**") || p[0] == NUL then ".*"
    else if p[0] == '*' then "[^/]*"
    else if Escaped(p[0]) then ['\\', p[0]]
    else [p[0]]
  }

  lemma {:induction false} EscapeStars(p: string)
    requires StartsWith(p, "**")
    ensures Escape(p) == "**" + Escape(p[2..])
  {
  }

  /** What each kind of leading character becomes. */
  lemma {:induction false} TranslateStep(p: string)
    requires p != ""
    ensures Translate(p) == Item(p) + Translate(p[Width(p)..])
  {
    var rest := Escape(p[1..]);
    if StartsWith(p, "**") {
      EscapeStars(p);
      CrossStep("**", Escape(p[2..]));
    } else if p[0] == NUL {
      CrossStep([NUL], rest);
    } else if p[0] == '*' {
      assert p[1..] != "" ==> p[1] != '*';
      SegmentStep(rest);
    } else {
      PlainStep(Item(p), rest);
    }
  }

  /** What a term means once its search order is forgotten. */
  function Meaning(t: Term): Option<Token> {
    match (t.atom, t.quantifier)
    case (Exactly(c), Once) => Some(Literal(c))
    case (Exactly(c), Optional) => Some(Maybe(c))
    case (NotSlash, Many) => Some(Segment)
    case (Dot, Many) => Some(Cross)
    case _ => None
  }

  predicate MeansAll(ts: seq<Term>, tokens: seq<Token>) {
    |ts| == |tokens| && forall i | 0 <= i < |ts| :: Meaning(ts[i]) == Some(tokens[i])
  }

  predicate Agree(r: Regex, tokens: Option<seq<Token>>) {
    match tokens
    case None => r == SyntaxError
    case Some(ts) => r.Terms? && MeansAll(r.terms, ts)
  }

  /** The translation never starts with a repetition operator unless the pattern starts with a question mark. */
  lemma {:induction false} TranslateHead(p: string)
    ensures var s := Translate(p) + "$";
            && s != "" && s[0] != '*' && (s[0] == '?' <==> p != "" && p[0] == '?')
            && (s == "$" <==> p == "")
  {
  }

  /** A quantifier in the text, then the mark that may follow it. */
  lemma {:induction false} QuantifierStep(q: char, rest: string)
    requires q == '*' || q == '?'
    ensures ParseQuantifier([q] + Translate(rest) + "$") ==
            (if q == '*' then Many else Optional, rest != "" && rest[0] == '?', Translate(SkipMark(rest)) + "$")
  {
    TranslateHead(rest);
    var s := [q] + Translate(rest) + "$";
    assert s == [q] + (Translate(rest) + "$");
    if rest != "" && rest[0] == '?' {
      TranslateStep(rest);
      assert s[2..] == Translate(rest[1..]) + "$";
    } else {
      assert s[1..] == Translate(rest) + "$";
    }
  }

  /** The first term of a pattern and the pattern text left after it. */
  function FirstTerm(p: string): (r: (Term, string))
    requires p != "" && p[0] != '?'
    ensures |r.1| < |p|
  {
    if p[0] == '*' || p[0] == NUL then
      var rest := p[Width(p)..];
      (Term(if Item(p) == ".*" then Dot else NotSlash, Many, rest != "" && rest[0] == '?'), SkipMark(rest))
    else if |p| > 1 && p[1] == '?' then
      (Term(Exactly(p[0]), Optional, |p| > 2 && p[2] == '?'), SkipMark(p[2..]))
    else (Term(Exactly(p[0]), Once, false), p[1..])
  }

  lemma {:induction false} FirstToken(p: string)
    requires p != "" && p[0] != '?'
    ensures var (t, q) := FirstTerm(p);
            Meaning(t).Some? && Tokens(p) == Then(Meaning(t).value, Tokens(q))
  {
  }

  lemma {:induction false} ReadWildcard(tail: string)
    ensures ParseAtom("." + tail) == Read(Dot, tail)
    ensures ParseAtom("[^/]" + tail) == Read(NotSlash, tail)
  {
  }

  lemma {:induction false} WildcardText(p: string)
    requires p != "" && (p[0] == '*' || p[0] == NUL)
    ensures var head := if FirstTerm(p).0.atom == Dot then "." else "[^/]";
            Translate(p) + "$" == head + (['*'] + Translate(p[Width(p)..]) + "$")
  {
    TranslateStep(p);
    assert ".*" == "." + ['*'] && "[^/]*" == "[^/]" + ['*'];
    Regroup(if Item(p) == ".*" then "." else "[^/]", ['*'], Translate(p[Width(p)..]), "$");
  }

  lemma Regroup(a: string, b: string, c: string, d: string)
    ensures (a + b) + c + d == a + (b + c + d)
  {
  }

  lemma {:induction false} WildcardAtom(p: string)
    requires p != "" && (p[0] == '*' || p[0] == NUL)
    ensures var s := Translate(p) + "$";
            s != "" && ParseAtom(s) == Read(FirstTerm(p).0.atom, ['*'] + Translate(p[Width(p)..]) + "$")
  {
    WildcardText(p);
    ReadWildcard(['*'] + Translate(p[Width(p)..]) + "$");
  }

  lemma {:induction false} LiteralAtom(p: string)
    requires p != "" && p[0] != '?' && p[0] != '*' && p[0] != NUL
    ensures var s := Translate(p) + "$"; s != "" && ParseAtom(s) == Read(Exactly(p[0]), Translate(p[1..]) + "$")
  {
    var tail := Translate(p[1..]) + "$";
    TranslateStep(p);
    assert Item(p) + Translate(p[1..]) + "$" == Item(p) + tail;
    ReadLiteral(p, tail);
  }

  lemma {:induction false} ReadLiteral(p: string, tail: string)
    requires p != "" && p[0] != '?' && p[0] != '*' && p[0] != NUL
    ensures ParseAtom(Item(p) + tail) == Read(Exactly(p[0]), tail)
  {
  }

  /** The first term is read back from the translated text. */
  lemma {:induction false} ReadsFirst(p: string)
    requires p != "" && p[0] != '?'
    ensures var s := Translate(p) + "$";
            var (t, q) := FirstTerm(p);
            && s != "" && s != "$" && ParseAtom(s).Read? && ParseAtom(s).atom == t.atom
            && ParseQuantifier(ParseAtom(s).rest) == (t.quantifier, t.reluctant, Translate(q) + "$")
  {
    TranslateHead(p);
    if p[0] == '*' || p[0] == NUL {
      WildcardAtom(p);
      QuantifierStep('*', p[Width(p)..]);
    } else {
      LiteralAtom(p);
      AfterLiteral(p);
    }
  }

  lemma {:induction false} AfterLiteral(p: string)
    requires p != "" && p[0] != '?' && p[0] != '*' && p[0] != NUL
    ensures var (t, q) := FirstTerm(p);
            ParseQuantifier(Translate(p[1..]) + "$") == (t.quantifier, t.reluctant, Translate(q) + "$")
  {
    if |p| > 1 && p[1] == '?' {
      OptionalMark(p);
      QuantifierStep('?', p[2..]);
    } else {
      TranslateHead(p[1..]);
    }
  }

  lemma {:induction false} OptionalMark(p: string)
    requires |p| > 1 && p[1] == '?'
    ensures Translate(p[1..]) + "$" == ['?'] + Translate(p[2..]) + "$"
  {
    TranslateStep(p[1..]);
    assert p[1..][1..] == p[2..];
  }

  /** Reading back the translated text gives the pattern's own tokens, or fails exactly when they do. */
  lemma {:induction false} ParseTranslate(p: string)
    ensures Agree(Parse(Translate(p) + "$"), Tokens(p))
    decreases |p|
  {
    var s := Translate(p) + "$";
    TranslateHead(p);
    if p != "" && p[0] == '?' {
      assert ParseAtom(s) == NothingToRepeat;
    } else if p != "" {
      ReadsFirst(p);
      FirstToken(p);
      ParseTranslate(FirstTerm(p).1);
    }
  }
}
