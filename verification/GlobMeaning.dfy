/** The matcher finds exactly the cuts of the reference, so the translation preserves meaning. */
module GlobMeaning {
  import opened Glob
  import opened GlobCompiler
  import opened Strings
  import opened Wrappers

  /******* The matcher *******/

  /** Backtracking, greedy or reluctant, finds a match exactly when the value can be cut into pieces. */
  lemma {:induction false} BacktrackSound(ts: seq<Term>, tokens: seq<Token>, v: string) returns (pieces: seq<string>)
    requires MeansAll(ts, tokens) && Backtrack(ts, v)
    ensures Cuts(tokens, v, pieces)
    decreases |ts| + |v|
  {
    if ts == [] {
      pieces := [];
    } else {
      assert Meaning(ts[0]) == Some(tokens[0]);
      assert MeansAll(ts[1..], tokens[1..]);
      var some := v != "" && Admits(ts[0].atom, v[0]);
      if ts[0].quantifier != Once && Backtrack(ts[1..], v) {
        var rest := BacktrackSound(ts[1..], tokens[1..], v);
        pieces := [""] + rest;
      } else if some && ts[0].quantifier == Many {
        var rest := BacktrackSound(ts, tokens, v[1..]);
        pieces := [[v[0]] + rest[0]] + rest[1..];
        assert Concat(pieces) == [v[0]] + Concat(rest);
      } else {
        var rest := BacktrackSound(ts[1..], tokens[1..], v[1..]);
        pieces := [[v[0]]] + rest;
      }
    }
  }

  lemma {:induction false} BacktrackComplete(ts: seq<Term>, tokens: seq<Token>, v: string, pieces: seq<string>)
    requires MeansAll(ts, tokens) && Cuts(tokens, v, pieces)
    ensures Backtrack(ts, v)
    decreases |ts| + |v|
  {
    if ts != [] {
      assert Meaning(ts[0]) == Some(tokens[0]) && PieceOk(tokens[0], pieces[0]);
      assert MeansAll(ts[1..], tokens[1..]);
      var rest := Concat(pieces[1..]);
      assert v == pieces[0] + rest;
      if pieces[0] == "" {
        assert Cuts(tokens[1..], v, pieces[1..]);
        BacktrackComplete(ts[1..], tokens[1..], v, pieces[1..]);
      } else {
        assert v[0] == pieces[0][0] && v[1..] == pieces[0][1..] + rest;
        if ts[0].quantifier == Many {
          var shorter := [pieces[0][1..]] + pieces[1..];
          assert Cuts(tokens, v[1..], shorter);
          BacktrackComplete(ts, tokens, v[1..], shorter);
        } else {
          assert Cuts(tokens[1..], v[1..], pieces[1..]);
          BacktrackComplete(ts[1..], tokens[1..], v[1..], pieces[1..]);
        }
      }
    }
  }

  /**
   The main result, for every pattern and every value: the constructor throws exactly when a question
   mark has nothing before it, and otherwise the compiled expression accepts exactly the values that
   the pattern's tokens can be laid over.
   */
  lemma {:induction false} TranslationPreservesMeaning(p: string, v: string)
    ensures MatchGlob(v, p).None? <==> Tokens(p).None?
    ensures Tokens(p).Some? ==> MatchGlob(v, p) == Some(GlobMatches(Tokens(p).value, v))
  {
    ParseTranslate(p);
    if Tokens(p).Some? {
      var ts, tokens := Parse(Translate(p) + "$").terms, Tokens(p).value;
      if Backtrack(ts, v) {
        var pieces := BacktrackSound(ts, tokens, v);
      }
      if GlobMatches(tokens, v) {
        var pieces :| Cuts(tokens, v, pieces);
        BacktrackComplete(ts, tokens, v, pieces);
      }
    }
  }

  /******* What the trigger policies rely on *******/

  /** The intended meaning: `**` is any text at all. */
  predicate PathPieceOk(t: Token, piece: string) {
    t == Cross || PieceOk(t, piece)
  }

  ghost predicate PathCuts(ts: seq<Token>, v: string, pieces: seq<string>) {
    |pieces| == |ts| && Concat(pieces) == v && forall i | 0 <= i < |ts| :: PathPieceOk(ts[i], pieces[i])
  }

  ghost predicate PathMatches(ts: seq<Token>, v: string) {
    exists pieces :: PathCuts(ts, v, pieces)
  }

  predicate OneLine(v: string) {
    forall c | c in v :: c != '\n' && c != '\r' && c != '\U{2028}' && c != '\U{2029}'
  }

  lemma {:induction false} PieceWithin(pieces: seq<string>, i: nat, c: char)
    requires i < |pieces| && c in pieces[i]
    ensures c in Concat(pieces)
  {
    if i > 0 { PieceWithin(pieces[1..], i - 1, c); }
  }

  /** On one-line values without stray question marks the compiled glob is the path glob it is meant to be. */
  lemma {:induction false} OneLineGlob(p: string, v: string)
    requires '?' !in p && OneLine(v)
    ensures Tokens(p).Some?
    ensures MatchGlob(v, p) == Some(PathMatches(Tokens(p).value, v))
  {
    NoMarkTokens(p);
    TranslationPreservesMeaning(p, v);
    var ts := Tokens(p).value;
    if pieces :| PathCuts(ts, v, pieces) {
      forall i | 0 <= i < |ts| ensures PieceOk(ts[i], pieces[i]) {
        assert PathPieceOk(ts[i], pieces[i]);
        forall c | c in pieces[i] ensures c in v { PieceWithin(pieces, i, c); }
      }
      assert Cuts(ts, v, pieces);
    }
    if pieces :| Cuts(ts, v, pieces) {
      assert PathCuts(ts, v, pieces);
    }
  }

  lemma {:induction false} NoMarkTokens(p: string)
    requires '?' !in p
    ensures Tokens(p).Some? && forall t | t in Tokens(p).value :: !t.Maybe?
    decreases |p|
  {
    if p != "" {
      FirstToken(p);
      var (t, q) := FirstTerm(p);
      assert forall c | c in q :: c in p;
      NoMarkTokens(q);
    }
  }

  function Slashes(v: string): nat {
    if v == "" then 0 else (if v[0] == '/' then 1 else 0) + Slashes(v[1..])
  }

  function LiteralSlashes(ts: seq<Token>): nat {
    if ts == [] then 0 else (if ts[0] == Literal('/') then 1 else 0) + LiteralSlashes(ts[1..])
  }

  lemma {:induction false} SlashesConcat(v: string, w: string)
    ensures Slashes(v + w) == Slashes(v) + Slashes(w)
  {
    if v == "" { assert v + w == w; } else {
      assert (v + w)[1..] == v[1..] + w;
      SlashesConcat(v[1..], w);
    }
  }

  lemma {:induction false} NoSlashes(v: string)
    requires '/' !in v
    ensures Slashes(v) == 0
  {
    if v != "" { NoSlashes(v[1..]); }
  }

  /** `*` never crosses a segment: without `**` and `?` a match has exactly the slashes the pattern spells out. */
  lemma {:induction false} SegmentsStay(ts: seq<Token>, v: string, pieces: seq<string>)
    requires Cuts(ts, v, pieces) && forall t | t in ts :: t.Literal? || t == Segment
    ensures Slashes(v) == LiteralSlashes(ts)
  {
    if ts != [] {
      assert PieceOk(ts[0], pieces[0]) && ts[0] in ts;
      assert Cuts(ts[1..], Concat(pieces[1..]), pieces[1..]);
      SegmentsStay(ts[1..], Concat(pieces[1..]), pieces[1..]);
      SlashesConcat(pieces[0], Concat(pieces[1..]));
      if ts[0] == Segment { NoSlashes(pieces[0]); } else { assert Slashes(pieces[0][1..]) == 0; }
    }
  }

  /** A pattern without wildcards matches itself and nothing else, whatever regular-expression syntax it holds. */
  lemma {:induction false} LiteralPattern(p: string, v: string)
    requires '*' !in p && '?' !in p && NUL !in p
    ensures MatchGlob(v, p) == Some(v == p)
  {
    LiteralTokens(p);
    TranslationPreservesMeaning(p, v);
    var ts := Tokens(p).value;
    if pieces :| Cuts(ts, v, pieces) { LiteralCuts(p, v, pieces); }
    var own := seq(|p|, i requires 0 <= i < |p| => [p[i]]);
    ConcatSingles(p, own);
    assert Cuts(ts, p, own);
  }

  lemma {:induction false} LiteralTokens(p: string)
    requires '*' !in p && '?' !in p && NUL !in p
    ensures Tokens(p).Some? && |Tokens(p).value| == |p|
    ensures forall i | 0 <= i < |p| :: Tokens(p).value[i] == Literal(p[i])
  {
    if p != "" { LiteralTokens(p[1..]); }
  }

  lemma {:induction false} ConcatSingles(p: string, pieces: seq<string>)
    requires |pieces| == |p| && forall i | 0 <= i < |p| :: pieces[i] == [p[i]]
    ensures Concat(pieces) == p
  {
    if p != "" { ConcatSingles(p[1..], pieces[1..]); }
  }

  lemma {:induction false} LiteralCuts(p: string, v: string, pieces: seq<string>)
    requires |pieces| == |p| && Concat(pieces) == v
    requires forall i | 0 <= i < |p| :: PieceOk(Literal(p[i]), pieces[i])
    ensures v == p
  {
    ConcatSingles(p, pieces);
  }

  /** `**` is not quite any text: it accepts exactly the values on one line. */
  lemma {:induction false} CrossStopsAtLineEnd(v: string)
    ensures MatchGlob(v, "**") == Some(OneLine(v))
    ensures MatchGlob("a\nb", "**") == Some(false)
  {
    TranslationPreservesMeaning("**", v);
    TranslationPreservesMeaning("**", "a\nb");
    CrossAlone(v);
    CrossAlone("a\nb");
    assert "a\nb"[1] == '\n' && '\n' in "a\nb";
  }

  lemma {:induction false} ConcatOne(pieces: seq<string>)
    requires |pieces| == 1
    ensures Concat(pieces) == pieces[0]
  {
    assert pieces[1..] == [];
  }

  lemma {:induction false} EndTokens(p: string)
    requires p == ""
    ensures Tokens(SkipMark(p)) == Some([])
  {
  }

  lemma {:induction false} CrossAlone(v: string)
    ensures Tokens("**") == Some([Cross])
    ensures GlobMatches([Cross], v) <==> OneLine(v)
  {
    EndTokens("**"[2..]);
    assert [Cross] + [] == [Cross] && "**"[..2] == "**";
    if pieces :| Cuts([Cross], v, pieces) {
      ConcatOne(pieces);
      assert PieceOk(Cross, pieces[0]);
    }
    if OneLine(v) {
      ConcatOne([v]);
      assert Cuts([Cross], v, [v]);
    }
  }

  /** Every pattern without question marks means the path glob for this value. */
  ghost predicate ReadsAsPath(v: string) {
    forall p: string | '?' !in p && Tokens(p).Some? :: MatchGlob(v, p) == Some(PathMatches(Tokens(p).value, v))
  }

  /** Exactly the values on one line are matched as paths. */
  lemma {:induction false} OneLineExactlyIf(v: string)
    ensures ReadsAsPath(v) <==> OneLine(v)
  {
    if OneLine(v) {
      forall p: string | '?' !in p && Tokens(p).Some?
        ensures MatchGlob(v, p) == Some(PathMatches(Tokens(p).value, v))
      {
        OneLineGlob(p, v);
      }
    } else {
      CrossStopsAtLineEnd(v);
      CrossAlone(v);
      ConcatOne([v]);
      assert PathCuts([Cross], v, [v]);
      assert '?' !in "**";
    }
  }

  lemma {:induction false} MarkShortens(p: string)
    requires '*' !in p && NUL !in p && Tokens(p).Some?
    ensures |Tokens(p).value| <= |p| && ('?' in p ==> |Tokens(p).value| < |p|)
    ensures forall t | t in Tokens(p).value :: t.Literal? || t.Maybe?
    decreases |p|
  {
    if p != "" {
      var q := if |p| > 1 && p[1] == '?' then SkipMark(p[2..]) else p[1..];
      assert forall c | c in q :: c in p;
      assert p == [p[0]] + p[1..];
      MarkShortens(q);
    }
  }

  lemma {:induction false} ShortConcat(ts: seq<Token>, v: string, pieces: seq<string>)
    requires Cuts(ts, v, pieces) && forall t | t in ts :: t.Literal? || t.Maybe?
    ensures |v| <= |ts|
  {
    if ts != [] {
      assert PieceOk(ts[0], pieces[0]) && ts[0] in ts;
      assert Cuts(ts[1..], Concat(pieces[1..]), pieces[1..]);
      ShortConcat(ts[1..], Concat(pieces[1..]), pieces[1..]);
    }
  }

  /** A pattern without stars matches itself and nothing else exactly if it holds no question mark. */
  lemma {:induction false} LiteralExactlyIf(p: string)
    requires '*' !in p && NUL !in p
    ensures (forall v: string :: MatchGlob(v, p) == Some(v == p)) <==> '?' !in p
  {
    if '?' !in p {
      forall v: string ensures MatchGlob(v, p) == Some(v == p) { LiteralPattern(p, v); }
    } else {
      TranslationPreservesMeaning(p, p);
      if Tokens(p).Some? {
        MarkShortens(p);
        if pieces :| Cuts(Tokens(p).value, p, pieces) { ShortConcat(Tokens(p).value, p, pieces); }
      }
      assert MatchGlob(p, p) != Some(true);
    }
  }

  lemma {:induction false} MaybeTokens(p: string)
    requires |p| == 2 && p[0] != '*' && p[0] != '?' && p[0] != NUL && p[1] == '?'
    ensures Tokens(p) == Some([Maybe(p[0])])
  {
    EndTokens(p[2..]);
    assert p[..2][0] != '*' && [Maybe(p[0])] + [] == [Maybe(p[0])];
  }

  /** The unescaped question mark: it makes the character before it optional instead of matching one character. */
  lemma {:induction false} QuestionMarkIsNotAWildcard(c: char, d: char)
    requires c != '*' && c != '?' && c != NUL && c != d
    ensures MatchGlob([c, d], [c, '?']) == Some(false)
    ensures MatchGlob("", [c, '?']) == Some(true)
    ensures MatchGlob([c], "?") == None
  {
    var p := [c, '?'];
    MaybeTokens(p);
    TranslationPreservesMeaning(p, [c, d]);
    TranslationPreservesMeaning(p, "");
    TranslationPreservesMeaning("?", [c]);
    if pieces :| Cuts([Maybe(c)], [c, d], pieces) {
      ConcatOne(pieces);
      assert PieceOk(Maybe(c), pieces[0]) && |pieces[0]| == 2;
    }
    ConcatOne([""]);
    assert Cuts([Maybe(c)], "", [""]);
  }
}
