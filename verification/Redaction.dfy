/**
 Secret redaction: every configured secret of at least eight characters is replaced by a marker, longest first,
 and then everything that looks like an access token is.
 */
module Redaction {
  import opened Strings
  import opened Whitespace

  const MARKER: string := "[REDACTED]"

  /******* The configured secrets *******/

  function InsertByLength(x: string, s: seq<string>): seq<string> {
    if s == [] || |x| >= |s[0]| then [x] + s else [s[0]] + InsertByLength(x, s[1..])
  }

  /** Drops short secrets and sorts the others by falling length, equal lengths in the order given. */
  function Prepare(secrets: seq<string>): seq<string> {
    if secrets == [] then []
    else if |secrets[0]| < 8 then Prepare(secrets[1..])
    else InsertByLength(secrets[0], Prepare(secrets[1..]))
  }

  lemma {:induction false} InsertMembers(x: string, s: seq<string>, y: string)
    ensures y in InsertByLength(x, s) <==> y == x || y in s
  {
    if s == [] || |x| >= |s[0]| {
    } else {
      InsertMembers(x, s[1..], y);
    }
  }

  lemma {:induction false} PrepareMembers(secrets: seq<string>, y: string)
    ensures y in Prepare(secrets) <==> y in secrets && |y| >= 8
  {
    if secrets != [] {
      PrepareMembers(secrets[1..], y);
      if |secrets[0]| >= 8 { InsertMembers(secrets[0], Prepare(secrets[1..]), y); }
    }
  }

  ghost predicate ByLength(s: seq<string>) {
    forall i, j | 0 <= i < j < |s| :: |s[i]| >= |s[j]|
  }

  lemma ByLengthCons(x: string, s: seq<string>)
    requires ByLength(s) && forall y | y in s :: |y| <= |x|
    ensures ByLength([x] + s)
  {
  }

  lemma {:induction false} InsertKeepsLengths(x: string, s: seq<string>)
    requires ByLength(s)
    ensures ByLength(InsertByLength(x, s)) && multiset(InsertByLength(x, s)) == multiset(s) + multiset{x}
  {
    if s == [] || |x| >= |s[0]| {
      ByLengthCons(x, s);
    } else {
      InsertKeepsLengths(x, s[1..]);
      assert s == [s[0]] + s[1..];
      forall y | y in InsertByLength(x, s[1..]) ensures |y| <= |s[0]| { InsertMembers(x, s[1..], y); }
      ByLengthCons(s[0], InsertByLength(x, s[1..]));
    }
  }

  /** The longest secrets come first, so that no part of one is replaced before it; only short ones are dropped. */
  lemma {:induction false} LongestFirst(secrets: seq<string>, y: string)
    ensures ByLength(Prepare(secrets))
    ensures multiset(Prepare(secrets))[y] == if |y| >= 8 then multiset(secrets)[y] else 0
  {
    if secrets != [] {
      LongestFirst(secrets[1..], y);
      assert secrets == [secrets[0]] + secrets[1..];
      if |secrets[0]| >= 8 { InsertKeepsLengths(secrets[0], Prepare(secrets[1..])); }
    }
  }

  predicate NoneEmpty(secrets: seq<string>) {
    forall i | 0 <= i < |secrets| :: secrets[i] != ""
  }

  /** The replacement passes, one secret after the other. */
  function ReplaceSecrets(secrets: seq<string>, text: string): string
    requires NoneEmpty(secrets)
    decreases |secrets|
  {
    if secrets == [] then text
    else ReplaceSecrets(secrets[1..], ReplaceAll(text, secrets[0], MARKER))
  }

  /******* Token-like strings *******/

  predicate Word(c: char) {
    'a' <= c <= 'z' || 'A' <= c <= 'Z' || '0' <= c <= '9' || c == '_'
  }

  predicate WordAt(s: string, i: int) {
    0 <= i < |s| && Word(s[i])
  }

  /** `\b` between `s[i - 1]` and `s[i]`. */
  predicate Boundary(s: string, i: int) {
    WordAt(s, i - 1) != WordAt(s, i)
  }

  /** `gh[pousr]_[A-Za-z0-9_]{20,}` or `sk-[A-Za-z0-9_-]{20,}`. */
  predicate Key(x: string) {
    || (|x| >= 24 && StartsWith(x, "gh") && x[2] in "pousr" && x[3] == '_' && forall k | 4 <= k < |x| :: Word(x[k]))
    || (|x| >= 23 && StartsWith(x, "sk-") && forall k | 3 <= k < |x| :: Word(x[k]) || x[k] == '-')
  }

  predicate Of20(w: string, dash: bool) {
    |w| >= 20 && forall k | 0 <= k < |w| ::
      'a' <= w[k] <= 'z' || 'A' <= w[k] <= 'Z' || '0' <= w[k] <= '9' || w[k] == '_' || (dash && w[k] == '-')
  }

  ghost predicate GitHubParts(x: string) {
    exists c, w :: c in {'p', 'o', 'u', 's', 'r'} && Of20(w, false) && x == "gh" + [c] + "_" + w
  }

  ghost predicate OpenAiParts(x: string) {
    exists w :: Of20(w, true) && x == "sk-" + w
  }

  /** Put together from its parts: one of GitHub's five prefixes, or OpenAI's, and then twenty characters or more. */
  lemma KeyParts(x: string)
    ensures Key(x) <==> GitHubParts(x) || OpenAiParts(x)
  {
    if Key(x) { PartsOfKey(x); }
    if GitHubParts(x) {
      var c, w :| c in {'p', 'o', 'u', 's', 'r'} && Of20(w, false) && x == "gh" + [c] + "_" + w;
      GitHubKey(x, c, w);
    }
    if OpenAiParts(x) {
      var w :| Of20(w, true) && x == "sk-" + w;
      OpenAiKey(x, w);
    }
  }

  lemma PartsOfKey(x: string)
    requires Key(x)
    ensures GitHubParts(x) || OpenAiParts(x)
  {
    if StartsWith(x, "gh") {
      assert x[0] == 'g' by { assert x[0] == x[..2][0]; }
      assert !StartsWith(x, "sk-") by { assert |x| >= 3 ==> x[0] == x[..3][0]; }
      assert x == "gh" + [x[2]] + "_" + x[4..] && Of20(x[4..], false);
    } else {
      assert x == "sk-" + x[3..] && Of20(x[3..], true);
    }
  }

  lemma GitHubKey(x: string, c: char, w: string)
    requires c in {'p', 'o', 'u', 's', 'r'} && Of20(w, false) && x == "gh" + [c] + "_" + w
    ensures Key(x)
  {
    assert x[..2] == "gh" && x[2] == c && x[3] == '_';
    forall k | 4 <= k < |x| ensures Word(x[k]) { assert x[k] == w[k - 4]; }
  }

  lemma OpenAiKey(x: string, w: string)
    requires Of20(w, true) && x == "sk-" + w
    ensures Key(x)
  {
    assert x[..3] == "sk-";
    forall k | 3 <= k < |x| ensures Word(x[k]) || x[k] == '-' { assert x[k] == w[k - 3]; }
  }

  /** A key, alone or after `Bearer` and white space. */
  predicate TokenText(x: string) {
    || Key(x)
    || (StartsWith(x, "Bearer") &&
        exists k | 6 < k < |x| :: (forall m | 6 <= m < k :: Space(x[m])) && Key(x[k..]))
  }

  predicate TokenAt(s: string, i: int, j: int) {
    0 <= i < j <= |s| && Boundary(s, i) && Boundary(s, j) && TokenText(s[i..j])
  }

  ghost predicate BearerParts(x: string) {
    exists space, key :: space != "" && (forall c | c in space :: Space(c)) && Key(key) && x == "Bearer" + space + key
  }

  /** A token is a key, or `Bearer`, at least one white space and a key. */
  lemma TokenParts(x: string)
    ensures TokenText(x) <==> Key(x) || BearerParts(x)
  {
    if TokenText(x) && !Key(x) {
      var k :| 6 < k < |x| && (forall m | 6 <= m < k :: Space(x[m])) && Key(x[k..]);
      BearerSplit(x, k);
    }
    if BearerParts(x) {
      var space, key :| space != "" && (forall c | c in space :: Space(c)) && Key(key) && x == "Bearer" + space + key;
      BearerJoin(x, space, key);
    }
  }

  lemma BearerSplit(x: string, k: nat)
    requires StartsWith(x, "Bearer") && 6 < k < |x| && (forall m | 6 <= m < k :: Space(x[m])) && Key(x[k..])
    ensures BearerParts(x)
  {
    assert x == "Bearer" + x[6..k] + x[k..];
    forall c | c in x[6..k] ensures Space(c) {
      var m :| 0 <= m < |x[6..k]| && x[6..k][m] == c;
      assert x[6 + m] == c;
    }
  }

  lemma BearerJoin(x: string, space: string, key: string)
    requires space != "" && (forall c | c in space :: Space(c)) && Key(key) && x == "Bearer" + space + key
    ensures TokenText(x)
  {
    var k := 6 + |space|;
    assert x[..6] == "Bearer" && x[k..] == key;
    forall m | 6 <= m < k ensures Space(x[m]) { assert x[m] == space[m - 6]; }
  }

  /**
   Where a token is recognized: behind the start of the text or a character that is no word character, and before the
   end or such a character, or, if it ends in a dash, before a word character.
   */
  lemma TokenDelimited(before: string, x: string, behind: string)
    ensures TokenAt(before + x + behind, |before|, |before| + |x|) <==>
              && TokenText(x)
              && (before == "" || !Word(before[|before| - 1]))
              && (Word(x[|x| - 1]) <==> behind == "" || !Word(behind[0]))
  {
    var s, i, j := before + x + behind, |before|, |before| + |x|;
    assert s[i..j] == x;
    if x != "" {
      assert s[i] == x[0] && s[j - 1] == x[|x| - 1];
      assert before != "" ==> s[i - 1] == before[|before| - 1];
      assert behind != "" ==> s[j] == behind[0];
      if TokenText(x) { TokenBegins(x); }
    }
  }

  lemma TokenBegins(x: string)
    requires TokenText(x)
    ensures x != "" && Word(x[0])
  {
    TokenChars(x, 0);
  }

  predicate TokenStarts(s: string, i: int) {
    exists j | 0 <= j <= |s| :: TokenAt(s, i, j)
  }

  /** The expression is greedy, so of the ends it could match at it takes the last. */
  function TokenEnd(s: string, i: int, j: nat): (e: nat)
    requires j <= |s| && exists k | 0 <= k <= j :: TokenAt(s, i, k)
    ensures e <= j && TokenAt(s, i, e) && forall k | e < k <= j :: !TokenAt(s, i, k)
    decreases j
  {
    if TokenAt(s, i, j) then j else TokenEnd(s, i, j - 1)
  }

  /** The last pass from position `i` on; boundaries are judged in the whole string. */
  function ReplaceTokens(s: string, i: nat): string
    requires i <= |s|
    decreases |s| - i
  {
    if i == |s| then ""
    else if TokenStarts(s, i) then MARKER + ReplaceTokens(s, TokenEnd(s, i, |s|))
    else [s[i]] + ReplaceTokens(s, i + 1)
  }

  function Redact(secrets: seq<string>, text: string): string {
    PreparedNonEmpty(secrets);
    ReplaceTokens(ReplaceSecrets(Prepare(secrets), text), 0)
  }

  lemma PreparedNonEmpty(secrets: seq<string>)
    ensures NoneEmpty(Prepare(secrets))
  {
    var p := Prepare(secrets);
    forall i | 0 <= i < |p| ensures p[i] != "" { PrepareMembers(secrets, p[i]); }
  }

  class SecretRedactor {
    const secrets: seq<string>

    constructor (secrets: seq<string>)
      ensures this.secrets == Prepare(secrets) && NoneEmpty(this.secrets)
    {
      this.secrets := Prepare(secrets);
      PreparedNonEmpty(secrets);
    }

    method RedactText(text: string) returns (value: string)
      requires NoneEmpty(secrets)
      ensures value == ReplaceTokens(ReplaceSecrets(secrets, text), 0)
    {
      value := text;
      for i := 0 to |secrets|
        invariant ReplaceSecrets(secrets[i..], value) == ReplaceSecrets(secrets, text)
      {
        value := ReplaceAll(value, secrets[i], MARKER);
      }
      value := ReplaceTokens(value, 0);
    }
  }

  /******* A marker never completes an unalignable secret *******/

  /** Lying at offset `d` from a marker, `t` agrees with it wherever they overlap. */
  predicate Aligns(t: string, d: int) {
    forall k | 0 <= k < |t| && 0 <= d + k < |MARKER| :: t[k] == MARKER[d + k]
  }

  /** Wherever `t` overlaps a marker, some character differs. */
  predicate Unalignable(t: string) {
    forall d | -|t| < d < |MARKER| :: !Aligns(t, d)
  }

  /** A clean text on either side of a marker stays clean. */
  lemma MarkerSeparates(x: string, y: string, t: string)
    requires Unalignable(t) && t != "" && !Contains(x, t) && !Contains(y, t)
    ensures !Contains(x + MARKER + y, t)
  {
    var z := x + MARKER + y;
    forall i | 0 <= i <= |z| ensures !OccursAt(z, t, i) {
      if OccursAt(z, t, i) {
        OccurrenceSomewhere(x, y, t, i);
      }
    }
  }

  lemma OccurrenceSomewhere(x: string, y: string, t: string, i: nat)
    requires t != "" && OccursAt(x + MARKER + y, t, i)
    ensures Contains(x, t) || Contains(y, t) || !Unalignable(t)
  {
    var z := x + MARKER + y;
    var d := i - |x|;
    if i + |t| <= |x| {
      assert z[i..i + |t|] == x[i..i + |t|];
      assert OccursAt(x, t, i);
    } else if d >= |MARKER| {
      assert z[i..i + |t|] == y[d - |MARKER|..d - |MARKER| + |t|];
      assert OccursAt(y, t, d - |MARKER|);
    } else {
      forall k | 0 <= k < |t| && 0 <= d + k < |MARKER| ensures t[k] == MARKER[d + k] {
        assert z[i..i + |t|][k] == z[i + k];
      }
      assert Aligns(t, d);
    }
  }

  lemma SliceOfSlice(v: string, i: nat, j: nat, a: nat, b: nat)
    requires i <= j <= |v| && a <= b <= j - i
    ensures v[i..j][a..b] == v[i + a..i + b]
  {
    var x, y := v[i..j][a..b], v[i + a..i + b];
    assert |x| == |y| && forall k | 0 <= k < |x| :: x[k] == y[k];
  }

  lemma PrefixOfSplit(pre: string, x: string, y: string)
    ensures pre + (x + MARKER + y) == (pre + x) + MARKER + y
  {
  }

  lemma HeadOfPiece(v: string, i: nat, j: nat, x: string, y: string)
    requires i < j <= |v| && x == v[i + 1..j] + MARKER + y
    ensures [v[i]] + x == v[i..j] + MARKER + y
  {
  }

  lemma HeadOfDrop(v: string, i: nat)
    requires i < |v|
    ensures [v[i]] + v[i + 1..] == v[i..]
  {
  }

  /** Cutting a clean text leaves clean pieces. */
  lemma PieceClean(v: string, i: nat, j: nat, t: string)
    requires i <= j <= |v| && !Contains(v, t)
    ensures !Contains(v[i..j], t)
  {
    if k: nat :| k <= j - i && OccursAt(v[i..j], t, k) {
      SliceOfSlice(v, i, j, k, k + |t|);
      assert OccursAt(v, t, i + k);
    }
  }

  lemma DropDrop(v: string, k: nat)
    requires 1 + k <= |v|
    ensures v[1..][k..] == v[1 + k..]
  {
  }

  /** The first place where `p` occurs at or after the start, if any. */
  function Find(v: string, p: string): (i: int)
    requires p != ""
    ensures -1 <= i <= |v|
    decreases |v|
  {
    if v == "" then -1
    else if StartsWith(v, p) then 0
    else
      var rest := Find(v[1..], p);
      if rest < 0 then -1 else 1 + rest
  }

  lemma OccursInTail(v: string, p: string, i: nat)
    requires 0 < i <= |v|
    ensures OccursAt(v, p, i) <==> OccursAt(v[1..], p, i - 1)
  {
    if i + |p| <= |v| { assert v[i..i + |p|] == v[1..][i - 1..i - 1 + |p|]; }
  }

  lemma OccursAtStart(v: string, p: string)
    ensures OccursAt(v, p, 0) <==> StartsWith(v, p)
  {
    if |p| <= |v| { assert v[0..0 + |p|] == v[..|p|]; }
  }

  lemma TailOfTake(v: string, f: nat)
    requires 0 < f <= |v|
    ensures v[1..][..f - 1] == v[..f][1..]
  {
  }

  lemma StartOfTake(v: string, f: nat, p: string)
    requires f <= |v|
    ensures StartsWith(v[..f], p) ==> StartsWith(v, p)
  {
    if |p| <= f { assert v[..f][..|p|] == v[..|p|]; }
  }

  lemma {:induction false} FindNone(v: string, p: string)
    requires p != "" && Find(v, p) < 0
    ensures !Contains(v, p)
    decreases |v|
  {
    if v != "" {
      FindNone(v[1..], p);
      forall i | 0 <= i <= |v| ensures !OccursAt(v, p, i) {
        if i > 0 { OccursInTail(v, p, i); } else { OccursAtStart(v, p); }
      }
    }
  }

  /** Up to its first occurrence a text does not contain `p`. */
  lemma {:induction false} BeforeFind(v: string, p: string)
    requires p != "" && Find(v, p) >= 0
    ensures !Contains(v[..Find(v, p)], p)
    decreases |v|
  {
    var f := Find(v, p);
    if f > 0 {
      BeforeFind(v[1..], p);
      var w := v[..f];
      TailOfTake(v, f);
      forall i | 0 <= i <= |w| ensures !OccursAt(w, p, i) {
        if i > 0 {
          OccursInTail(w, p, i);
          assert !OccursAt(w[1..], p, i - 1);
        } else {
          OccursAtStart(w, p);
          StartOfTake(v, f, p);
        }
      }
    }
  }

  /** A replacement pass, one replaced occurrence at a time. */
  lemma {:induction false} ReplaceUnfolds(v: string, p: string)
    requires p != ""
    ensures var f := Find(v, p);
            if f < 0 then ReplaceAll(v, p, MARKER) == v
            else f + |p| <= |v| && ReplaceAll(v, p, MARKER) == v[..f] + MARKER + ReplaceAll(v[f + |p|..], p, MARKER)
    decreases |v|
  {
    var f := Find(v, p);
    if f < 0 {
      NotFoundSame(v, p);
    } else {
      FoundThere(v, p);
      ReplaceFound(v, p, MARKER);
    }
  }

  lemma {:induction false} NotFoundSame(v: string, p: string)
    requires p != "" && Find(v, p) < 0
    ensures ReplaceAll(v, p, MARKER) == v
    decreases |v|
  {
    if v != "" { NotFoundSame(v[1..], p); }
  }

  /** What the pass makes of a text whose first occurrence is at `f`. */
  predicate ReplacedFirst(v: string, p: string, r: string, f: int)
    requires p != "" && 0 <= f && f + |p| <= |v|
  {
    ReplaceAll(v, p, r) == v[..f] + r + ReplaceAll(v[f + |p|..], p, r)
  }

  lemma {:induction false} ReplaceFound(v: string, p: string, r: string)
    requires p != "" && Find(v, p) >= 0 && Find(v, p) + |p| <= |v|
    ensures ReplacedFirst(v, p, r, Find(v, p))
    decreases |v|
  {
    if Find(v, p) > 0 {
      FoundLater(v, p, r);
      ReplaceFound(v[1..], p, r);
      ReplacedLater(v, p, r, Find(v, p));
    } else {
      FoundAtStart(v, p);
      ReplacedAtStart(v, p, r);
    }
  }

  lemma FoundLater(v: string, p: string, r: string)
    requires p != "" && Find(v, p) > 0
    ensures v != "" && Find(v[1..], p) == Find(v, p) - 1 && ReplaceAll(v, p, r) == [v[0]] + ReplaceAll(v[1..], p, r)
  {
  }

  lemma ReplacedLater(v: string, p: string, r: string, f: nat)
    requires p != "" && 0 < f && f + |p| <= |v| && ReplacedFirst(v[1..], p, r, f - 1)
    requires ReplaceAll(v, p, r) == [v[0]] + ReplaceAll(v[1..], p, r)
    ensures ReplacedFirst(v, p, r, f)
  {
    DropDrop(v, f - 1 + |p|);
    HeadOfFound(v, f, r, ReplaceAll(v[1..], p, r), ReplaceAll(v[f + |p|..], p, r));
  }

  lemma FoundAtStart(v: string, p: string)
    requires p != "" && Find(v, p) == 0
    ensures v != "" && StartsWith(v, p)
  {
  }

  lemma ReplacedAtStart(v: string, p: string, r: string)
    requires p != "" && StartsWith(v, p)
    ensures ReplacedFirst(v, p, r, 0)
  {
    assert v[..0] + r == r;
  }

  lemma HeadOfFound(v: string, f: nat, r: string, x: string, y: string)
    requires 1 <= f <= |v| && x == v[1..][..f - 1] + r + y
    ensures [v[0]] + x == v[..f] + r + y
  {
    assert [v[0]] + v[1..][..f - 1] == v[..f];
  }

  /** The pass for `t` itself leaves no `t`. */
  lemma {:induction false} PassRemoves(v: string, t: string)
    requires t != "" && Unalignable(t)
    ensures !Contains(ReplaceAll(v, t, MARKER), t)
    decreases |v|
  {
    ReplaceUnfolds(v, t);
    var f := Find(v, t);
    if f < 0 {
      FindNone(v, t);
    } else {
      BeforeFind(v, t);
      PassRemoves(v[f + |t|..], t);
      MarkerSeparates(v[..f], ReplaceAll(v[f + |t|..], t, MARKER), t);
    }
  }

  /** A pass for another secret does not bring `t` back. */
  lemma {:induction false} PassKeepsClean(v: string, p: string, t: string)
    requires p != "" && t != "" && Unalignable(t) && !Contains(v, t)
    ensures !Contains(ReplaceAll(v, p, MARKER), t)
    decreases |v|
  {
    ReplaceUnfolds(v, p);
    var f := Find(v, p);
    if f >= 0 {
      PieceClean(v, 0, f, t);
      PieceClean(v, f + |p|, |v|, t);
      assert v[0..f] == v[..f] && v[f + |p|..|v|] == v[f + |p|..];
      PassKeepsClean(v[f + |p|..], p, t);
      MarkerSeparates(v[..f], ReplaceAll(v[f + |p|..], p, MARKER), t);
    }
  }

  lemma {:induction false} PassesKeepClean(secrets: seq<string>, v: string, t: string)
    requires NoneEmpty(secrets) && t != "" && Unalignable(t) && !Contains(v, t)
    ensures !Contains(ReplaceSecrets(secrets, v), t)
    decreases |secrets|
  {
    if secrets != [] {
      PassKeepsClean(v, secrets[0], t);
      PassesKeepClean(secrets[1..], ReplaceAll(v, secrets[0], MARKER), t);
    }
  }

  lemma {:induction false} PassesRemove(secrets: seq<string>, v: string, t: string)
    requires NoneEmpty(secrets) && t in secrets && Unalignable(t)
    ensures !Contains(ReplaceSecrets(secrets, v), t)
    decreases |secrets|
  {
    if secrets[0] == t {
      PassRemoves(v, t);
      PassesKeepClean(secrets[1..], ReplaceAll(v, secrets[0], MARKER), t);
    } else {
      PassesRemove(secrets[1..], ReplaceAll(v, secrets[0], MARKER), t);
    }
  }

  /******* The last pass *******/

  /** The first token start at or after `i`, or the end of the text. */
  function NextToken(s: string, i: nat): (p: nat)
    requires i <= |s|
    ensures i <= p <= |s| && (p < |s| ==> TokenStarts(s, p)) && forall k | i <= k < p :: !TokenStarts(s, k)
    decreases |s| - i
  {
    if i == |s| || TokenStarts(s, i) then i else NextToken(s, i + 1)
  }

  lemma {:induction false} TokensUnfold(s: string, i: nat)
    requires i <= |s|
    ensures var p := NextToken(s, i);
            ReplaceTokens(s, i) ==
            if p == |s| then s[i..] else s[i..p] + MARKER + ReplaceTokens(s, TokenEnd(s, p, |s|))
    decreases |s| - i
  {
    var p := NextToken(s, i);
    if i < p {
      TokensUnfold(s, i + 1);
      if p == |s| {
        HeadOfDrop(s, i);
      } else {
        HeadOfPiece(s, i, p, ReplaceTokens(s, i + 1), ReplaceTokens(s, TokenEnd(s, p, |s|)));
      }
    } else if p < |s| {
      assert s[i..i] == "";
    }
  }

  lemma {:induction false} TokenPassKeepsClean(s: string, i: nat, t: string)
    requires i <= |s| && t != "" && Unalignable(t) && !Contains(s, t)
    ensures !Contains(ReplaceTokens(s, i), t)
    decreases |s| - i
  {
    TokensUnfold(s, i);
    var p := NextToken(s, i);
    PieceClean(s, i, p, t);
    if p < |s| {
      var e := TokenEnd(s, p, |s|);
      TokenPassKeepsClean(s, e, t);
      MarkerSeparates(s[i..p], ReplaceTokens(s, e), t);
    } else {
      assert s[i..p] == s[i..];
    }
  }

  /** A configured secret that no overlap with the marker can imitate does not survive, whatever else is configured. */
  lemma SecretRemoved(secrets: seq<string>, text: string, t: string)
    requires t in secrets && |t| >= 8 && Unalignable(t)
    ensures !Contains(Redact(secrets, text), t)
  {
    PrepareMembers(secrets, t);
    PreparedNonEmpty(secrets);
    PassesRemove(Prepare(secrets), text, t);
    TokenPassKeepsClean(ReplaceSecrets(Prepare(secrets), text), 0, t);
  }

  lemma InsideMarker(t: string)
    requires |t| == 8
    ensures Aligns(t, 1) ==> t == "REDACTED"
  {
  }

  /** Secrets without brackets, other than pieces of the word REDACTED, are of that kind. */
  lemma OrdinarySecret(t: string)
    requires |t| >= 8 && '[' !in t && ']' !in t && t != "REDACTED"
    ensures Unalignable(t)
  {
    forall d | -|t| < d < |MARKER| ensures !Aligns(t, d) {
      if d <= 0 {
        assert t[-d] != MARKER[d + -d];
      } else if d + |t| >= |MARKER| {
        assert t[|MARKER| - 1 - d] != MARKER[d + (|MARKER| - 1 - d)];
      } else {
        assert d == 1 && |t| == 8;
        InsideMarker(t);
      }
    }
  }

  /******* Exactly which secrets are safe *******/

  lemma {:induction false} NoMatchNoChange(v: string, p: string)
    requires p != "" && !Contains(v, p)
    ensures ReplaceAll(v, p, MARKER) == v
  {
    ReplaceUnfolds(v, p);
    FindSome(v, p);
  }

  lemma FindSome(v: string, p: string)
    requires p != ""
    ensures Find(v, p) >= 0 ==> Contains(v, p)
  {
    if Find(v, p) >= 0 {
      FoundThere(v, p);
      assert OccursAt(v, p, Find(v, p));
    }
  }

  lemma {:induction false} FoundThere(v: string, p: string)
    requires p != "" && Find(v, p) >= 0
    ensures OccursAt(v, p, Find(v, p))
    decreases |v|
  {
    var f := Find(v, p);
    if f > 0 {
      FoundThere(v[1..], p);
      OccursInTail(v, p, f);
    } else {
      OccursAtStart(v, p);
    }
  }

  function Repeat(z: char, n: nat): string {
    seq(n, _ => z)
  }

  /** In `u + zz..z + w` with no other `z`, the run of `z` is found at its place and nowhere else. */
  lemma {:induction false} RunReplaced(u: string, z: char, n: nat, w: string)
    requires n > 0 && z !in u && z !in w
    ensures ReplaceAll(u + Repeat(z, n) + w, Repeat(z, n), MARKER) == u + MARKER + w
    decreases |u|
  {
    var s := Repeat(z, n);
    var v := u + s + w;
    if u == "" {
      assert v == s + w && v[..n] == s && v[n..] == w;
      NoRun(w, z, n);
      NoMatchNoChange(w, s);
      assert StartsWith(v, s);
      assert u + MARKER + w == MARKER + w;
    } else {
      assert v[0] == u[0] && v[1..] == u[1..] + s + w;
      assert v[..n][0] == u[0] != s[0];
      RunReplaced(u[1..], z, n, w);
      assert [u[0]] + (u[1..] + MARKER + w) == u + MARKER + w;
    }
  }

  lemma NoRun(w: string, z: char, n: nat)
    requires n > 0 && z !in w
    ensures !Contains(w, Repeat(z, n))
  {
    forall i | 0 <= i <= |w| ensures !OccursAt(w, Repeat(z, n), i) {
      if i + n <= |w| { assert w[i..i + n][0] == w[i] != Repeat(z, n)[0]; }
    }
  }

  /** A string without `z` that is longer than either side does not occur around a run of `z`. */
  lemma NoneAroundRun(u: string, z: char, n: nat, w: string, t: string)
    requires n > 0 && z !in t && |u| < |t| && |w| < |t|
    ensures !Contains(u + Repeat(z, n) + w, t)
  {
    var v := u + Repeat(z, n) + w;
    forall i | 0 <= i <= |v| ensures !OccursAt(v, t, i) {
      if i + |t| <= |v| {
        var m := if i < |u| then |u| else i;
        assert v[i..i + |t|][m - i] == v[m];
      }
    }
  }

  /** The text around a marker that completes an aligned secret. */
  function Before(t: string, d: int): string
    requires -|t| < d
  {
    if d < 0 then t[..-d] else ""
  }

  function Behind(t: string, d: int): string
    requires d < |MARKER|
  {
    if d + |t| > |MARKER| then t[if |MARKER| - d < |t| then |MARKER| - d else |t|..] else ""
  }

  lemma AlignedInside(t: string, d: int)
    requires t != "" && -|t| < d < |MARKER| && Aligns(t, d)
    ensures Contains(Before(t, d) + MARKER + Behind(t, d), t)
  {
    var z := Before(t, d) + MARKER + Behind(t, d);
    var i := if d < 0 then 0 else d;
    assert i + |t| <= |z|;
    forall k | 0 <= k < |t| ensures z[i + k] == t[k] {
      if 0 <= d + k < |MARKER| { assert t[k] == MARKER[d + k]; }
    }
    assert z[i..i + |t|] == t;
    assert OccursAt(z, t, i);
  }

  /** An alignable secret leaks: with one more secret, equally long, the replacement passes themselves spell it out. */
  lemma AlignableLeaks(t: string, d: int, z: char)
    requires |t| >= 8 && -|t| < d < |MARKER| && Aligns(t, d) && z !in t
    ensures var secrets := [t, Repeat(z, |t|)];
            var text := Before(t, d) + Repeat(z, |t|) + Behind(t, d);
            && NoneEmpty(Prepare(secrets))
            && ReplaceSecrets(Prepare(secrets), text) == Before(t, d) + MARKER + Behind(t, d)
            && Contains(ReplaceSecrets(Prepare(secrets), text), t)
  {
    var s := Repeat(z, |t|);
    var u, w := Before(t, d), Behind(t, d);
    var text := u + s + w;
    PreparedNonEmpty([t, s]);
    TwoPrepared(t, s);
    NoneAroundRun(u, z, |t|, w, t);
    NoMatchNoChange(text, t);
    RunReplaced(u, z, |t|, w);
    AlignedInside(t, d);
    TwoPasses(t, s, text);
  }

  lemma TwoPrepared(t: string, s: string)
    requires |t| == |s| >= 8
    ensures Prepare([t, s]) == [t, s]
  {
    assert [t, s][1..] == [s] && [s][1..] == [];
    assert Prepare([s]) == [s];
  }

  lemma TwoPasses(t: string, s: string, text: string)
    requires t != "" && s != ""
    ensures ReplaceSecrets([t, s], text) == ReplaceAll(ReplaceAll(text, t, MARKER), s, MARKER)
  {
    var once := ReplaceAll(text, t, MARKER);
    assert [t, s][1..] == [s] && [s][1..] == [];
    assert ReplaceSecrets([s], once) == ReplaceSecrets([], ReplaceAll(once, s, MARKER));
  }

  ghost predicate AlwaysRemoved(t: string) {
    forall secrets: seq<string>, text: string |
      t in secrets && NoneEmpty(Prepare(secrets)) :: !Contains(ReplaceSecrets(Prepare(secrets), text), t)
  }

  /**
   The replacement passes remove a secret from every text under every configuration exactly when no overlap with
   the marker can imitate it.  (`z` is any character the secret does not use.)
   */
  lemma RemovedExactlyIfUnalignable(t: string, z: char)
    requires |t| >= 8 && z !in t
    ensures AlwaysRemoved(t) <==> Unalignable(t)
  {
    if Unalignable(t) {
      UnalignableRemoved(t);
    } else {
      AlignableNotRemoved(t, z);
    }
  }

  lemma UnalignableRemoved(t: string)
    requires |t| >= 8 && Unalignable(t)
    ensures AlwaysRemoved(t)
  {
    forall secrets: seq<string>, text: string | t in secrets && NoneEmpty(Prepare(secrets))
      ensures !Contains(ReplaceSecrets(Prepare(secrets), text), t)
    {
      PrepareMembers(secrets, t);
      PassesRemove(Prepare(secrets), text, t);
    }
  }

  lemma AlignableNotRemoved(t: string, z: char)
    requires |t| >= 8 && z !in t && !Unalignable(t)
    ensures !AlwaysRemoved(t)
  {
    var d :| -|t| < d < |MARKER| && Aligns(t, d);
    AlignableLeaks(t, d, z);
    NotAlwaysRemoved(t, [t, Repeat(z, |t|)], Before(t, d) + Repeat(z, |t|) + Behind(t, d));
  }

  lemma NotAlwaysRemoved(t: string, secrets: seq<string>, text: string)
    requires t in secrets && NoneEmpty(Prepare(secrets)) && Contains(ReplaceSecrets(Prepare(secrets), text), t)
    ensures !AlwaysRemoved(t)
  {
  }

  /** Two replaced neighbours spell out this secret. */
  lemma BracketSecretIsAlignable()
    ensures !Unalignable("D][REDAC") && !AlwaysRemoved("D][REDAC")
  {
    var t := "D][REDAC";
    assert Aligns(t, -2) by {
      assert t[2..] == MARKER[..6];
      forall k | 0 <= k < |t| && 0 <= -2 + k < |MARKER| ensures t[k] == MARKER[-2 + k] {
        assert t[k] == t[2..][k - 2];
      }
    }
    RemovedExactlyIfUnalignable(t, 'z');
  }

  /******* No token survives *******/

  lemma TokenChars(x: string, k: nat)
    requires TokenText(x) && k < |x|
    ensures x[k] != '[' && x[k] != ']' && x[0] in "Bgs"
  {
    if Key(x) {
      KeyChars(x, k);
    } else {
      var b :| 6 < b < |x| && (forall m | 6 <= m < b :: Space(x[m])) && Key(x[b..]);
      BearerChars(x, b, k);
    }
  }

  lemma BearerChars(x: string, b: nat, k: nat)
    requires StartsWith(x, "Bearer") && 6 < b < |x| && k < |x|
    requires (forall m | 6 <= m < b :: Space(x[m])) && Key(x[b..])
    ensures x[k] != '[' && x[k] != ']' && x[0] == 'B'
  {
    assert x[0] == x[..6][0];
    if k < 6 {
      assert x[k] == x[..6][k];
    } else if k >= b {
      KeyChars(x[b..], k - b);
    } else {
      assert Space(x[k]);
    }
  }

  lemma KeyChars(x: string, k: nat)
    requires Key(x) && k < |x|
    ensures x[k] != '[' && x[k] != ']' && x[0] in "gs"
  {
  }

  /** `s` after its tokens before `k` were replaced by `pre`: `k` is the start or the end of a replaced token. */
  predicate Replaced(pre: string, s: string, k: nat) {
    k <= |s| && if k == 0 then pre == "" else Boundary(s, k) && pre != "" && pre[|pre| - 1] == ']'
  }

  /** `z` starts with `pre`, then copies `s[k..p]`, and then ends or goes on with a marker for the token at `p`. */
  predicate Copies(pre: string, s: string, k: nat, p: nat, z: string) {
    && Replaced(pre, s, k) && k <= p <= |s| && |pre| + p - k <= |z|
    && (forall m | |pre| <= m < |pre| + p - k :: z[m] == s[m - |pre| + k])
    && (pre != "" ==> z[|pre| - 1] == pre[|pre| - 1])
    && if p == |s| then |z| == |pre| + p - k
       else TokenStarts(s, p) && |pre| + p - k < |z| && z[|pre| + p - k] == '['
  }

  lemma CopiedStart(pre: string, s: string, k: nat, p: nat, z: string, m: nat)
    requires Copies(pre, s, k, p, z) && m < p - k && Boundary(z, |pre| + m)
    ensures Boundary(s, k + m)
  {
  }

  lemma CopiedEnd(pre: string, s: string, k: nat, p: nat, z: string, m: nat)
    requires Copies(pre, s, k, p, z) && 0 < m <= p - k && Boundary(z, |pre| + m)
    ensures Boundary(s, k + m)
  {
  }

  lemma CopiedText(pre: string, s: string, k: nat, p: nat, z: string, m: nat, n: nat)
    requires Copies(pre, s, k, p, z) && m <= n <= p - k
    ensures z[|pre| + m..|pre| + n] == s[k + m..k + n]
  {
  }

  /** A token does not reach over a bracket. */
  lemma TokenStops(z: string, i: int, j: int, end: int)
    requires TokenAt(z, i, j) && i <= end && (end < |z| ==> z[end] == '[' || z[end] == ']')
    ensures j <= end
  {
    if end < j {
      TokenChars(z[i..j], end - i);
    }
  }

  /** A token in the copied stretch of the output was one in the input. */
  lemma CopiedToken(pre: string, s: string, k: nat, p: nat, z: string, i: nat, j: nat)
    requires Copies(pre, s, k, p, z) && |pre| <= i < |pre| + p - k && TokenAt(z, i, j)
    ensures TokenStarts(s, k + (i - |pre|))
  {
    TokenStops(z, i, j, |pre| + p - k);
    var m, n := i - |pre|, j - |pre|;
    CopiedText(pre, s, k, p, z, m, n);
    CopiedStart(pre, s, k, p, z, m);
    CopiedEnd(pre, s, k, p, z, n);
    assert TokenAt(s, k + m, k + n);
  }

  lemma NoTokenInMarker(x: string, y: string, i: nat, j: nat)
    requires |x| <= i < |x| + |MARKER|
    ensures !TokenAt(x + MARKER + y, i, j)
  {
    var z := x + MARKER + y;
    assert z[i] == MARKER[i - |x|];
    if TokenAt(z, i, j) { TokenChars(z[i..j], 0); }
  }

  lemma CopiesStretch(pre: string, s: string, k: nat, p: nat, tail: string)
    requires Replaced(pre, s, k) && k <= p <= |s|
    requires if p == |s| then tail == "" else TokenStarts(s, p) && tail != "" && tail[0] == '['
    ensures Copies(pre, s, k, p, pre + (s[k..p] + tail))
  {
  }

  lemma CopiesRest(pre: string, s: string, k: nat)
    requires Replaced(pre, s, k)
    ensures Copies(pre, s, k, NextToken(s, k), pre + ReplaceTokens(s, k))
  {
    TokensUnfold(s, k);
    var p := NextToken(s, k);
    if p == |s| {
      assert s[k..p] + "" == s[k..];
      CopiesStretch(pre, s, k, p, "");
    } else {
      var rest := ReplaceTokens(s, TokenEnd(s, p, |s|));
      SplitMarker(s[k..p], rest);
      CopiesStretch(pre, s, k, p, MARKER + rest);
    }
  }

  lemma SplitMarker(x: string, y: string)
    ensures x + MARKER + y == x + (MARKER + y) && (MARKER + y)[0] == '['
  {
  }

  lemma NoTokenInCopy(pre: string, s: string, k: nat, i: nat, j: nat)
    requires Replaced(pre, s, k) && |pre| <= i < |pre| + NextToken(s, k) - k
    ensures !TokenAt(pre + ReplaceTokens(s, k), i, j)
  {
    CopiesRest(pre, s, k);
    var z := pre + ReplaceTokens(s, k);
    if TokenAt(z, i, j) { CopiedToken(pre, s, k, NextToken(s, k), z, i, j); }
  }

  lemma AfterMarker(x: string, s: string, p: nat)
    requires p < |s| && TokenStarts(s, p)
    ensures p < TokenEnd(s, p, |s|) && Replaced(x + MARKER, s, TokenEnd(s, p, |s|))
  {
  }

  lemma {:induction false} NoTokenFrom(pre: string, s: string, k: nat, i: nat, j: nat)
    requires Replaced(pre, s, k) && |pre| <= i
    ensures !TokenAt(pre + ReplaceTokens(s, k), i, j)
    decreases |s| - k
  {
    var p := NextToken(s, k);
    TokensUnfold(s, k);
    if i < |pre| + p - k {
      NoTokenInCopy(pre, s, k, i, j);
    } else if p < |s| {
      var e := TokenEnd(s, p, |s|);
      var x, rest := pre + s[k..p], ReplaceTokens(s, e);
      PrefixOfSplit(pre, s[k..p], rest);
      if i >= |x + MARKER| {
        AfterMarker(x, s, p);
        NoTokenFrom(x + MARKER, s, e, i, j);
      } else {
        NoTokenInMarker(x, rest, i, j);
      }
    }
  }

  /** Redacted text contains no token-like string: neither a left-over nor one that the markers' edges create. */
  lemma NoTokenSurvives(secrets: seq<string>, text: string, i: nat, j: nat)
    ensures !TokenAt(Redact(secrets, text), i, j)
  {
    PreparedNonEmpty(secrets);
    var v := ReplaceSecrets(Prepare(secrets), text);
    NoTokenFrom("", v, 0, i, j);
    assert "" + ReplaceTokens(v, 0) == ReplaceTokens(v, 0);
  }

  /** Hence redacting tokens once more changes nothing. */
  lemma TokenPassIdempotent(secrets: seq<string>, text: string)
    ensures ReplaceTokens(Redact(secrets, text), 0) == Redact(secrets, text)
  {
    var v := Redact(secrets, text);
    forall i, j | 0 <= i && 0 <= j <= |v| ensures !TokenAt(v, i, j) { NoTokenSurvives(secrets, text, i, j); }
    TokensUnfold(v, 0);
    assert v[0..] == v;
  }

  /******* Exactly which secrets the whole of redaction hides *******/

  /** No piece of the secret looks like a token. */
  ghost predicate TokenFree(t: string) {
    forall i, j | 0 <= i < j <= |t| :: !TokenText(t[i..j])
  }

  /** Tokens are long. */
  lemma ShortTokenFree(t: string)
    requires |t| <= 22
    ensures TokenFree(t)
  {
  }

  lemma NoTokensSame(v: string)
    requires forall i, j | 0 <= i && 0 <= j <= |v| :: !TokenAt(v, i, j)
    ensures ReplaceTokens(v, 0) == v
  {
    TokensUnfold(v, 0);
    assert v[0..] == v;
  }

  /** A token inside a stretch of `z` that copies `t` from `off` on is a token-like piece of `t`. */
  lemma TokenOfPiece(z: string, start: nat, t: string, off: nat, len: nat, i: nat, j: nat)
    requires start + len <= |z| && off + len <= |t| && z[start..start + len] == t[off..off + len]
    requires start <= i < j <= start + len && TokenText(z[i..j])
    ensures !TokenFree(t)
  {
    var m, n := off + (i - start), off + (j - start);
    SliceOfSlice(z, start, start + len, i - start, j - start);
    SliceOfSlice(t, off, off + len, i - start, j - start);
    assert TokenText(t[m..n]);
  }

  lemma NoTokenBeforeMarker(u: string, y: string, t: string, i: nat, j: nat)
    requires TokenFree(t) && |u| <= |t| && u == t[..|u|] && i < |u|
    ensures !TokenAt(u + MARKER + y, i, j)
  {
    var z := u + MARKER + y;
    if TokenAt(z, i, j) {
      TokenStops(z, i, j, |u|);
      assert z[0..|u|] == t[0..|u|];
      TokenOfPiece(z, 0, t, 0, |u|, i, j);
    }
  }

  lemma NoTokenBehindMarker(u: string, w: string, t: string, i: nat, j: nat)
    requires TokenFree(t) && |w| <= |t| && w == t[|t| - |w|..] && |u| + |MARKER| <= i
    ensures !TokenAt(u + MARKER + w, i, j)
  {
    var z := u + MARKER + w;
    if TokenAt(z, i, j) {
      var start := |u| + |MARKER|;
      assert z[start..start + |w|] == w == t[|t| - |w|..|t| - |w| + |w|];
      TokenOfPiece(z, start, t, |t| - |w|, |w|, i, j);
    }
  }

  /** The text that spells out an aligned secret holds only pieces of it around the marker. */
  lemma LeakHoldsNoToken(t: string, d: int, i: nat, j: nat)
    requires TokenFree(t) && -|t| < d < |MARKER|
    ensures !TokenAt(Before(t, d) + MARKER + Behind(t, d), i, j)
  {
    var u, w := Before(t, d), Behind(t, d);
    if i < |u| {
      NoTokenBeforeMarker(u, w, t, i, j);
    } else if i < |u| + |MARKER| {
      NoTokenInMarker(u, w, i, j);
    } else {
      NoTokenBehindMarker(u, w, t, i, j);
    }
  }

  ghost predicate AlwaysRedacted(t: string) {
    forall secrets: seq<string>, text: string | t in secrets :: !Contains(Redact(secrets, text), t)
  }

  lemma AlignableNotRedacted(t: string, z: char)
    requires |t| >= 8 && z !in t && TokenFree(t) && !Unalignable(t)
    ensures !AlwaysRedacted(t)
  {
    var d :| -|t| < d < |MARKER| && Aligns(t, d);
    AlignableLeaks(t, d, z);
    LeakStaysInText(t, d);
    NotAlwaysRedacted(t, [t, Repeat(z, |t|)], Before(t, d) + Repeat(z, |t|) + Behind(t, d));
  }

  lemma NotAlwaysRedacted(t: string, secrets: seq<string>, text: string)
    requires t in secrets && Contains(Redact(secrets, text), t)
    ensures !AlwaysRedacted(t)
  {
  }

  lemma LeakStaysInText(t: string, d: int)
    requires TokenFree(t) && -|t| < d < |MARKER|
    ensures ReplaceTokens(Before(t, d) + MARKER + Behind(t, d), 0) == Before(t, d) + MARKER + Behind(t, d)
  {
    var leaked := Before(t, d) + MARKER + Behind(t, d);
    forall i, j | 0 <= i && 0 <= j <= |leaked| ensures !TokenAt(leaked, i, j) { LeakHoldsNoToken(t, d, i, j); }
    NoTokensSame(leaked);
  }

  /**
   For secrets that hold no token-like piece, so for all of at most 22 characters, redaction as a whole removes the
   secret from every text under every configuration exactly when no overlap with the marker can imitate it.
   */
  lemma RedactedExactlyIfUnalignable(t: string, z: char)
    requires |t| >= 8 && z !in t && TokenFree(t)
    ensures AlwaysRedacted(t) <==> Unalignable(t)
  {
    if Unalignable(t) {
      forall secrets: seq<string>, text: string | t in secrets ensures !Contains(Redact(secrets, text), t) {
        SecretRemoved(secrets, text, t);
      }
    } else {
      AlignableNotRedacted(t, z);
    }
  }
}
