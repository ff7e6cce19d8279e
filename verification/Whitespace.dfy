/** White space as ECMA-262 has it. */
module Whitespace {

  /** White space, as `\s` and `trim` have it. */
  predicate Space(c: char) {
    || c in " \t\n\r"
    || c == '\U{000B}' || c == '\U{000C}' || c == '\U{00A0}' || c == '\U{1680}' || '\U{2000}' <= c <= '\U{200A}'
    || c == '\U{2028}' || c == '\U{2029}' || c == '\U{202F}' || c == '\U{205F}' || c == '\U{3000}' || c == '\U{FEFF}'
  }

  /** The same characters by code point: the controls, the space separators, the two line separators and the mark. */
  lemma SpaceByCode(c: char)
    ensures Space(c) <==>
              || 9 <= c as int <= 13 || c as int in {32, 160, 5760, 8239, 8287, 12288, 8232, 8233, 65279}
              || 8192 <= c as int <= 8202
  {
  }

  function Trim(s: string): string
    decreases |s|
  {
    if s == "" then ""
    else if Space(s[0]) then Trim(s[1..])
    else if Space(s[|s| - 1]) then Trim(s[..|s| - 1])
    else s
  }

  predicate Blank(s: string) {
    forall c | c in s :: Space(c)
  }

  predicate Tight(s: string) {
    s != "" ==> !Space(s[0]) && !Space(s[|s| - 1])
  }

  /** Trimming takes away all the white space around a text, and nothing within it. */
  lemma {:induction false} TrimExactly(before: string, core: string, after: string)
    requires Blank(before) && Tight(core) && Blank(after)
    ensures Trim(before + core + after) == core
    decreases |before| + |after|
  {
    var s := before + core + after;
    if before != "" {
      assert before[0] in before && s[1..] == before[1..] + core + after;
      TrimExactly(before[1..], core, after);
    } else if after != "" {
      assert s == core + after;
      TrimEnd(core, after);
    } else {
      assert s == core;
    }
  }

  lemma {:induction false} TrimEnd(core: string, after: string)
    requires Tight(core) && Blank(after)
    ensures Trim(core + after) == core
  {
    var s := core + after;
    if core == "" {
      assert s == after;
      TrimBlank(after);
    } else if after != "" {
      assert s[0] == core[0] && s[|s| - 1] == after[|after| - 1] && after[|after| - 1] in after;
      assert s[..|s| - 1] == core + after[..|after| - 1];
      TrimEnd(core, after[..|after| - 1]);
    } else {
      assert s == core;
    }
  }

  lemma {:induction false} TrimBlank(s: string)
    requires Blank(s)
    ensures Trim(s) == ""
  {
    if s != "" {
      assert s[0] in s;
      TrimBlank(s[1..]);
    }
  }
}
