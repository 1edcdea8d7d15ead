/** The comparison primitives both scanners build on: literal prefix tests,
    lower-casing, and the regular-expression engine with the anchoring the
    scanners put in front of it. */
module Matching {
  import opened Outcomes

  /** Lower-casing, one character at a time (ASCII letters only). */
  function LowerChar(c: char): char {
    if 'A' <= c <= 'Z' then (c as int + 32) as char else c
  }

  function Lower(s: string): (r: string)
    ensures |r| == |s|
    ensures forall i :: 0 <= i < |s| ==> r[i] == LowerChar(s[i])
  {
    seq(|s|, i requires 0 <= i < |s| => LowerChar(s[i]))
  }

  /** `text.startsWith(prefix)` */
  predicate StartsWith(text: string, prefix: string) {
    |prefix| <= |text| && text[..|prefix|] == prefix
  }

  /** Every literal that matches case-sensitively also matches once both
      sides are lower-cased. */
  lemma LowerKeepsPrefix(text: string, prefix: string)
    requires StartsWith(text, prefix)
    ensures StartsWith(Lower(text), Lower(prefix))
  {
  }

  // ---------------------------------------------------------------------
  // Where alternation binds in a pattern source

  /** What a left-to-right reader of a pattern source knows before the next
      character: the group nesting depth, whether it is inside a character
      class, and whether the previous character was an unconsumed `\`. */
  datatype Lexer = Lexer(depth: int, inClass: bool, escaped: bool)

  const Outside: Lexer := Lexer(0, false, false)

  function Feed(st: Lexer, c: char): Lexer {
    if st.escaped then st.(escaped := false)
    else if c == '\\' then st.(escaped := true)
    else if st.inClass then (if c == ']' then st.(inClass := false) else st)
    else if c == '[' then st.(inClass := true)
    else if c == '(' then st.(depth := st.depth + 1)
    else if c == ')' then st.(depth := st.depth - 1)
    else st
  }

  /** Whether a `|` read from state `st` onwards separates alternatives of
      the whole pattern. */
  predicate BarFrom(st: Lexer, source: string)
    decreases |source|
  {
    |source| > 0 &&
    ((source[0] == '|' && st == Outside) || BarFrom(Feed(st, source[0]), source[1..]))
  }

  /** Whether the source has an alternation at the top level, where a
      leading `^` binds to the first alternative only. */
  predicate HasTopLevelBar(source: string) {
    BarFrom(Outside, source)
  }

  // ---------------------------------------------------------------------
  // The engine

  /** `text.match(re)`: the matched text `match[0]` and where it starts. */
  datatype Found = Found(index: nat, text: string)

  /** Whether the match is the text found at its index. */
  predicate OccursIn(m: Found, text: string) {
    m.index + |m.text| <= |text| && text[m.index..m.index + |m.text|] == m.text
  }

  /** Whether every match must start at index 0: a sticky pattern, or one
      that starts with `^` binding the whole pattern without the `m` flag,
      under which `^` also matches after a line break. */
  predicate PinnedToStart(source: string, flags: string) {
    'y' in flags || (StartsWith(source, "^") && !HasTopLevelBar(source) && 'm' !in flags)
  }

  /** The regular-expression engine: `Match(source, flags, text)` is the
      first match of `new RegExp(source, flags)` in `text`. Pattern syntax is
      not modelled; a match is some occurrence in the text, and it is at
      the start of the text when the pattern pins it there. */
  ghost predicate EngineLaws(f: (string, string, string) -> Option<Found>) {
    forall source, flags, text ::
      f(source, flags, text).Some? ==>
        && OccursIn(f(source, flags, text).value, text)
        && (PinnedToStart(source, flags) ==> f(source, flags, text).value.index == 0)
  }

  type Engine = f: (string, string, string) -> Option<Found> | EngineLaws(f)
    witness (source: string, flags: string, text: string) => None

  /** A match of a pinned pattern is a prefix of the text. */
  lemma PinnedMatchIsPrefix(engine: Engine, source: string, flags: string, text: string)
    requires PinnedToStart(source, flags)
    requires engine(source, flags, text).Some?
    ensures StartsWith(text, engine(source, flags, text).value.text)
  {
  }

  /** The source JavaScript gives a pattern written with nothing in it. */
  const EmptySource: string := "(?:)"

  /** Prepends `^` unless the source already starts with it. The `^` does
      not change where alternation binds. */
  function Anchored(source: string): (r: string)
    ensures StartsWith(r, "^")
    ensures StartsWith(source, "^") ==> r == source
    ensures !StartsWith(source, "^") ==> r[1..] == source
    ensures HasTopLevelBar(r) <==> HasTopLevelBar(source)
  {
    if StartsWith(source, "^") then source
    else
      var r := "^" + source;
      assert r[1..] == source;
      r
  }

  /** Adds the case-insensitive flag `i` unless it is already there. */
  function WithIgnoreCase(flags: string): (r: string)
    ensures 'i' in r
    ensures StartsWith(r, flags)
    ensures 'i' in flags ==> r == flags
    ensures forall c :: c != 'i' ==> (c in r <==> c in flags)
  {
    if 'i' in flags then flags else flags + "i"
  }

  /** Adds the sticky flag `y` unless it is already there: the match must
      then start where the search starts. */
  function Sticky(flags: string): (r: string)
    ensures 'y' in r
    ensures StartsWith(r, flags)
    ensures forall source :: PinnedToStart(source, r)
  {
    if 'y' in flags then flags else flags + "y"
  }

  /** The `|` of `a|b` is at the top level, so `^a|b` is not pinned. */
  lemma AlternationUnpinsAnchor()
    ensures HasTopLevelBar("^a|b")
    ensures !PinnedToStart("^a|b", "")
  {
    assert Feed(Outside, '^') == Outside;
    assert "^a|b"[1..] == "a|b";
    assert "a|b"[1..] == "|b";
  }
}
