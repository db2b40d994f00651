/**
 * The greedy word wrapper of the resume PDF layout (`addText` in
 * pages/api/generate-resume.js), as a specification over the words of a text.
 *
 * The text is split on single spaces; words are appended, each followed by
 * one space, to a line buffer; a word that would make the measured buffer
 * wider than the maximum width starts a new line, unless the buffer is still
 * empty. Every emitted line is the trimmed buffer. Text width is an
 * uninterpreted integer measure supplied by the caller.
 */
module Wrap {
  import opened Text

  datatype Font = Helvetica | HelveticaBold

  /** `font.widthOfTextAtSize(text, size)`: an arbitrary integer measure. */
  type Metrics = (Font, int, string) -> int

  /** The line buffer holding a group of words: each word followed by one space. */
  function Buffer(group: seq<string>): (r: string)
    ensures group == [] <==> r == []
  {
    if group == [] then ""
    else Buffer(group[..|group| - 1]) + group[|group| - 1] + " "
  }

  /** The wrapper's state after some words: the completed groups and the group still open. */
  datatype WrapState = WrapState(done: seq<seq<string>>, current: seq<string>)

  /** Consumes one word: a word that overflows a non-empty buffer closes it and opens a new one. */
  function Step(s: WrapState, word: string, m: Metrics, font: Font, size: int, maxWidth: int): WrapState {
    if m(font, size, Buffer(s.current) + word + " ") > maxWidth && Buffer(s.current) != "" then
      WrapState(s.done + [s.current], [word])
    else
      WrapState(s.done, s.current + [word])
  }

  /** The state after consuming `words` from left to right. */
  function Accumulate(words: seq<string>, m: Metrics, font: Font, size: int, maxWidth: int): WrapState {
    if words == [] then WrapState([], [])
    else Step(Accumulate(words[..|words| - 1], m, font, size, maxWidth), words[|words| - 1], m, font, size, maxWidth)
  }

  /** The groups of words that end up on one line each; the last buffer is always pushed. */
  function Groups(words: seq<string>, m: Metrics, font: Font, size: int, maxWidth: int): seq<seq<string>> {
    var s := Accumulate(words, m, font, size, maxWidth);
    s.done + [s.current]
  }

  /** The emitted text of each group: its buffer, trimmed. */
  function LinesOf(groups: seq<seq<string>>): (r: seq<string>)
    ensures |r| == |groups|
  {
    if groups == [] then []
    else LinesOf(groups[..|groups| - 1]) + [Trim(Buffer(groups[|groups| - 1]))]
  }

  /** Line `i` is the trimmed buffer of group `i`. */
  lemma {:induction false} LinesOfIndex(groups: seq<seq<string>>)
    ensures forall i :: 0 <= i < |groups| ==> LinesOf(groups)[i] == Trim(Buffer(groups[i]))
  {
    if groups != [] {
      LinesOfIndex(groups[..|groups| - 1]);
    }
  }

  /** The lines `addText` draws for `text`. */
  function WrapLines(text: string, m: Metrics, font: Font, size: int, maxWidth: int): seq<string> {
    LinesOf(Groups(Split(text, ' '), m, font, size, maxWidth))
  }

  /** The concatenation of a sequence of groups. */
  function Flatten(groups: seq<seq<string>>): seq<string> {
    if groups == [] then [] else Flatten(groups[..|groups| - 1]) + groups[|groups| - 1]
  }

  // ---------------------------------------------------------------------
  // properties of the accumulation

  /** A group of two or more words was only ever extended within the width. */
  ghost predicate Fits(g: seq<string>, m: Metrics, font: Font, size: int, maxWidth: int) {
    |g| >= 2 ==> m(font, size, Buffer(g)) <= maxWidth
  }

  /** Group `g` was closed because the next group's first word did not fit behind it. */
  ghost predicate Overflows(g: seq<string>, next: seq<string>, m: Metrics, font: Font, size: int, maxWidth: int) {
    next != [] && m(font, size, Buffer(g) + next[0] + " ") > maxWidth
  }

  /** What holds of the state after every prefix of the words. */
  ghost predicate Invariant(words: seq<string>, s: WrapState, m: Metrics, font: Font, size: int, maxWidth: int) {
    && Flatten(s.done) + s.current == words
    && (s.current == [] <==> words == [])
    && (forall i :: 0 <= i < |s.done| ==> s.done[i] != [])
    && (forall i :: 0 <= i < |s.done| ==> Fits(s.done[i], m, font, size, maxWidth))
    && Fits(s.current, m, font, size, maxWidth)
    && (forall i {:trigger Overflows(s.done[i], s.done[i + 1], m, font, size, maxWidth)} ::
          0 <= i < |s.done| - 1 ==> Overflows(s.done[i], s.done[i + 1], m, font, size, maxWidth))
    && (s.done != [] ==> Overflows(s.done[|s.done| - 1], s.current, m, font, size, maxWidth))
  }

  /** Closing the open group keeps the invariant. */
  lemma StepCloses(words: seq<string>, w: string, s: WrapState, m: Metrics, font: Font, size: int, maxWidth: int)
    requires Invariant(words, s, m, font, size, maxWidth)
    requires m(font, size, Buffer(s.current) + w + " ") > maxWidth && Buffer(s.current) != ""
    ensures Invariant(words + [w], Step(s, w, m, font, size, maxWidth), m, font, size, maxWidth)
  {
    var t := WrapState(s.done + [s.current], [w]);
    assert t.done[..|t.done| - 1] == s.done;
    assert Flatten(t.done) + t.current == words + [w];
    assert Buffer([w]) == "" + w + " " by { assert [w][..0] == []; }
    assert Overflows(t.done[|t.done| - 1], t.current, m, font, size, maxWidth);
    assert forall i :: 0 <= i < |s.done| ==> t.done[i] == s.done[i];
  }

  /** Extending the open group keeps the invariant. */
  lemma StepExtends(words: seq<string>, w: string, s: WrapState, m: Metrics, font: Font, size: int, maxWidth: int)
    requires Invariant(words, s, m, font, size, maxWidth)
    requires !(m(font, size, Buffer(s.current) + w + " ") > maxWidth && Buffer(s.current) != "")
    ensures Invariant(words + [w], Step(s, w, m, font, size, maxWidth), m, font, size, maxWidth)
  {
    var c := s.current + [w];
    assert Step(s, w, m, font, size, maxWidth) == WrapState(s.done, c);
    assert c[..|c| - 1] == s.current;
    assert Buffer(c) == Buffer(s.current) + w + " ";
    assert Flatten(s.done) + c == words + [w];
    assert Fits(c, m, font, size, maxWidth) by {
      if |c| >= 2 {
        assert Buffer(s.current) != "";
      }
    }
    if s.done != [] {
      assert s.current != [];
      assert c[0] == s.current[0];
      assert Overflows(s.done[|s.done| - 1], c, m, font, size, maxWidth);
    }
  }

  lemma AccumulateLast(words: seq<string>, m: Metrics, font: Font, size: int, maxWidth: int)
    requires words != []
    ensures Accumulate(words, m, font, size, maxWidth)
         == Step(Accumulate(words[..|words| - 1], m, font, size, maxWidth), words[|words| - 1], m, font, size, maxWidth)
  {
  }

  /** Consuming one more word keeps the invariant. */
  lemma StepPreserves(words: seq<string>, m: Metrics, font: Font, size: int, maxWidth: int)
    requires words != []
    requires Invariant(words[..|words| - 1], Accumulate(words[..|words| - 1], m, font, size, maxWidth), m, font, size, maxWidth)
    ensures Invariant(words, Step(Accumulate(words[..|words| - 1], m, font, size, maxWidth), words[|words| - 1], m, font, size, maxWidth), m, font, size, maxWidth)
  {
    var prefix := words[..|words| - 1];
    var w := words[|words| - 1];
    var s := Accumulate(prefix, m, font, size, maxWidth);
    assert words == prefix + [w];
    if m(font, size, Buffer(s.current) + w + " ") > maxWidth && Buffer(s.current) != "" {
      StepCloses(prefix, w, s, m, font, size, maxWidth);
    } else {
      StepExtends(prefix, w, s, m, font, size, maxWidth);
    }
  }

  lemma {:induction false} AccumulateInvariant(words: seq<string>, m: Metrics, font: Font, size: int, maxWidth: int)
    ensures Invariant(words, Accumulate(words, m, font, size, maxWidth), m, font, size, maxWidth)
  {
    if words != [] {
      AccumulateInvariant(words[..|words| - 1], m, font, size, maxWidth);
      StepPreserves(words, m, font, size, maxWidth);
      AccumulateLast(words, m, font, size, maxWidth);
    }
  }

  /** A flattened sequence of non-empty groups is at least as long as the number of groups. */
  lemma {:induction false} FlattenLength(groups: seq<seq<string>>)
    requires forall i :: 0 <= i < |groups| ==> groups[i] != []
    ensures |Flatten(groups)| >= |groups|
  {
    if groups != [] {
      FlattenLength(groups[..|groups| - 1]);
    }
  }

  /** A state that keeps the invariant for non-empty words, with its open group closed, is a
      partition of the words into non-empty groups. */
  lemma ClosedPartition(words: seq<string>, s: WrapState, m: Metrics, font: Font, size: int, maxWidth: int)
    requires words != [] && Invariant(words, s, m, font, size, maxWidth)
    ensures var gs := s.done + [s.current];
      && Flatten(gs) == words
      && (forall i :: 0 <= i < |gs| ==> gs[i] != [])
      && 1 <= |gs| <= |words|
  {
    var gs := s.done + [s.current];
    assert gs[..|gs| - 1] == s.done;
    assert Flatten(gs) == Flatten(s.done) + s.current;
    forall i | 0 <= i < |gs| ensures gs[i] != [] {
      if i < |s.done| {
        assert gs[i] == s.done[i];
      }
    }
    FlattenLength(gs);
  }

  /** The groups partition the words in order: concatenated they are the words, and none is empty. */
  lemma GroupsPartition(words: seq<string>, m: Metrics, font: Font, size: int, maxWidth: int)
    requires words != []
    ensures var gs := Groups(words, m, font, size, maxWidth);
      && Flatten(gs) == words
      && (forall i :: 0 <= i < |gs| ==> gs[i] != [])
      && 1 <= |gs| <= |words|
  {
    var s := Accumulate(words, m, font, size, maxWidth);
    AccumulateInvariant(words, m, font, size, maxWidth);
    ClosedPartition(words, s, m, font, size, maxWidth);
    assert Groups(words, m, font, size, maxWidth) == s.done + [s.current];
  }

  /** A line holding two or more words is within the width: only a single word can overflow. */
  lemma GroupsFit(words: seq<string>, m: Metrics, font: Font, size: int, maxWidth: int, i: int)
    requires 0 <= i < |Groups(words, m, font, size, maxWidth)|
    requires |Groups(words, m, font, size, maxWidth)[i]| >= 2
    ensures m(font, size, Buffer(Groups(words, m, font, size, maxWidth)[i])) <= maxWidth
  {
    AccumulateInvariant(words, m, font, size, maxWidth);
  }

  /** Lines are broken only when needed: the first word of each following line did not fit behind the previous one. */
  lemma GroupsGreedy(words: seq<string>, m: Metrics, font: Font, size: int, maxWidth: int, i: int)
    requires 0 <= i < |Groups(words, m, font, size, maxWidth)| - 1
    ensures var gs := Groups(words, m, font, size, maxWidth);
      gs[i + 1] != [] && m(font, size, Buffer(gs[i]) + gs[i + 1][0] + " ") > maxWidth
  {
    AccumulateInvariant(words, m, font, size, maxWidth);
    var s := Accumulate(words, m, font, size, maxWidth);
    var gs := Groups(words, m, font, size, maxWidth);
    if i < |s.done| - 1 {
      assert Overflows(s.done[i], s.done[i + 1], m, font, size, maxWidth);
    }
  }

  /** `addText` emits at least one line, even for empty text, and never more lines than words. */
  lemma WrapLinesCount(text: string, m: Metrics, font: Font, size: int, maxWidth: int)
    ensures 1 <= |WrapLines(text, m, font, size, maxWidth)| <= |Split(text, ' ')|
  {
    GroupsPartition(Split(text, ' '), m, font, size, maxWidth);
  }

  /** The empty text is drawn as one empty line. */
  lemma WrapEmptyText(m: Metrics, font: Font, size: int, maxWidth: int)
    ensures WrapLines("", m, font, size, maxWidth) == [""]
  {
    var words := Split("", ' ');
    assert words == [""];
    assert words[..0] == [];
    assert Accumulate(words, m, font, size, maxWidth) == WrapState([], [""]);
    var g := Groups(words, m, font, size, maxWidth);
    assert g == [[""]];
    assert Buffer([""]) == " " by { assert [""][..0] == []; }
    assert Trim(" ") == "" by { TrimEmptyIff(" "); }
  }

  /** A measure is monotone under taking infixes: cutting characters never widens a string. */
  ghost predicate MonotoneOnInfixes(m: Metrics) {
    forall font, size, s: string, i, j | 0 <= i <= j <= |s| :: m(font, size, s[i..j]) <= m(font, size, s)
  }

  /** Under a monotone measure every emitted line of two or more words is itself within the width. */
  lemma LineFits(text: string, m: Metrics, font: Font, size: int, maxWidth: int, i: int)
    requires MonotoneOnInfixes(m)
    requires 0 <= i < |Groups(Split(text, ' '), m, font, size, maxWidth)|
    requires |Groups(Split(text, ' '), m, font, size, maxWidth)[i]| >= 2
    ensures m(font, size, WrapLines(text, m, font, size, maxWidth)[i]) <= maxWidth
  {
    var g := Groups(Split(text, ' '), m, font, size, maxWidth)[i];
    GroupsFit(Split(text, ' '), m, font, size, maxWidth, i);
    LinesOfIndex(Groups(Split(text, ' '), m, font, size, maxWidth));
    var a, b := TrimIsInfix(Buffer(g));
    assert m(font, size, Buffer(g)[a..b]) <= m(font, size, Buffer(g));
  }

  // ---------------------------------------------------------------------
  // the wrapping loop of addText

  lemma LinesOfSnoc(groups: seq<seq<string>>, g: seq<string>)
    ensures LinesOf(groups + [g]) == LinesOf(groups) + [Trim(Buffer(g))]
  {
    assert (groups + [g])[..|groups|] == groups;
  }

  lemma BufferSingle(word: string)
    ensures Buffer([word]) == word + " "
  {
    assert [word][..0] == [];
  }

  /** One turn of the word loop: the buffer and the pushed lines of the next state. */
  lemma WrapStep(words: seq<string>, i: nat, s: WrapState, m: Metrics, font: Font, size: int, maxWidth: int)
    requires i < |words| && s == Accumulate(words[..i], m, font, size, maxWidth)
    ensures var t := Step(s, words[i], m, font, size, maxWidth);
      && t == Accumulate(words[..i + 1], m, font, size, maxWidth)
      && (m(font, size, Buffer(s.current) + words[i] + " ") > maxWidth && Buffer(s.current) != ""
          ==> LinesOf(t.done) == LinesOf(s.done) + [Trim(Buffer(s.current))] && Buffer(t.current) == words[i] + " ")
      && (!(m(font, size, Buffer(s.current) + words[i] + " ") > maxWidth && Buffer(s.current) != "")
          ==> t.done == s.done && Buffer(t.current) == Buffer(s.current) + words[i] + " ")
  {
    assert words[..i + 1][..i] == words[..i];
    AccumulateLast(words[..i + 1], m, font, size, maxWidth);
    var c := s.current + [words[i]];
    assert c[..|c| - 1] == s.current;
    LinesOfSnoc(s.done, s.current);
    BufferSingle(words[i]);
  }

  /** The first loop of `addText`: walks the words of `text` with a line buffer, pushing the
      trimmed buffer whenever the next word would overflow a non-empty one, and pushes the
      last buffer at the end. The lines are those of the greedy grouping. */
  method WrapText(text: string, m: Metrics, font: Font, size: int, maxWidth: int) returns (lines: seq<string>)
    ensures lines == WrapLines(text, m, font, size, maxWidth)
  {
    var words := Split(text, ' ');
    var line := "";
    lines := [];
    ghost var s := WrapState([], []);
    for i := 0 to |words|
      invariant s == Accumulate(words[..i], m, font, size, maxWidth)
      invariant line == Buffer(s.current)
      invariant lines == LinesOf(s.done)
    {
      var word := words[i];
      var testLine := line + word + " ";
      var testWidth := m(font, size, testLine);
      WrapStep(words, i, s, m, font, size, maxWidth);
      if testWidth > maxWidth && line != "" {
        lines := lines + [Trim(line)];
        line := word + " ";
      } else {
        line := testLine;
      }
      s := Step(s, word, m, font, size, maxWidth);
    }
    assert words[..|words|] == words;
    LinesOfSnoc(s.done, s.current);
    lines := lines + [Trim(line)];
  }
}
