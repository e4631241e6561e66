/** Greedy line wrapping: nothing is lost, every line fits or is one word, and no other such layout is shorter. */
module LineWrap {
  import opened Text

  /** How wide the font draws a string. */
  type Width = string -> real

  predicate Fits(s: string, width: Width, max: real) {
    width(s) <= max
  }

  // ---------- Splitting a text at white space ----------

  /** split(/\s+/): maximal runs of white space separate; a run at either end leaves an empty word there. */
  function Split(text: string): seq<string>
    decreases |text|
  {
    var i := FirstSpace(text);
    if i == |text| then [text]
    else
      TrimStartShrinks(text[i..]);
      [text[..i]] + Split(TrimStart(text[i..]))
  }

  ghost predicate AllNonEmpty(words: seq<string>) {
    forall i :: 0 <= i < |words| ==> words[i] != ""
  }

  function NonEmpty(words: seq<string>): seq<string> {
    if words == [] then []
    else if words[0] == "" then NonEmpty(words[1..])
    else [words[0]] + NonEmpty(words[1..])
  }

  /** The words of a text. */
  function Words(text: string): seq<string> {
    NonEmpty(Split(text))
  }

  predicate EndsWhite(text: string) {
    text != "" && IsSpace(text[|text| - 1])
  }

  function Lead(text: string): seq<string> {
    if text == "" || IsSpace(text[0]) then [""] else []
  }

  function Trail(text: string): seq<string> {
    if EndsWhite(text) then [""] else []
  }

  lemma {:induction false} WordsNonEmpty(words: seq<string>)
    ensures AllNonEmpty(NonEmpty(words))
    decreases |words|
  {
    if words != [] { WordsNonEmpty(words[1..]); }
  }

  /** The text after the first run of white space: it starts with a word, and ends as the whole text does. */
  lemma AfterWhite(text: string, rest: string)
    requires FirstSpace(text) < |text| && rest == TrimStart(text[FirstSpace(text)..])
    ensures |rest| < |text|
    ensures if rest == "" then EndsWhite(text) else !IsSpace(rest[0]) && EndsWhite(rest) == EndsWhite(text)
    ensures Split(text) == [text[..FirstSpace(text)]] + Split(rest)
  {
    var white := text[FirstSpace(text)..];
    TrimStartShrinks(white);
    TrimStartClean(white);
    if rest == "" { AllWhite(white); }
  }

  lemma SplitCases(text: string, rest: string)
    requires FirstSpace(text) < |text| && Split(text) == [text[..FirstSpace(text)]] + Split(rest)
    requires Split(rest) == Lead(rest) + Words(rest) + Trail(rest)
    requires if rest == "" then EndsWhite(text) else !IsSpace(rest[0]) && EndsWhite(rest) == EndsWhite(text)
    ensures Split(text) == Lead(text) + Words(text) + Trail(text)
  {
    var first := text[..FirstSpace(text)];
    assert Split(text)[1..] == Split(rest);
    assert NonEmpty(Split(text)) == (if first == "" then [] else [first]) + Words(rest);
    assert Lead(text) + (if first == "" then [] else [first]) == [first];
    if rest == "" {
      assert Split(rest) == [""] && [""][1..] == [];
      assert Words(text) == if first == "" then [] else [first];
      assert Trail(text) == [""];
    } else {
      assert Lead(rest) == [] && Trail(rest) == Trail(text);
      OnTo(Lead(text), if first == "" then [] else [first], Words(rest), Trail(text));
    }
  }

  lemma OnTo(a: seq<string>, b: seq<string>, c: seq<string>, d: seq<string>)
    ensures (a + b) + ([] + c + d) == a + (b + c) + d
  {
  }

  /** Splitting leaves an empty word at each end that is white space, and nowhere else. */
  lemma {:induction false} SplitShape(text: string)
    ensures Split(text) == Lead(text) + Words(text) + Trail(text)
    decreases |text|
  {
    if FirstSpace(text) == |text| {
      assert [text][1..] == [];
      assert NonEmpty([text]) == if text == "" then [] else [text];
      assert !EndsWhite(text);
    } else {
      var rest := TrimStart(text[FirstSpace(text)..]);
      AfterWhite(text, rest);
      SplitShape(rest);
      SplitCases(text, rest);
    }
  }

  lemma {:induction false} AllWhite(s: string)
    requires TrimStart(s) == "" && s != ""
    ensures EndsWhite(s)
    decreases |s|
  {
    if |s| > 1 { AllWhite(s[1..]); }
  }

  // ---------- The loop ----------

  /** The lines still to come when `line` is being filled. */
  function WrapFrom(line: string, words: seq<string>, width: Width, max: real): seq<string>
    decreases |words|
  {
    if words == [] then (if line != "" then [line] else [])
    else
      var candidate := if line != "" then line + " " + words[0] else words[0];
      if !Fits(candidate, width, max) && line != "" then [line] + WrapFrom(words[0], words[1..], width, max)
      else WrapFrom(candidate, words[1..], width, max)
  }

  method Wrap(text: string, width: Width, max: real) returns (lines: seq<string>)
    ensures lines == WrapFrom("", Split(text), width, max)
  {
    lines := [];
    var line := "";
    var words := Split(text);
    for i := 0 to |words|
      invariant lines + WrapFrom(line, words[i..], width, max) == WrapFrom("", words, width, max)
    {
      var word := words[i];
      assert words[i..][0] == word && words[i..][1..] == words[i + 1..];
      var candidate := if line != "" then line + " " + word else word;
      if width(candidate) > max && line != "" {
        lines := lines + [line];
        line := word;
      } else {
        line := candidate;
      }
    }
    if line != "" {
      lines := lines + [line];
    }
  }

  // ---------- Layouts ----------

  function Join(words: seq<string>): string {
    if words == [] then ""
    else if |words| == 1 then words[0]
    else Join(words[..|words| - 1]) + " " + words[|words| - 1]
  }

  function Flatten(groups: seq<seq<string>>): seq<string> {
    if groups == [] then [] else groups[0] + Flatten(groups[1..])
  }

  predicate LineOk(group: seq<string>, width: Width, max: real) {
    group != [] && (|group| == 1 || width(Join(group)) <= max)
  }

  /** The words cut into consecutive lines, each of which fits or is a single word. */
  ghost predicate Layout(groups: seq<seq<string>>, words: seq<string>, width: Width, max: real) {
    && Flatten(groups) == words
    && forall i :: 0 <= i < |groups| ==> LineOk(groups[i], width, max)
  }

  function Lines(groups: seq<seq<string>>): seq<string> {
    if groups == [] then [] else [Join(groups[0])] + Lines(groups[1..])
  }

  /** The greedy layout, when `current` is the line being filled. */
  function Greedy(current: seq<string>, words: seq<string>, width: Width, max: real): seq<seq<string>>
    decreases |words|
  {
    if words == [] then (if current != [] then [current] else [])
    else if current != [] && !Fits(Join(current + [words[0]]), width, max)
        then [current] + Greedy([words[0]], words[1..], width, max)
    else Greedy(current + [words[0]], words[1..], width, max)
  }

  lemma JoinPlus(words: seq<string>, word: string)
    ensures Join(words + [word]) == if words == [] then word else Join(words) + " " + word
  {
    assert (words + [word])[..|words|] == words;
  }

  lemma {:induction false} JoinNonEmpty(words: seq<string>)
    requires words != [] && AllNonEmpty(words)
    ensures Join(words) != ""
    decreases |words|
  {
    if |words| > 1 { JoinNonEmpty(words[..|words| - 1]); }
  }

  /** On non-empty words the loop's lines are the joined lines of the greedy layout. */
  lemma {:induction false} WrapIsGreedy(current: seq<string>, words: seq<string>, width: Width, max: real)
    requires AllNonEmpty(current) && AllNonEmpty(words)
    ensures WrapFrom(Join(current), words, width, max) == Lines(Greedy(current, words, width, max))
    decreases |words|
  {
    if current != [] { JoinNonEmpty(current); }
    if words == [] {
      assert Lines([current]) == [Join(current)] + Lines([]);
    } else {
      JoinPlus(current, words[0]);
      if current != [] && !Fits(Join(current + [words[0]]), width, max) {
        WrapIsGreedy([words[0]], words[1..], width, max);
      } else {
        WrapIsGreedy(current + [words[0]], words[1..], width, max);
      }
    }
  }

  lemma LayoutCons(line: seq<string>, tail: seq<seq<string>>, words: seq<string>, width: Width, max: real)
    requires LineOk(line, width, max) && Layout(tail, words, width, max)
    ensures Layout([line] + tail, line + words, width, max)
  {
    assert ([line] + tail)[1..] == tail;
  }

  lemma {:induction false} GreedyIsLayout(current: seq<string>, words: seq<string>, width: Width, max: real)
    requires current == [] || LineOk(current, width, max)
    ensures Layout(Greedy(current, words, width, max), current + words, width, max)
    decreases |words|
  {
    if words == [] {
      if current != [] {
        LayoutCons(current, [], [], width, max);
        assert [current] + [] == [current];
      }
      assert current + words == current;
    } else {
      var w, rest := words[0], words[1..];
      assert words == [w] + rest;
      if current != [] && !Fits(Join(current + [w]), width, max) {
        GreedyIsLayout([w], rest, width, max);
        LayoutCons(current, Greedy([w], rest, width, max), words, width, max);
      } else {
        JoinPlus(current, w);
        GreedyIsLayout(current + [w], rest, width, max);
        assert current + words == (current + [w]) + rest;
      }
    }
  }

  // ---------- Optimality ----------

  /** A contiguous run of words inside a fitting line also fits. */
  ghost predicate RunsFit(width: Width, max: real) {
    forall line: seq<string>, i, j :: 0 <= i < j <= |line| && Fits(Join(line), width, max)
        ==> Fits(Join(line[i..j]), width, max)
  }

  /** Another layout is in the middle of its first line, having placed `placed` of it. */
  ghost predicate Midway(groups: seq<seq<string>>, placed: seq<string>, words: seq<string>, width: Width, max: real) {
    && groups != [] && placed != [] && placed <= groups[0]
    && Layout(groups, placed + words, width, max)
  }

  /** The other layout either puts the next word on the line it is filling, or starts a new line with it. */
  lemma NextWord(groups: seq<seq<string>>, placed: seq<string>, words: seq<string>, width: Width, max: real)
    requires Midway(groups, placed, words, width, max) && words != []
    ensures if |groups[0]| > |placed|
            then Midway(groups, placed + [words[0]], words[1..], width, max) && Fits(Join(groups[0]), width, max)
            else |groups| > 1 && Midway(groups[1..], [words[0]], words[1..], width, max)
  {
    var all := placed + words;
    assert Flatten(groups) == groups[0] + Flatten(groups[1..]);
    if |groups[0]| > |placed| {
      assert groups[0][|placed|] == all[|placed|] == words[0];
      assert placed + [words[0]] <= groups[0];
      Shift(placed, words);
    } else {
      assert groups[0] == placed;
      assert Flatten(groups[1..]) == all[|placed|..];
      assert all[|placed|..] == words;
      LaterLines(groups, words, width, max);
      NextLine(groups[1..], words, width, max);
    }
  }

  lemma Shift(placed: seq<string>, words: seq<string>)
    requires words != []
    ensures placed + words == (placed + [words[0]]) + words[1..]
  {
  }

  lemma LaterLines(groups: seq<seq<string>>, words: seq<string>, width: Width, max: real)
    requires groups != [] && forall i :: 0 <= i < |groups| ==> LineOk(groups[i], width, max)
    requires Flatten(groups[1..]) == words
    ensures Layout(groups[1..], words, width, max)
  {
    assert forall i :: 0 <= i < |groups[1..]| ==> groups[1..][i] == groups[i + 1];
  }

  lemma NextLine(groups: seq<seq<string>>, words: seq<string>, width: Width, max: real)
    requires Layout(groups, words, width, max) && words != []
    ensures groups != [] && Midway(groups, [words[0]], words[1..], width, max)
  {
    assert groups != [];
    assert LineOk(groups[0], width, max);
    assert Flatten(groups)[0] == groups[0][0];
    assert words == [words[0]] + words[1..];
  }

  /** When greedy is one line behind, it needs at most one line more. */
  lemma {:induction false} GreedyBehind(current: seq<string>, groups: seq<seq<string>>, placed: seq<string>,
      words: seq<string>, width: Width, max: real)
    requires current != [] && Midway(groups, placed, words, width, max) && RunsFit(width, max)
    ensures |Greedy(current, words, width, max)| <= 1 + |groups|
    decreases |words|, 1
  {
    if words != [] {
      var w := words[0];
      NextWord(groups, placed, words, width, max);
      var breaks := !Fits(Join(current + [w]), width, max);
      if |groups[0]| > |placed| {
        if breaks {
          assert (placed + [w])[|placed|..] == [w];
          GreedyAhead([w], groups, placed + [w], words[1..], width, max);
        } else {
          GreedyBehind(current + [w], groups, placed + [w], words[1..], width, max);
        }
      } else {
        if breaks {
          GreedyAhead([w], groups[1..], [w], words[1..], width, max);
        } else {
          GreedyBehind(current + [w], groups[1..], [w], words[1..], width, max);
        }
      }
    }
  }

  /** While greedy's line is a suffix of the other layout's line, greedy needs no more lines. */
  lemma {:induction false} GreedyAhead(current: seq<string>, groups: seq<seq<string>>, placed: seq<string>,
      words: seq<string>, width: Width, max: real)
    requires current != [] && |current| <= |placed| && current == placed[|placed| - |current|..]
    requires Midway(groups, placed, words, width, max) && RunsFit(width, max)
    ensures |Greedy(current, words, width, max)| <= |groups|
    decreases |words|, 0
  {
    if words != [] {
      var w := words[0];
      NextWord(groups, placed, words, width, max);
      if |groups[0]| > |placed| {
        var more := placed + [w];
        assert current + [w] == more[|more| - |current| - 1..];
        assert groups[0][|more| - |current| - 1..|more|] == current + [w];
        assert Fits(Join(groups[0][|more| - |current| - 1..|more|]), width, max);
        GreedyAhead(current + [w], groups, more, words[1..], width, max);
      } else if !Fits(Join(current + [w]), width, max) {
        GreedyAhead([w], groups[1..], [w], words[1..], width, max);
      } else {
        GreedyBehind(current + [w], groups[1..], [w], words[1..], width, max);
      }
    }
  }

  /** The last line with one more space, when it still fits. */
  function TrailingSpace(lines: seq<string>, width: Width, max: real): seq<string> {
    if lines != [] && width(lines[|lines| - 1] + " ") <= max
    then lines[..|lines| - 1] + [lines[|lines| - 1] + " "]
    else lines
  }

  /** An empty word after the others. */
  lemma {:induction false} WrapEmptyLast(line: string, words: seq<string>, width: Width, max: real)
    requires AllNonEmpty(words)
    ensures WrapFrom(line, words + [""], width, max) == TrailingSpace(WrapFrom(line, words, width, max), width, max)
    decreases |words|
  {
    if words == [] {
      assert words + [""] == [""] && [""][1..] == [];
      assert line + " " + "" == line + " ";
      assert WrapFrom("", [], width, max) == [];
    } else {
      var candidate := if line != "" then line + " " + words[0] else words[0];
      assert (words + [""])[1..] == words[1..] + [""];
      if !Fits(candidate, width, max) && line != "" {
        WrapEmptyLast(words[0], words[1..], width, max);
        WrapSome(words[0], words[1..], width, max);
        TrailingCons(line, WrapFrom(words[0], words[1..], width, max), width, max);
      } else {
        WrapEmptyLast(candidate, words[1..], width, max);
      }
    }
  }

  lemma {:induction false} WrapSome(line: string, words: seq<string>, width: Width, max: real)
    requires line != ""
    ensures WrapFrom(line, words, width, max) != []
    decreases |words|
  {
    if words != [] {
      var candidate := line + " " + words[0];
      if Fits(candidate, width, max) { WrapSome(candidate, words[1..], width, max); }
    }
  }

  lemma TrailingCons(line: string, lines: seq<string>, width: Width, max: real)
    requires lines != []
    ensures TrailingSpace([line] + lines, width, max) == [line] + TrailingSpace(lines, width, max)
  {
  }

  /** White space before a text makes no difference, and after it at most one space at the end of the last line. */
  lemma WrapShape(text: string, width: Width, max: real)
    ensures
      var lines := WrapFrom("", Words(text), width, max);
      WrapFrom("", Split(text), width, max) == if EndsWhite(text) then TrailingSpace(lines, width, max) else lines
  {
    var words := Words(text);
    WordsNonEmpty(Split(text));
    SplitShape(text);
    if Lead(text) != [] {
      assert ([""] + (words + Trail(text)))[1..] == words + Trail(text);
      assert Split(text) == [""] + (words + Trail(text));
    } else {
      assert Split(text) == words + Trail(text);
    }
    if EndsWhite(text) {
      WrapEmptyLast("", words, width, max);
    } else {
      assert words + [] == words;
    }
  }

  /**
   For every text, the wrapped lines are the joined lines of a layout of its words, but for a space at the end of
   the last one exactly when the text ends in white space and the line fits with it; and when runs inside fitting
   lines fit, every layout of those words has at least as many lines.
   */
  lemma WrapIsOptimal(text: string, width: Width, max: real, other: seq<seq<string>>)
    ensures
      var groups := Greedy([], Words(text), width, max);
      && WrapFrom("", Split(text), width, max)
         == (if EndsWhite(text) then TrailingSpace(Lines(groups), width, max) else Lines(groups))
      && Layout(groups, Words(text), width, max)
      && (RunsFit(width, max) && Layout(other, Words(text), width, max) ==> |groups| <= |other|)
  {
    var words := Words(text);
    WrapShape(text, width, max);
    WordsNonEmpty(Split(text));
    WrapIsGreedy([], words, width, max);
    GreedyIsLayout([], words, width, max);
    assert [] + words == words;
    if words != [] && RunsFit(width, max) && Layout(other, words, width, max) {
      GreedyIsShortest(words, width, max, other);
    }
  }

  lemma GreedyIsShortest(words: seq<string>, width: Width, max: real, other: seq<seq<string>>)
    requires words != [] && RunsFit(width, max) && Layout(other, words, width, max)
    ensures |Greedy([], words, width, max)| <= |other|
  {
    var w := words[0];
    assert words == [w] + words[1..];
    assert other != [];
    assert LineOk(other[0], width, max);
    assert Flatten(other)[0] == other[0][0];
    assert [] + [w] == [w];
    GreedyAhead([w], other, [w], words[1..], width, max);
  }

  lemma {:induction false} LinesCount(groups: seq<seq<string>>)
    ensures |Lines(groups)| == |groups|
    decreases |groups|
  {
    if groups != [] { LinesCount(groups[1..]); }
  }

  lemma Spaced(a: string, b: string, c: string)
    ensures a + " " + b + " " + c == a + " " + (b + " " + c)
  {
  }

  lemma {:induction false} JoinAppend(a: seq<string>, b: seq<string>)
    requires a != [] && b != []
    ensures Join(a + b) == Join(a) + " " + Join(b)
    decreases |b|
  {
    var init, last := b[..|b| - 1], b[|b| - 1];
    assert b == init + [last];
    assert a + b == (a + init) + [last];
    JoinPlus(a + init, last);
    if init == [] {
      assert a + init == a;
    } else {
      JoinAppend(a, init);
      JoinPlus(init, last);
      Spaced(Join(a), Join(init), last);
    }
  }

  /** Nothing is lost or moved: the lines joined by spaces are the words joined by spaces. */
  lemma {:induction false} LinesKeepText(groups: seq<seq<string>>)
    requires forall i :: 0 <= i < |groups| ==> groups[i] != []
    ensures Join(Lines(groups)) == Join(Flatten(groups))
    decreases |groups|
  {
    if groups == [] {
    } else if |groups| == 1 {
      assert groups[1..] == [];
      assert Flatten(groups) == groups[0];
      assert Lines(groups) == [Join(groups[0])];
    } else {
      var rest := groups[1..];
      LinesKeepText(rest);
      LinesCount(rest);
      assert rest[0] == groups[1] != [];
      assert Flatten(rest) == rest[0] + Flatten(rest[1..]);
      JoinAppend(groups[0], Flatten(rest));
      JoinAppend([Join(groups[0])], Lines(rest));
    }
  }
}
