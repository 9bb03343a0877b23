/** `formatLongText`, the word wrapper `generatePDF` uses for the values of the
    "additional information" rows. Words are the parts of `String(text)`
    split at single spaces; a word is appended to the current line while the
    measured width of "line + ' ' + word" stays strictly below the maximum,
    and otherwise starts a new line. The width of a text is the sum of the
    widths of its glyphs in the font in use. */
module TextWrap {
  import opened Js

  /** The font in use: the width of each glyph at the current font size,
      and the width of a glyph the font lacks. */
  datatype Font = Font(glyphWidths: map<char, real>, missingWidth: real)

  /** `doc.getStringUnitWidth(s) * doc.internal.getFontSize()`: the sum of the
      widths of the glyphs of s at the current size. */
  function Width(font: Font, s: string): real
    decreases |s|
  {
    if s == [] then 0.0
    else (if s[0] in font.glyphWidths then font.glyphWidths[s[0]] else font.missingWidth) + Width(font, s[1..])
  }

  function Flatten(groups: seq<seq<string>>): (words: seq<string>)
    decreases |groups|
  {
    if groups == [] then [] else groups[0] + Flatten(groups[1..])
  }

  /** Each group of words written as one line, words separated by one space. */
  function Lines(groups: seq<seq<string>>): (lines: seq<string>)
    ensures |lines| == |groups|
    ensures forall k :: 0 <= k < |groups| ==> lines[k] == Join(groups[k], ' ')
    decreases |groups|
  {
    if groups == [] then [] else [Join(groups[0], ' ')] + Lines(groups[1..])
  }

  /** The greedy breaking of `formatLongText`: `current` holds the words of the
      line being built, `rest` the words not yet placed. */
  function Greedy(current: seq<string>, rest: seq<string>, maxWidth: real, font: Font): (groups: seq<seq<string>>)
    requires current != []
    ensures 1 <= |groups| <= |rest| + 1
    ensures current <= groups[0]
    ensures forall k :: 0 <= k < |groups| ==> groups[k] != []
    decreases |rest|
  {
    if rest == [] then
      [current]
    else if Width(font, Join(current, ' ') + " " + rest[0]) < maxWidth then
      Greedy(current + [rest[0]], rest[1..], maxWidth, font)
    else
      [current] + Greedy([rest[0]], rest[1..], maxWidth, font)
  }

  /** The words `formatLongText` breaks `text` into. */
  function Words(text: Value): (words: seq<string>)
    ensures |words| >= 1
  {
    Split(ToString(text), ' ')
  }

  /** The line groups of a truthy value. */
  function WrapGroups(text: Value, maxWidth: real, font: Font): seq<seq<string>> {
    var words := Words(text);
    Greedy([words[0]], words[1..], maxWidth, font)
  }

  /** The lines `formatLongText` is meant to return: none for a falsy value
      (null, undefined, '' or 0), otherwise the greedy lines of its words. */
  function Wrap(text: Value, maxWidth: real, font: Font): seq<string> {
    if !Truthy(text) then [] else Lines(WrapGroups(text, maxWidth, font))
  }

  /** One step of the greedy breaking, seen from the lines already done: the
      next word joins the current line when it fits, and otherwise the current
      line is done and the word starts the next one. */
  lemma GreedyStep(done: seq<seq<string>>, group: seq<string>, words: seq<string>, i: nat, maxWidth: real, font: Font)
    requires group != [] && i < |words|
    ensures Width(font, Join(group, ' ') + " " + words[i]) < maxWidth ==>
      done + Greedy(group, words[i..], maxWidth, font) == done + Greedy(group + [words[i]], words[i + 1..], maxWidth, font)
    ensures Width(font, Join(group, ' ') + " " + words[i]) >= maxWidth ==>
      done + Greedy(group, words[i..], maxWidth, font) == (done + [group]) + Greedy([words[i]], words[i + 1..], maxWidth, font)
  {
    assert words[i..][0] == words[i] && words[i..][1..] == words[i + 1..];
    var tail := Greedy([words[i]], words[i + 1..], maxWidth, font);
    assert done + ([group] + tail) == (done + [group]) + tail;
  }

  /** `formatLongText(text, maxWidth)`, with a falsy value giving no lines. */
  method FormatLongText(text: Value, maxWidth: real, font: Font) returns (lines: seq<string>)
    ensures lines == Wrap(text, maxWidth, font)
  {
    if !Truthy(text) {
      return [];
    }
    var words := Split(ToString(text), ' ');
    lines := [];
    var currentLine := words[0];
    ghost var done: seq<seq<string>> := [];
    ghost var group := [words[0]];
    assert Join(group, ' ') == words[0];
    var i := 1;
    while i < |words|
      invariant 1 <= i <= |words|
      invariant group != [] && currentLine == Join(group, ' ')
      invariant lines == Lines(done)
      invariant done + Greedy(group, words[i..], maxWidth, font)
        == Greedy([words[0]], words[1..], maxWidth, font)
    {
      GreedyStep(done, group, words, i, maxWidth, font);
      var width := Width(font, currentLine + " " + words[i]);
      if width < maxWidth {
        JoinSnoc(group, words[i], ' ');
        currentLine := currentLine + " " + words[i];
        group := group + [words[i]];
      } else {
        LinesSnoc(done, group);
        lines := lines + [currentLine];
        done := done + [group];
        currentLine := words[i];
        group := [words[i]];
        assert Join(group, ' ') == words[i];
      }
      i := i + 1;
    }
    LinesSnoc(done, group);
    lines := lines + [currentLine];
  }

  /** What `formatLongText` returns as written: the string '' for a falsy
      value, an array of lines otherwise. */
  datatype WrapOutcome = EmptyString | LineArray(lines: seq<string>)

  /** `formatLongText` as written: a falsy value gives '' rather than an empty
      array; any other value gives the greedy lines. */
  function FormatLongTextAsWritten(text: Value, maxWidth: real, font: Font): (r: WrapOutcome)
    ensures r == EmptyString <==> !Truthy(text)
    ensures r.LineArray? ==> |r.lines| >= 1
  {
    if !Truthy(text) then EmptyString else LineArray(Lines(WrapGroups(text, maxWidth, font)))
  }

  /** On a truthy value the wrapper as written returns the lines of `Wrap`. */
  lemma AsWrittenOnTruthy(text: Value, maxWidth: real, font: Font)
    requires Truthy(text)
    ensures FormatLongTextAsWritten(text, maxWidth, font) == LineArray(Wrap(text, maxWidth, font))
  {
  }

  // ---------------------------------------------------------------------
  // Properties of the greedy breaking

  lemma LinesSnoc(groups: seq<seq<string>>, g: seq<string>)
    ensures Lines(groups + [g]) == Lines(groups) + [Join(g, ' ')]
  {
  }

  lemma {:induction false} FlattenCons(g: seq<string>, groups: seq<seq<string>>)
    ensures Flatten([g] + groups) == g + Flatten(groups)
  {
    assert ([g] + groups)[1..] == groups;
  }

  /** No word is lost, duplicated or moved: the lines hold the words in order. */
  lemma {:induction false} GreedyKeepsWords(current: seq<string>, rest: seq<string>, maxWidth: real, font: Font)
    requires current != []
    ensures Flatten(Greedy(current, rest, maxWidth, font)) == current + rest
    decreases |rest|
  {
    if rest == [] {
      assert Flatten([current]) == current + Flatten([]);
      assert current + [] == current;
    } else if Width(font, Join(current, ' ') + " " + rest[0]) < maxWidth {
      GreedyKeepsWords(current + [rest[0]], rest[1..], maxWidth, font);
      assert current + [rest[0]] + rest[1..] == current + rest;
    } else {
      GreedyKeepsWords([rest[0]], rest[1..], maxWidth, font);
      FlattenCons(current, Greedy([rest[0]], rest[1..], maxWidth, font));
      assert [rest[0]] + rest[1..] == rest;
    }
  }

  /** Every line is a single word or measures strictly less than `maxWidth`. */
  predicate LinesFit(groups: seq<seq<string>>, maxWidth: real, font: Font) {
    forall k :: 0 <= k < |groups| ==> |groups[k]| == 1 || Width(font, Join(groups[k], ' ')) < maxWidth
  }

  /** Each line followed by a space and the first word of the next line
      measures at least `maxWidth`. */
  predicate BreaksOverflow(groups: seq<seq<string>>, maxWidth: real, font: Font)
    requires forall k :: 0 <= k < |groups| ==> groups[k] != []
  {
    forall k :: 0 <= k < |groups| - 1 ==> Width(font, Join(groups[k], ' ') + " " + groups[k + 1][0]) >= maxWidth
  }

  /** A line of several words was only built when it fits: every line is a
      single word or measures strictly less than the maximum width. */
  lemma {:induction false} GreedyFits(current: seq<string>, rest: seq<string>, maxWidth: real, font: Font)
    requires current != []
    requires |current| == 1 || Width(font, Join(current, ' ')) < maxWidth
    ensures LinesFit(Greedy(current, rest, maxWidth, font), maxWidth, font)
    decreases |rest|
  {
    if rest != [] {
      if Width(font, Join(current, ' ') + " " + rest[0]) < maxWidth {
        JoinSnoc(current, rest[0], ' ');
        assert Join(current + [rest[0]], ' ') == Join(current, ' ') + " " + rest[0];
        GreedyFits(current + [rest[0]], rest[1..], maxWidth, font);
      } else {
        var tail := Greedy([rest[0]], rest[1..], maxWidth, font);
        GreedyFits([rest[0]], rest[1..], maxWidth, font);
        var groups := [current] + tail;
        assert Greedy(current, rest, maxWidth, font) == groups;
        forall k | 0 <= k < |groups|
          ensures |groups[k]| == 1 || Width(font, Join(groups[k], ' ')) < maxWidth
        {
          if k > 0 {
            assert groups[k] == tail[k - 1];
          }
        }
      }
    }
  }

  /** A line ends only where its next word would not fit: the line followed by
      a space and the first word of the next line measures at least the
      maximum width. */
  lemma {:induction false} GreedyBreaks(current: seq<string>, rest: seq<string>, maxWidth: real, font: Font)
    requires current != []
    ensures BreaksOverflow(Greedy(current, rest, maxWidth, font), maxWidth, font)
    decreases |rest|
  {
    if rest != [] {
      if Width(font, Join(current, ' ') + " " + rest[0]) < maxWidth {
        GreedyBreaks(current + [rest[0]], rest[1..], maxWidth, font);
      } else {
        var tail := Greedy([rest[0]], rest[1..], maxWidth, font);
        GreedyBreaks([rest[0]], rest[1..], maxWidth, font);
        var groups := [current] + tail;
        assert Greedy(current, rest, maxWidth, font) == groups;
        assert [rest[0]] <= tail[0];
        forall k | 0 <= k < |groups| - 1
          ensures Width(font, Join(groups[k], ' ') + " " + groups[k + 1][0]) >= maxWidth
        {
          if k == 0 {
            assert groups[0] == current && groups[1] == tail[0];
            assert groups[1][0] == rest[0];
          } else {
            assert groups[k] == tail[k - 1] && groups[k + 1] == tail[k];
          }
        }
      }
    }
  }

  /** Joining the lines with single spaces gives back the joined words. */
  lemma {:induction false} JoinLines(groups: seq<seq<string>>)
    requires forall k :: 0 <= k < |groups| ==> groups[k] != []
    ensures Join(Lines(groups), ' ') == Join(Flatten(groups), ' ')
    decreases |groups|
  {
    if |groups| > 1 {
      var rest := groups[1..];
      JoinLines(rest);
      FlattenCons(groups[0], rest);
      assert groups == [groups[0]] + rest;
      assert Lines(groups)[1..] == Lines(rest);
      assert Flatten(rest) != [] by {
        FlattenCons(rest[0], rest[1..]);
        assert rest == [rest[0]] + rest[1..];
      }
      JoinAppend(groups[0], Flatten(rest), ' ');
    } else if |groups| == 1 {
      assert Flatten(groups) == groups[0] + Flatten([]);
      assert groups[0] + [] == groups[0];
    }
  }

  /** The lines of a truthy value, joined again with single spaces, give back
      `String(text)`: wrapping only chooses where the breaks go. There is at
      least one line and never more lines than words. */
  lemma WrapJoinsBack(text: Value, maxWidth: real, font: Font)
    requires Truthy(text)
    ensures var lines := Wrap(text, maxWidth, font);
      1 <= |lines| <= |Words(text)| && Join(lines, ' ') == ToString(text)
  {
    var words := Words(text);
    var groups := WrapGroups(text, maxWidth, font);
    GreedyKeepsWords([words[0]], words[1..], maxWidth, font);
    assert [words[0]] + words[1..] == words;
    JoinLines(groups);
    SplitJoin(ToString(text), ' ');
  }

  /** A falsy value gives no line at all. */
  lemma WrapFalsy(text: Value, maxWidth: real, font: Font)
    requires !Truthy(text)
    ensures Wrap(text, maxWidth, font) == []
  {
  }

  /** Every line of a wrapped value is one of its words or fits the width, and
      each break falls where the next word would overflow. */
  lemma WrapIsGreedy(text: Value, maxWidth: real, font: Font)
    requires Truthy(text)
    ensures var groups := WrapGroups(text, maxWidth, font);
      && Lines(groups) == Wrap(text, maxWidth, font)
      && Flatten(groups) == Words(text)
      && LinesFit(groups, maxWidth, font)
      && BreaksOverflow(groups, maxWidth, font)
  {
    var words := Words(text);
    GreedyKeepsWords([words[0]], words[1..], maxWidth, font);
    assert [words[0]] + words[1..] == words;
    GreedyFits([words[0]], words[1..], maxWidth, font);
    GreedyBreaks([words[0]], words[1..], maxWidth, font);
  }
}
