/**
 How many rows the text box needs: the word wrapper that counts them, with the lines it lays out.
 The widths of runes and strings and the class of white space are parameters.
 */
module WordWrap {

  function Concat(lines: seq<string>): string {
    if lines == [] then "" else Concat(lines[..|lines| - 1]) + lines[|lines| - 1]
  }

  /** The text with every white space rune replaced by a space. */
  function Blanked(runes: string, isSpace: char -> bool): (r: string)
    ensures |r| == |runes|
    ensures forall i :: 0 <= i < |runes| ==> r[i] == if isSpace(runes[i]) then ' ' else runes[i]
  {
    if runes == "" then ""
    else
      var c := runes[|runes| - 1];
      Blanked(runes[..|runes| - 1], isSpace) + [if isSpace(c) then ' ' else c]
  }

  function Total(rw: char -> nat, s: string): nat {
    if s == "" then 0 else Total(rw, s[..|s| - 1]) + rw(s[|s| - 1])
  }

  /** Every rune takes from 1 to most columns, a space takes one, and a string takes what its runes take. */
  ghost predicate Measures(rw: char -> nat, sw: string -> nat, most: nat) {
    && rw(' ') == 1
    && (forall c :: 1 <= rw(c) <= most)
    && (forall s :: sw(s) == Total(rw, s))
  }

  lemma {:induction false} TotalAppends(rw: char -> nat, s: string, t: string)
    ensures Total(rw, s + t) == Total(rw, s) + Total(rw, t)
  {
    if t == "" {
      assert s + t == s;
    } else {
      TotalAppends(rw, s, t[..|t| - 1]);
      assert (s + t)[..|s + t| - 1] == s + t[..|t| - 1];
    }
  }

  lemma ConcatAppends(lines: seq<string>, line: string)
    ensures Concat(lines + [line]) == Concat(lines) + line
  {}

  /** The first word of a line with the space after it; the whole line when it holds no space. */
  function FirstToken(line: string): string {
    if line == "" || line[0] == ' ' then line[..if line == "" then 0 else 1]
    else [line[0]] + FirstToken(line[1..])
  }

  lemma {:induction false} FirstTokenGrows(rw: char -> nat, line: string, more: string)
    ensures Total(rw, FirstToken(line)) <= Total(rw, FirstToken(line + more))
  {
    if line != "" && line[0] != ' ' {
      FirstTokenGrows(rw, line[1..], more);
      assert (line + more)[1..] == line[1..] + more;
      TotalAppends(rw, [line[0]], FirstToken(line[1..]));
      TotalAppends(rw, [line[0]], FirstToken(line[1..] + more));
    } else if line != "" {
      assert FirstToken(line + more) == FirstToken(line);
    }
  }

  lemma {:induction false} WordIsToken(word: string)
    requires ' ' !in word
    ensures FirstToken(word) == word && FirstToken(word + " ") == word + " "
  {
    if word != "" {
      assert ' ' !in word[1..];
      WordIsToken(word[1..]);
      assert (word + " ")[1..] == word[1..] + " ";
    }
  }

  /** No line is wider than the box by more than a wide rune's excess. */
  ghost predicate Fits(rw: char -> nat, lines: seq<string>, width: nat, most: nat) {
    forall k :: 0 <= k < |lines| ==> Total(rw, lines[k]) < width + most
  }

  /** No line has room for the first word of the line after it, wide runes counted at their widest. */
  ghost predicate Tight(rw: char -> nat, lines: seq<string>, width: nat, most: nat) {
    forall k :: 0 < k < |lines| ==> Total(rw, lines[k - 1]) + Total(rw, FirstToken(lines[k])) + most > width + 1
  }

  /** The lines with a word and the blank after it put at the end of the last one, or of a new one. */
  function Placed(lines: seq<string>, word: string, blank: string, newLine: bool): (r: seq<string>)
    requires lines != []
    ensures r != []
  {
    var room := if newLine then lines + [""] else lines;
    room[|room| - 1 := room[|room| - 1] + word + blank]
  }

  lemma PlacedBare(lines: seq<string>, word: string, newLine: bool)
    requires lines != []
    ensures var room := if newLine then lines + [""] else lines;
            Placed(lines, word, "", newLine) == room[|room| - 1 := room[|room| - 1] + word]
  {
    var room := if newLine then lines + [""] else lines;
    assert room[|room| - 1] + word + "" == room[|room| - 1] + word;
  }

  lemma PlacedBlank(lines: seq<string>, word: string, newLine: bool)
    requires lines != []
    ensures var room := if newLine then lines + [""] else lines;
            var put := room[|room| - 1 := room[|room| - 1] + word];
            Placed(lines, word, " ", newLine) == put[|room| - 1 := put[|room| - 1] + Spaces(1)]
  {}

  lemma PlacedConcat(lines: seq<string>, word: string, blank: string, newLine: bool)
    requires lines != []
    ensures Concat(Placed(lines, word, blank, newLine)) == Concat(lines) + word + blank
  {
    var next := Placed(lines, word, blank, newLine);
    if newLine {
      assert next == lines + ["" + word + blank];
      ConcatAppends(lines, "" + word + blank);
    } else {
      assert next[..|lines| - 1] == lines[..|lines| - 1];
    }
  }

  /** A line ends with a blank, or is part of a word that fills it on its own. */
  predicate EndsWell(rw: char -> nat, line: string, width: nat, most: nat) {
    line == "" || line[|line| - 1] == ' ' || (' ' !in line && Total(rw, line) + most > width)
  }

  /** No word is broken that fits a line. */
  predicate Unbroken(rw: char -> nat, lines: seq<string>, width: nat, most: nat) {
    forall k :: 0 <= k < |lines| ==> EndsWell(rw, lines[k], width, most)
  }

  ghost predicate Laid(rw: char -> nat, lines: seq<string>, width: nat, most: nat) {
    Fits(rw, lines, width, most) && Tight(rw, lines, width, most) && Unbroken(rw, lines, width, most)
  }

  lemma PlacedLaid(rw: char -> nat, lines: seq<string>, word: string, blank: string, newLine: bool, width: nat, most: nat)
    requires lines != [] && Laid(rw, lines, width, most) && ' ' !in word && (blank == "" || blank == " ")
    requires var last, text := Total(rw, lines[|lines| - 1]), Total(rw, word) + Total(rw, blank);
             if newLine then text < width + most && last + text + most > width + 1 else last + text < width + most
    requires blank == "" ==> (newLine || lines[|lines| - 1] == "") && Total(rw, word) + most > width
    ensures Laid(rw, Placed(lines, word, blank, newLine), width, most)
  {
    hide Total, FirstToken;
    var n, next := |lines|, Placed(lines, word, blank, newLine);
    TotalAppends(rw, word, blank);
    if newLine {
      WordIsToken(word);
      assert word + "" == word && "" + word == word;
      assert next == lines + [word + blank];
    } else {
      var last := lines[n - 1];
      assert last + word + blank == last + (word + blank);
      TotalAppends(rw, last, word + blank);
      FirstTokenGrows(rw, last, word + blank);
      assert next == lines[n - 1 := last + (word + blank)];
    }
  }

  /** A word still open leaves room for one more rune like its last one, or for a space. */
  predicate Open(rw: char -> nat, word: string, width: nat) {
    Total(rw, word) + (if word == "" then 1 else rw(word[|word| - 1])) <= width
  }

  /** What the layout promises: for a box with a column, and runes of at most two columns. */
  ghost predicate Promised(rw: char -> nat, sw: string -> nat, width: nat, most: nat) {
    width >= 1 && most <= 2 && Measures(rw, sw, most)
  }

  lemma BlankStep(rw: char -> nat, sw: string -> nat, lines: seq<string>, word: string, newLine: bool, width: nat, most: nat)
    requires lines != [] && ' ' !in word
    requires newLine == (sw(lines[|lines| - 1]) + sw(word) + 1 > width)
    ensures Concat(Placed(lines, word, " ", newLine)) == Concat(lines) + word + " "
    ensures Promised(rw, sw, width, most) && Laid(rw, lines, width, most) && Open(rw, word, width) ==>
              Laid(rw, Placed(lines, word, " ", newLine), width, most) && Open(rw, "", width)
  {
    hide Placed, Laid, Concat, Total;
    PlacedConcat(lines, word, " ", newLine);
    if Promised(rw, sw, width, most) && Laid(rw, lines, width, most) && Open(rw, word, width) {
      Widths(rw, word);
      PlacedLaid(rw, lines, word, " ", newLine, width, most);
    }
  }

  /** A rune added to an open word: the word goes on a line when it may leave no room for another. */
  lemma RuneStep(rw: char -> nat, sw: string -> nat, lines: seq<string>, was: string, r: char, width: nat, most: nat)
    requires lines != [] && ' ' !in was && r != ' '
    ensures var word := was + [r]; var newLine := lines[|lines| - 1] != "";
            && Concat(Placed(lines, word, "", newLine)) == Concat(lines) + was + [r]
            && (Promised(rw, sw, width, most) && Laid(rw, lines, width, most) && Open(rw, was, width) ==>
                  if sw(word) + rw(r) > width then Laid(rw, Placed(lines, word, "", newLine), width, most) && Open(rw, "", width)
                  else Open(rw, word, width))
  {
    hide Placed, Laid, Concat, Total;
    var word := was + [r];
    var newLine := lines[|lines| - 1] != "";
    PlacedConcat(lines, word, "", newLine);
    assert Concat(lines) + word + "" == Concat(lines) + was + [r];
    if Promised(rw, sw, width, most) && Laid(rw, lines, width, most) && Open(rw, was, width) {
      Widths(rw, word);
      assert word[..|word| - 1] == was;
      Widths(rw, lines[|lines| - 1]);
      Widths(rw, was);
      if sw(word) + rw(r) > width { PlacedLaid(rw, lines, word, "", newLine, width, most); }
    }
  }

  lemma Widths(rw: char -> nat, s: string)
    ensures Total(rw, s) == if s == "" then 0 else Total(rw, s[..|s| - 1]) + rw(s[|s| - 1])
    ensures Total(rw, " ") == rw(' ') && Total(rw, "") == 0
    ensures s != "" && (forall c :: rw(c) >= 1) ==> Total(rw, s) >= 1
  {}

  lemma BlankedNext(runes: string, i: nat, isSpace: char -> bool)
    requires i < |runes|
    ensures Blanked(runes[..i + 1], isSpace) ==
            Blanked(runes[..i], isSpace) + [if isSpace(runes[i]) then ' ' else runes[i]]
  {}

  lemma AtStart(rw: char -> nat, sw: string -> nat, isSpace: char -> bool, width: nat, most: nat)
    ensures Concat([""]) == "" == Blanked("", isSpace)
    ensures Promised(rw, sw, width, most) ==> Laid(rw, [""], width, most) && Open(rw, "", width)
  {}

  /** Lays out the runes; the number of the last line is the number of lines less one. */
  method CountWrappedLines(runes: string, width: nat, isSpace: char -> bool, rw: char -> nat, sw: string -> nat,
                           ghost most: nat) returns (row: nat, lines: seq<string>)
    requires isSpace(' ')
    ensures |lines| == row + 1
    ensures Concat(lines) == Blanked(runes, isSpace) + " "
    ensures Promised(rw, sw, width, most) ==> Laid(rw, lines, width, most)
  {
    hide Concat, Blanked, Total, FirstToken, Laid, Promised, Open, Placed, Spaces;
    ghost var promised := Promised(rw, sw, width, most);
    lines := [""];
    var word := "";
    row := 0;
    var spaces := 0;
    AtStart(rw, sw, isSpace, width, most);
    for i := 0 to |runes|
      invariant |lines| == row + 1 && spaces == 0
      invariant Concat(lines) + word == Blanked(runes[..i], isSpace)
      invariant ' ' !in word
      invariant promised ==> Laid(rw, lines, width, most) && Open(rw, word, width)
    {
      BlankedNext(runes, i, isSpace);
      var r := runes[i];
      if isSpace(r) {
        spaces := spaces + 1;
      } else {
        RuneStep(rw, sw, lines, word, r, width, most);
        word := word + [r];
      }
      if spaces > 0 {
        ghost var newLine := sw(lines[row]) + sw(word) + spaces > width;
        BlankStep(rw, sw, lines, word, newLine, width, most);
        PlacedBlank(lines, word, newLine);
        if sw(lines[row]) + sw(word) + spaces > width {
          row := row + 1;
          lines := lines + [""];
        }
        lines := lines[row := lines[row] + word];
        lines := lines[row := lines[row] + Spaces(spaces)];
        spaces, word := 0, "";
      } else {
        var lastCharLen := rw(word[|word| - 1]);
        if sw(word) + lastCharLen > width {
          PlacedBare(lines, word, |lines[row]| > 0);
          if |lines[row]| > 0 {
            row := row + 1;
            lines := lines + [""];
          }
          lines := lines[row := lines[row] + word];
          word := "";
        }
      }
    }
    assert runes[..|runes|] == runes;
    ghost var newLine := sw(lines[row]) + sw(word) + 1 > width;
    BlankStep(rw, sw, lines, word, newLine, width, most);
    PlacedBlank(lines, word, newLine);
    if sw(lines[row]) + sw(word) + spaces >= width {
      lines := lines + [""];
      lines := lines[row + 1 := lines[row + 1] + word];
      spaces := spaces + 1;
      lines := lines[row + 1 := lines[row + 1] + Spaces(spaces)];
      row := row + 1;
    } else {
      lines := lines[row := lines[row] + word];
      spaces := spaces + 1;
      lines := lines[row := lines[row] + Spaces(spaces)];
    }
  }

  function Spaces(n: nat): (s: string)
    ensures n == 1 ==> s == " "
  {
    seq(n, _ => ' ')
  }
}
