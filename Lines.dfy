/**
 * The line assembler of the text formatter: it builds words from pieces of
 * text, gathers words into lines (breaking them by width in fill mode), indents
 * each line, spreads justification spaces over the gaps between words, and
 * sends finished lines, with paragraph skips, to a page assembler.
 */
module Lines {
  import opened Wrappers
  import opened Pages

  /** The settings and accumulators of a line assembler. */
  datatype LState = LState(
    word: Option<string>,   // the word being built, None when there is none
    words: seq<string>,     // the finished words of the pending line
    textwidth: int,
    parskip: int,
    parindent: int,
    indent: int,
    chars: int,             // the characters in the pending line's words
    fill: bool,
    justify: bool,
    firstline: bool,        // the pending line is the first of its paragraph
    toppage: bool,          // nothing has been output yet
    save: bool)             // the justify setting in force before nofill
  {
    /** The indentation of the pending line: the paragraph indentation is added on a paragraph's first line. */
    function Indentation(): int
    {
      if firstline then parindent + indent else indent
    }

    /**
     * The spaces to spread over the gaps of the pending line: what the text width
     * leaves over when filling and justifying a line that does not end its
     * paragraph, one per gap otherwise.
     */
    function NumOfBlanks(lastLine: bool): int
    {
      if fill && justify && !lastLine then textwidth - chars - Indentation()
      else |words| - 1
    }

    /** The text of the pending line: indentation, then the words with their gaps. */
    function LineText(lastLine: bool): string
      requires words != []
    {
      Spaces(Indentation()) + Joined(words, NumOfBlanks(lastLine), |words|)
    }

    /** The skipped lines sent before a line: parskip of them before a paragraph's first line, unless nothing was output yet. */
    function Skips(): seq<Option<string>>
    {
      if !toppage && firstline then Nones(if parskip > 0 then parskip else 0) else []
    }

    /** What outputLine(lastLine) sends to the page assembler: nothing for an empty line. */
    function Emitted(lastLine: bool): seq<Option<string>>
    {
      if words == [] then [] else Skips() + [Some(LineText(lastLine))]
    }

    /** The fill-mode test of addWord: the pending line cannot take the word being built. */
    predicate Overflows()
      requires word.Some?
    {
      fill && textwidth < Indentation() + chars + |words| + |word.value|
    }
  }

  /** A line assembler together with the page assembler it feeds. */
  datatype Assembler = Assembler(st: LState, page: PState)
  {
    /** outputLine(lastLine). */
    function OutputLine(lastLine: bool): (r: Assembler)
      ensures st.words == [] ==> r == this
      ensures st.words != [] ==> r.st == st.(words := [], chars := 0, toppage := false, firstline := lastLine)
      ensures r.page == Feed(page, st.Emitted(lastLine))
    {
      if st.words == [] then this
      else Assembler(st.(words := [], chars := 0, toppage := false, firstline := lastLine),
                     Feed(page, st.Emitted(lastLine)))
    }

    /** addText(text): extends the word being built, or starts one. */
    function AddText(text: string): (r: Assembler)
      ensures r.st == st.(word := Some(if st.word.Some? then st.word.value + text else text))
      ensures r.page == page
    {
      var w := if st.word.Some? then st.word.value + text else text;
      this.(st := st.(word := Some(w)))
    }

    /**
     * addWord(w): in fill mode the pending line is output first when the word does
     * not fit; then w joins the pending line. The width test and the character
     * count use the word being built, which is w at the one call site.
     */
    function AddWord(w: string): (r: Assembler)
      requires st.word.Some?
      ensures !st.Overflows() ==> r.page == page && r.st.words == st.words + [w]
      ensures st.Overflows() ==> r.page == Feed(page, st.Emitted(false)) && r.st.words == [w]
      ensures r.st.word == st.word
    {
      var len := |st.word.value|;
      var b := if st.Overflows() then OutputLine(false) else this;
      b.(st := b.st.(words := b.st.words + [w], chars := b.st.chars + len))
    }

    /** finishWord(): the word being built, if any, joins the pending line; none is left pending. */
    function FinishWord(): (r: Assembler)
      ensures r.st.word == None
      ensures st.word == None ==> r == this
      ensures st.word.Some? ==> r.st.words == (if st.Overflows() then [] else st.words) + [st.word.value]
      ensures st.word.Some? ==> r.page == if st.Overflows() then Feed(page, st.Emitted(false)) else page
    {
      var b := if st.word.Some? then AddWord(st.word.value) else this;
      b.(st := b.st.(word := None))
    }

    /** newLine(): outside fill mode the end of an input line ends the output line. */
    function NewLine(): (r: Assembler)
      ensures st.fill ==> r == this
      ensures !st.fill ==> r == OutputLine(false)
    {
      if !st.fill then OutputLine(false) else this
    }

    /** endParagraph(): finishes the word and outputs the pending line as a paragraph's last. */
    function EndParagraph(): (r: Assembler)
      ensures r.st.word == None && r.st.words == []
      ensures st.words != [] || st.word.Some? ==> r.st.firstline
      ensures r.page == Feed(FinishWord().page, FinishWord().st.Emitted(true))
      ensures st.word == None ==> r.page == Feed(page, st.Emitted(true))
    {
      FinishWord().OutputLine(true)
    }

    /** addLine(line): hands a finished line straight to the page assembler. */
    function AddLine(line: string): (r: Assembler)
      ensures r.st == st
    {
      this.(page := Step(page, Some(line)))
    }

    /** setIndentation(val): a negative value is an error that ends the run; the state is then unchanged. */
    function SetIndentation(val: int): (Assembler, bool)
    {
      if val < 0 then (this, false) else (this.(st := st.(indent := val)), true)
    }

    /** setParIndentation(val): any value is accepted. */
    function SetParIndentation(val: int): Assembler
    {
      this.(st := st.(parindent := val))
    }

    /** setTextWidth(val): a value below 0 or below the two indentations together is an error. */
    function SetTextWidth(val: int): (Assembler, bool)
    {
      if val < 0 || val < st.parindent + st.indent then (this, false)
      else (this.(st := st.(textwidth := val)), true)
    }

    /** setParSkip(val): a negative value is an error. */
    function SetParSkip(val: int): (Assembler, bool)
    {
      if val < 0 then (this, false) else (this.(st := st.(parskip := val)), true)
    }

    /** setTextHeight(val): a value that is not positive is an error; otherwise the page height changes. */
    function SetTextHeight(val: int): (Assembler, bool)
    {
      if val <= 0 then (this, false) else (this.(page := page.(height := val)), true)
    }

    /** setFill(on): turning fill off remembers the justify setting and turns justify off; turning it on restores the remembered one. */
    function SetFill(on: bool): Assembler
    {
      if !on then this.(st := st.(fill := false, save := st.justify, justify := false))
      else this.(st := st.(fill := true, justify := st.save))
    }

    /** setJustify(on). */
    function SetJustify(on: bool): Assembler
    {
      this.(st := st.(justify := on))
    }
  }

  /** The state of a new line assembler: filling and justifying, nothing pending, numeric settings 0. */
  const Initial: LState := LState(None, [], 0, 0, 0, 0, 0, true, true, true, true, true)

  /** The pending line's character count agrees with its words. */
  ghost predicate Consistent(st: LState)
  {
    st.chars == TotalLength(st.words)
  }

  /** The number of characters in all the words. */
  function TotalLength(words: seq<string>): nat
  {
    if words == [] then 0 else TotalLength(words[..|words| - 1]) + |words[|words| - 1]|
  }

  /** n spaces; none when n is not positive. */
  function Spaces(n: int): (r: string)
    ensures |r| == (if n > 0 then n else 0) && forall i :: 0 <= i < |r| ==> r[i] == ' '
  {
    if n <= 0 then "" else Spaces(n - 1) + " "
  }

  /** Java's integer division (rounding toward zero) for a positive divisor. */
  function TruncDiv(a: int, b: int): (r: int)
    requires b > 0
    ensures a >= 0 ==> r == a / b
    ensures a >= 0 ==> 0 <= a - r * b < b
    ensures a < 0 ==> -b < a - r * b <= 0
  {
    if a >= 0 then a / b else -((-a) / b)
  }

  /**
   * The spaces before word i when `blanks` spaces are spread over n1 gaps:
   * (int)(0.5 + blanks * i / n1), computed exactly.
   */
  function Rounded(blanks: int, i: int, n1: int): int
    requires n1 > 0
  {
    TruncDiv(2 * blanks * i + n1, 2 * n1)
  }

  /** The spaces asked for in gap i (before word i), at most 3; zero or less means none. */
  function Gap(blanks: int, n1: int, i: int): (r: int)
    requires n1 > 0
    ensures r <= 3
  {
    var now := Rounded(blanks, i, n1) - Rounded(blanks, i - 1, n1);
    if now < 3 then now else 3
  }

  /** The first k words, each after the first preceded by its gap. */
  function Joined(words: seq<string>, blanks: int, k: int): string
    requires 1 <= k <= |words|
  {
    if k == 1 then words[0]
    else Joined(words, blanks, k - 1) + Spaces(Gap(blanks, |words| - 1, k - 1)) + words[k - 1]
  }

  /*===== Properties of the specification =====*/

  lemma {:induction false} TotalLengthAppend(words: seq<string>, w: string)
    ensures TotalLength(words + [w]) == TotalLength(words) + |w|
  {
    assert (words + [w])[..|words|] == words;
  }

  /** Every operation keeps the character count in step with the pending words. */
  lemma KeepsConsistent(a: Assembler, text: string, lastLine: bool)
    requires Consistent(a.st)
    ensures Consistent(a.AddText(text).st)
    ensures Consistent(a.OutputLine(lastLine).st)
    ensures Consistent(a.FinishWord().st)
    ensures Consistent(a.NewLine().st)
    ensures Consistent(a.EndParagraph().st)
  {
    if a.st.word.Some? {
      AddWordConsistent(a);
      var b := a.FinishWord();
      assert Consistent(b.st);
      assert b.OutputLine(true) == a.EndParagraph();
    }
  }

  /** addWord of the word being built keeps the character count in step. */
  lemma AddWordConsistent(a: Assembler)
    requires Consistent(a.st) && a.st.word.Some?
    ensures Consistent(a.AddWord(a.st.word.value).st)
  {
    var b := if a.st.Overflows() then a.OutputLine(false) else a;
    TotalLengthAppend(b.st.words, a.st.word.value);
  }

  lemma MulNonNeg(a: int, b: int)
    ensures a >= 0 && b >= 0 ==> a * b >= 0
  {
  }

  /** A multiple d * k strictly between -d and 4d has 0 <= k <= 3. */
  lemma MultipleRange(d: int, k: int)
    requires d > 0 && -d < d * k < 4 * d
    ensures 0 <= k <= 3
  {
    if k < 0 {
      MulNonNeg(d, -k - 1);
      assert false;
    }
    if k > 3 {
      MulNonNeg(d, k - 4);
      assert false;
    }
  }

  /** A multiple d * k strictly between -d and d is 0. */
  lemma SmallMultiple(d: int, k: int)
    requires d > 0 && -d < d * k < d
    ensures k == 0
  {
    MultipleRange(d, k);
    if k > 0 {
      MulNonNeg(d, k - 1);
      assert false;
    }
  }

  /** Division by d of two numerators less than 3d apart differs by 0 to 3. */
  lemma DivSpread(x: int, y: int, d: int)
    requires d > 0 && 0 <= x <= y < x + 3 * d
    ensures 0 <= y / d - x / d <= 3
  {
    var qx, rx := x / d, x % d;
    var qy, ry := y / d, y % d;
    assert x == d * qx + rx && y == d * qy + ry;
    assert d * (qy - qx) == (y - x) - (ry - rx);
    MultipleRange(d, qy - qx);
  }

  /** (d * q + r) / d == q for 0 <= r < d. */
  lemma DivExact(q: int, r: int, d: int)
    requires d > 0 && 0 <= r < d
    ensures (d * q + r) / d == q
  {
    var n := d * q + r;
    var z, m := n / d, n % d;
    assert n == d * z + m;
    assert d * (z - q) == r - m;
    SmallMultiple(d, z - q);
  }

  /** Spreading n1 blanks over n1 gaps puts the i-th word i spaces along. */
  lemma RoundedPlain(n1: int, i: nat)
    requires n1 > 0
    ensures Rounded(n1, i, n1) == i
  {
    assert 2 * n1 * i + n1 == (2 * n1) * i + n1;
    DivExact(i, n1, 2 * n1);
  }

  /** Spreading b blanks over n1 gaps puts the last word b spaces along. */
  lemma RoundedLast(b: nat, n1: int)
    requires n1 > 0
    ensures Rounded(b, n1, n1) == b
  {
    assert 2 * b * n1 + n1 == (2 * n1) * b + n1;
    DivExact(b, n1, 2 * n1);
  }

  /** Without justification (or on a paragraph's last line) every gap is one space. */
  lemma PlainGap(n1: int, i: int)
    requires n1 > 0 && 1 <= i
    ensures Gap(n1, n1, i) == 1
  {
    RoundedPlain(n1, i);
    RoundedPlain(n1, i - 1);
  }

  /** With 0 <= b < 3 * n1 blanks no gap is capped: each holds 0 to 3 spaces exactly as rounded. */
  lemma UncappedGap(b: int, n1: int, i: int)
    requires n1 > 0 && 0 <= b < 3 * n1 && 1 <= i
    ensures 0 <= Gap(b, n1, i) == Rounded(b, i, n1) - Rounded(b, i - 1, n1)
  {
    var x := 2 * b * (i - 1) + n1;
    var y := 2 * b * i + n1;
    assert y == x + 2 * b;
    DivSpread(x, y, 2 * n1);
  }

  /** The words joined by single spaces. */
  function SingleSpaced(words: seq<string>): string
    requires words != []
  {
    if |words| == 1 then words[0] else SingleSpaced(words[..|words| - 1]) + " " + words[|words| - 1]
  }

  /** A line that is not justified is its words with one space between each two. */
  lemma {:induction false} PlainLine(words: seq<string>, k: int)
    requires 1 <= k <= |words|
    ensures Joined(words, |words| - 1, k) == SingleSpaced(words[..k])
  {
    if k > 1 {
      PlainLine(words, k - 1);
      PlainGap(|words| - 1, k - 1);
      assert words[..k][..k - 1] == words[..k - 1];
    } else {
      assert words[..k] == [words[0]];
    }
  }

  /** The spaces of gaps 1 to j. */
  function GapTotal(b: int, n1: int, j: int): int
    requires n1 > 0
  {
    if j <= 0 then 0 else GapTotal(b, n1, j - 1) + (if Gap(b, n1, j) > 0 then Gap(b, n1, j) else 0)
  }

  /** A joined line is as long as its words plus its gaps. */
  lemma {:induction false} JoinedLength(words: seq<string>, b: int, k: int)
    requires 2 <= |words| && 1 <= k <= |words|
    ensures |Joined(words, b, k)| == TotalLength(words[..k]) + GapTotal(b, |words| - 1, k - 1)
  {
    if k > 1 {
      JoinedLength(words, b, k - 1);
      assert words[..k] == words[..k - 1] + [words[k - 1]];
      TotalLengthAppend(words[..k - 1], words[k - 1]);
    } else {
      assert words[..1] == [] + [words[0]];
      TotalLengthAppend([], words[0]);
    }
  }

  /** Uncapped gaps add up to where the rounding puts word j. */
  lemma {:induction false} GapsTelescope(b: int, n1: int, j: nat)
    requires n1 > 0 && 0 <= b < 3 * n1
    ensures GapTotal(b, n1, j) == Rounded(b, j, n1)
  {
    if j > 0 {
      GapsTelescope(b, n1, j - 1);
      UncappedGap(b, n1, j);
    } else {
      assert 2 * b * 0 + n1 == n1;
    }
  }

  /**
   * A justified line of two or more words whose spare width is below three spaces
   * a gap comes out exactly as wide as the text width.
   */
  lemma JustifiedWidth(st: LState)
    requires Consistent(st) && st.fill && st.justify && |st.words| >= 2 && st.Indentation() >= 0
    requires 0 <= st.NumOfBlanks(false) < 3 * (|st.words| - 1)
    ensures |st.LineText(false)| == st.textwidth
  {
    var n1, b := |st.words| - 1, st.NumOfBlanks(false);
    JoinedLength(st.words, b, |st.words|);
    assert st.words[..|st.words|] == st.words;
    GapsTelescope(b, n1, n1);
    RoundedLast(b, n1);
  }

  /** A line that ends its paragraph, or any line when not justifying, has single spaces between its words. */
  lemma UnjustifiedLine(st: LState, lastLine: bool)
    requires st.words != [] && (lastLine || !st.fill || !st.justify)
    ensures st.LineText(lastLine) == Spaces(st.Indentation()) + SingleSpaced(st.words)
  {
    PlainLine(st.words, |st.words|);
    assert st.words[..|st.words|] == st.words;
  }

  /** Every output line starts with the indentation, followed by the first word. */
  lemma LineStartsIndented(st: LState, lastLine: bool)
    requires st.words != [] && st.Indentation() >= 0
    ensures st.LineText(lastLine)[..st.Indentation()] == Spaces(st.Indentation())
    ensures |st.LineText(lastLine)| >= st.Indentation() + |st.words[0]|
    ensures st.LineText(lastLine)[st.Indentation()..st.Indentation() + |st.words[0]|] == st.words[0]
  {
    var pre := Spaces(st.Indentation());
    var j := Joined(st.words, st.NumOfBlanks(lastLine), |st.words|);
    JoinedStartsWithFirst(st.words, st.NumOfBlanks(lastLine), |st.words|);
    assert st.LineText(lastLine) == pre + j;
    assert (pre + j)[..|pre|] == pre;
    assert (pre + j)[|pre|..|pre| + |st.words[0]|] == j[..|st.words[0]|];
  }

  lemma {:induction false} JoinedStartsWithFirst(words: seq<string>, b: int, k: int)
    requires 1 <= k <= |words|
    ensures |Joined(words, b, k)| >= |words[0]| && Joined(words, b, k)[..|words[0]|] == words[0]
  {
    if k > 1 {
      JoinedStartsWithFirst(words, b, k - 1);
      var prev := Joined(words, b, k - 1);
      var tail := Spaces(Gap(b, |words| - 1, k - 1)) + words[k - 1];
      assert Joined(words, b, k) == prev + tail;
      assert (prev + tail)[..|words[0]|] == prev[..|words[0]|];
    }
  }

  /** Paragraph skips reach the page only between paragraphs, and vanish at the top of a page. */
  lemma SkipsBeforeParagraph(a: Assembler, lastLine: bool)
    requires a.st.words != []
    ensures a.st.Emitted(lastLine) == a.st.Skips() + [Some(a.st.LineText(lastLine))]
    ensures |a.st.Skips()| > 0 ==> !a.st.toppage && a.st.firstline
    ensures a.page.curr == 0 ==> a.OutputLine(lastLine).page == Step(a.page, Some(a.st.LineText(lastLine)))
  {
    var skips := a.st.Skips();
    FeedAppend(a.page, skips, [Some(a.st.LineText(lastLine))]);
    if a.page.curr == 0 {
      SkipsAtTop(a.page, |skips|);
      assert skips == [] || skips == Nones(|skips|);
      assert Feed(a.page, skips) == a.page;
    }
  }

  /** After nofill then fill, justification is as it was before. */
  lemma FillRestoresJustify(a: Assembler)
    ensures a.SetFill(false).st.justify == false
    ensures a.SetFill(false).SetFill(true).st.justify == a.st.justify
    ensures a.SetFill(false).SetFill(true).st.fill
  {
  }

  /**
   * In fill mode a pending line of two or more words always fits the text width
   * with single spaces: addWord starts a new line with the word otherwise.
   */
  lemma AddWordFits(a: Assembler, w: string)
    requires Consistent(a.st) && a.st.fill && a.st.word == Some(w)
    requires |a.st.words| <= 1 || a.st.Indentation() + a.st.chars + |a.st.words| - 1 <= a.st.textwidth
    ensures var r := a.AddWord(w).st;
      |r.words| == 1 || r.Indentation() + r.chars + |r.words| - 1 <= r.textwidth
    ensures a.st.Overflows() && a.st.words != [] ==> a.AddWord(w).st.words == [w]
  {
  }

  /*===== The line assembler object =====*/

  class LineAssembler {
    const pages: PageAssembler
    var word: Option<string>
    var words: seq<string>
    var textwidth: int
    var parskip: int
    var parindent: int
    var indent: int
    var chars: int
    var fill: bool
    var justify: bool
    var firstline: bool
    var toppage: bool
    var save: bool

    ghost function State(): LState
      reads this
    {
      LState(word, words, textwidth, parskip, parindent, indent, chars, fill, justify, firstline, toppage, save)
    }

    ghost function Abs(): Assembler
      reads this, pages, pages.out
    {
      Assembler(State(), pages.Abs())
    }

    /** A new line assembler sending its lines to `pages`. */
    constructor (pages: PageAssembler)
      ensures this.pages == pages && State() == Initial
    {
      this.pages := pages;
      word := None;
      words := [];
      textwidth, parskip, parindent, indent, chars := 0, 0, 0, 0, 0;
      fill, justify, save := true, true, true;
      firstline, toppage := true, true;
    }

    method AddText(text: string)
      modifies this
      ensures Abs() == old(Abs()).AddText(text)
    {
      if word.Some? {
        word := Some(word.value + text);
      } else {
        word := Some(text);
      }
    }

    method FinishWord()
      modifies this, pages, pages.out
      ensures Abs() == old(Abs()).FinishWord()
    {
      if word.Some? {
        AddWord(word.value);
      }
      word := None;
    }

    method AddWord(w: string)
      requires word.Some?
      modifies this, pages, pages.out
      ensures Abs() == old(Abs()).AddWord(w)
    {
      var ind := Indentation();
      if fill {
        if textwidth < ind + chars + |words| + |word.value| {
          OutputLine(false);
        }
      }
      words := words + [w];
      chars := chars + |word.value|;
    }

    method AddLine(line: string)
      modifies pages, pages.out
      ensures Abs() == old(Abs()).AddLine(line)
    {
      pages.AddLine(Some(line));
    }

    method SetIndentation(val: int) returns (ok: bool)
      modifies this
      ensures (Abs(), ok) == old(Abs()).SetIndentation(val)
    {
      if val < 0 {
        return false;
      }
      indent := val;
      return true;
    }

    method SetParIndentation(val: int)
      modifies this
      ensures Abs() == old(Abs()).SetParIndentation(val)
    {
      parindent := val;
    }

    method SetTextWidth(val: int) returns (ok: bool)
      modifies this
      ensures (Abs(), ok) == old(Abs()).SetTextWidth(val)
    {
      if val < 0 || val < parindent + indent {
        return false;
      }
      textwidth := val;
      return true;
    }

    method SetFill(on: bool)
      modifies this
      ensures Abs() == old(Abs()).SetFill(on)
    {
      fill := on;
      if !on {
        save := justify;
        SetJustify(false);
      } else {
        SetJustify(save);
      }
    }

    method SetJustify(on: bool)
      modifies this
      ensures Abs() == old(Abs()).SetJustify(on)
    {
      justify := on;
    }

    method SetParSkip(val: int) returns (ok: bool)
      modifies this
      ensures (Abs(), ok) == old(Abs()).SetParSkip(val)
    {
      if val < 0 {
        return false;
      }
      parskip := val;
      return true;
    }

    method SetTextHeight(val: int) returns (ok: bool)
      modifies pages
      ensures (Abs(), ok) == old(Abs()).SetTextHeight(val)
    {
      if val <= 0 {
        return false;
      }
      pages.SetTextHeight(val);
      return true;
    }

    method NewLine()
      modifies this, pages, pages.out
      ensures Abs() == old(Abs()).NewLine()
    {
      if !fill {
        OutputLine(false);
      }
    }

    method EndParagraph()
      modifies this, pages, pages.out
      ensures Abs() == old(Abs()).EndParagraph()
    {
      FinishWord();
      OutputLine(true);
    }

    /** outputLine(lastLine): sends any paragraph skip, then the pending line, and clears it. */
    method OutputLine(lastLine: bool)
      modifies this, pages, pages.out
      ensures Abs() == old(Abs()).OutputLine(lastLine)
    {
      if words == [] {
        return;
      }
      Emit(lastLine);
      toppage, firstline, words, chars := false, lastLine, [], 0;
    }

    /** The page assembler's part of outputLine: the paragraph skip, then the pending line. */
    method Emit(lastLine: bool)
      requires words != []
      modifies pages, pages.out
      ensures pages.Abs() == Feed(old(pages.Abs()), State().Emitted(lastLine))
    {
      ghost var p0 := pages.Abs();
      if !toppage {
        Parskipping(firstline);
      } else {
        assert Feed(p0, []) == p0;
      }
      assert pages.Abs() == Feed(p0, State().Skips());
      var line := BuildLine(lastLine);
      pages.AddLine(Some(line));
      FeedAppend(p0, State().Skips(), [Some(line)]);
    }

    /** The pending line's text: the indentation, then the words with their gaps. */
    method BuildLine(lastLine: bool) returns (line: string)
      requires words != []
      ensures line == State().LineText(lastLine)
    {
      var ind := Indentation();
      var spaces := StrSpaces(ind);
      var blanks := NumOfBlanks(lastLine);
      var joined := JoinWords(blanks);
      line := spaces + joined;
    }

    /** The first word, then each gap (its rounded share of `blanks`, at most 3 spaces) and word in turn. */
    method JoinWords(blanks: int) returns (joined: string)
      requires words != []
      ensures joined == Joined(words, blanks, |words|)
    {
      joined := words[0];
      var n1 := |words| - 1;
      var prev := 0;
      var i := 1;
      while i < |words|
        invariant 1 <= i <= |words|
        invariant joined == Joined(words, blanks, i)
        invariant n1 > 0 ==> prev == Rounded(blanks, i - 1, n1)
      {
        var curr := Rounded(blanks, i, n1);
        var now := curr - prev;
        var sp := StrSpaces(if now < 3 then now else 3);
        joined := joined + sp + words[i];
        prev := curr;
        i := i + 1;
      }
    }

    /** The spaces to spread over the pending line's gaps. */
    method NumOfBlanks(lastLine: bool) returns (blanks: int)
      ensures blanks == State().NumOfBlanks(lastLine)
    {
      if fill && justify && !lastLine {
        var ind := Indentation();
        blanks := textwidth - chars - ind;
      } else {
        blanks := |words| - 1;
      }
    }

    /** strspaces(n): a string of n spaces, built one space at a time. */
    method StrSpaces(n: int) returns (spaces: string)
      ensures spaces == Spaces(n)
    {
      spaces := "";
      var k := n;
      while k > 0
        invariant k <= n && spaces + Spaces(k) == Spaces(n)
      {
        assert Spaces(k) == Spaces(k - 1) + " ";
        spaces := spaces + " ";
        k := k - 1;
      }
    }

    method Indentation() returns (r: int)
      ensures r == State().Indentation()
    {
      if firstline {
        r := parindent + indent;
      } else {
        r := indent;
      }
    }

    /** parskipping(first): parskip skipped lines before a paragraph's first line. */
    method Parskipping(first: bool)
      modifies pages, pages.out
      ensures pages.Abs() == Feed(old(pages.Abs()), if first then Nones(if parskip > 0 then parskip else 0) else [])
    {
      if first {
        var i := 0;
        while i < parskip
          invariant 0 <= i <= (if parskip > 0 then parskip else 0)
          invariant pages.Abs() == Feed(old(pages.Abs()), Nones(i))
        {
          assert Nones(i + 1)[..i] == Nones(i);
          pages.AddLine(None);
          i := i + 1;
        }
      }
    }
  }
}
