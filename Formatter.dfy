/**
 * The controller and input parser of the text formatter. The parser breaks the
 * input into tokens and hands each to the controller; the controller sends
 * text and settings to one of two line assemblers, the main text's or the
 * endnotes', numbers the endnotes, and at the end of the input appends the
 * collected endnote lines to the main text. An endnote's argument is parsed by
 * a parser of its own, which is where the two call each other.
 *
 * A run that ends the program (System.exit after an error report) is a false
 * `ok`: the state is then the one the program stopped in.
 */
module Formatter {
  import opened Wrappers
  import opened Pages
  import opened Lines
  import opened Tokens

  /** The formatting settings a controller starts with, for the main text and for endnotes. */
  datatype Defaults = Defaults(
    textWidth: int, textHeight: int, parSkip: int, indentation: int, parIndentation: int,
    endnoteTextWidth: int, endnoteParSkip: int, endnoteIndentation: int, endnoteParIndentation: int)

  /** Defaults that none of the setters called by the constructor rejects. */
  predicate ValidDefaults(d: Defaults)
  {
    d.endnoteTextWidth >= 0 && d.endnoteParSkip >= 0 && d.endnoteIndentation >= 0 &&
    d.textWidth >= 0 && d.textHeight > 0 && d.parSkip >= 0 && d.indentation >= 0
  }

  /** The state of a controller: its two assemblers, its mode and the number of the next endnote. */
  datatype Ctl = Ctl(main: Assembler, endn: Assembler, endnoteMode: bool, refNum: nat)
  {
    /** The assembler the current mode sends text to. */
    function Line(): Assembler
    {
      if endnoteMode then endn else main
    }

    /** The state with the current mode's assembler replaced. */
    function WithLine(a: Assembler): (r: Ctl)
      ensures r.Line() == a && r.endnoteMode == endnoteMode && r.refNum == refNum
      ensures endnoteMode ==> r.main == main
      ensures !endnoteMode ==> r.endn == endn
    {
      if endnoteMode then this.(endn := a) else this.(main := a)
    }

    /** The outcome of a setter that may end the run. */
    function Setting(r: (Assembler, bool)): (Ctl, bool)
    {
      (WithLine(r.0), r.1)
    }

    function AddText(text: string): Ctl
    {
      WithLine(Line().AddText(text))
    }

    function EndWord(): Ctl
    {
      WithLine(Line().FinishWord())
    }

    /** addNewline(): finishes the word first, then ends the input line. */
    function AddNewline(): Ctl
    {
      WithLine(Line().FinishWord().NewLine())
    }

    function EndParagraph(): Ctl
    {
      WithLine(Line().EndParagraph())
    }

    /** setTextHeight(val): ignored while an endnote is being read. */
    function SetTextHeight(val: int): (Ctl, bool)
    {
      if endnoteMode then (this, true) else Setting(Line().SetTextHeight(val))
    }

    function SetTextWidth(val: int): (Ctl, bool)
    {
      Setting(Line().SetTextWidth(val))
    }

    function SetIndentation(val: int): (Ctl, bool)
    {
      Setting(Line().SetIndentation(val))
    }

    function SetParIndentation(val: int): Ctl
    {
      WithLine(Line().SetParIndentation(val))
    }

    function SetParSkip(val: int): (Ctl, bool)
    {
      Setting(Line().SetParSkip(val))
    }

    function SetFill(on: bool): Ctl
    {
      WithLine(Line().SetFill(on))
    }

    function SetJustify(on: bool): Ctl
    {
      WithLine(Line().SetJustify(on))
    }

    /** writeEndnotes(): every collected endnote line, in order, through the main assembler. */
    function WriteEndnotes(): Ctl
    {
      this.(main := AddLines(main, endn.page.out))
    }

    /** close(): ends the current paragraph; an endnote returns to the main text, the main text gets the endnotes. */
    function Close(): Ctl
    {
      var c := EndParagraph();
      if endnoteMode then c.(endnoteMode := false) else c.WriteEndnotes()
    }
  }

  /** The state after the constructor: both assemblers set up from the defaults, in normal mode, next endnote 1. */
  function Start(d: Defaults): (r: Ctl)
    ensures !r.endnoteMode && r.refNum == 1
    ensures r.main.page == PState(0, d.textHeight, []) && r.endn.page == PState(0, -1, [])
    ensures r.main.st.words == [] && r.main.st.word.None? && r.endn.st.words == [] && r.endn.st.word.None?
    ensures r.main.st.textwidth == d.textWidth && r.endn.st.textwidth == d.endnoteTextWidth
  {
    var mainSt := Initial.(textwidth := d.textWidth, parskip := d.parSkip, indent := d.indentation, parindent := d.parIndentation);
    var endSt := Initial.(textwidth := d.endnoteTextWidth, parskip := d.endnoteParSkip, indent := d.endnoteIndentation, parindent := d.endnoteParIndentation);
    Ctl(Assembler(mainSt, PState(0, d.textHeight, [])), Assembler(endSt, PState(0, -1, [])), false, 1)
  }

  /** addLine of each line in turn. */
  function AddLines(a: Assembler, lines: seq<string>): (r: Assembler)
    ensures r.st == a.st && r.page.height == a.page.height
  {
    if lines == [] then a else AddLines(a, lines[..|lines| - 1]).AddLine(lines[|lines| - 1])
  }

  /** The lines, all present. */
  function Somes(lines: seq<string>): (r: seq<Option<string>>)
    ensures |r| == |lines| && forall i :: 0 <= i < |lines| ==> r[i] == Some(lines[i])
  {
    seq(|lines|, i requires 0 <= i < |lines| => Some(lines[i]))
  }

  /*===== The input, token by token =====*/

  function ArgSize(arg: Option<string>): nat
  {
    if arg.Some? then |arg.value| else 0
  }

  function TokSize(tok: Token): nat
  {
    if tok.Command? then ArgSize(tok.arg) + 1 else 0
  }

  /** process(): every token of s in turn, then close(); a token that ends the run stops there. */
  function Run(c: Ctl, s: string): (r: (Ctl, bool))
    ensures r.0.refNum >= c.refNum
    ensures r.1 ==> !r.0.endnoteMode
    decreases |s|, 1
  {
    if s == [] then (c.Close(), true)
    else
      var lx := Lex(s);
      var r := Dispatch(c, lx.tok);
      if !r.1 then r else Run(r.0, s[lx.len..])
  }

  /** What one token does to the controller. */
  function Dispatch(c: Ctl, tok: Token): (r: (Ctl, bool))
    ensures r.0.refNum >= c.refNum
    ensures r.1 ==> r.0.endnoteMode == c.endnoteMode
    ensures tok.MissingArgs? || tok.Unrecognized? ==> r == (c, false)
    decreases TokSize(tok), 0
  {
    match tok
    case Blanks => (c.EndWord(), true)
    case ParBreak => (c.EndParagraph(), true)
    case Newline => (c.AddNewline(), true)
    case Escaped(ch) => (c.AddText([ch]), true)
    case Text(t) => (c.AddText(t), true)
    case Command(name, arg) => CommandEffect(c, name, arg)
    case MissingArgs => (c, false)
    case Unrecognized => (c, false)
  }

  /** The commands that take an int argument. */
  const NumericCommands: set<string> := {"indent", "parindent", "textwidth", "textheight", "parskip"}

  /** The commands that take no argument. */
  const SwitchCommands: set<string> := {"nofill", "fill", "justify", "nojustify"}

  /**
   * processCommand(command, arg). A numeric setting with an argument that is not
   * an int, a switch given an argument and an endnote without one raise a
   * FormatException, which is caught: nothing changes. An unknown command is
   * reported and changes nothing.
   */
  function CommandEffect(c: Ctl, name: string, arg: Option<string>): (r: (Ctl, bool))
    ensures r.0.refNum >= c.refNum
    ensures r.1 ==> r.0.endnoteMode == c.endnoteMode
    ensures name != "endnote" ==> r.0.refNum == c.refNum
    decreases ArgSize(arg), 3
  {
    if name in NumericCommands then
      match ArgNum(arg)
      case None => (c, true)
      case Some(v) =>
        if name == "indent" then c.SetIndentation(v)
        else if name == "parindent" then (c.SetParIndentation(v), true)
        else if name == "textwidth" then c.SetTextWidth(v)
        else if name == "textheight" then c.SetTextHeight(v)
        else c.SetParSkip(v)
    else if name in SwitchCommands then
      if arg.Some? then (c, true)
      else if name == "nofill" then (c.SetFill(false), true)
      else if name == "fill" then (c.SetFill(true), true)
      else if name == "justify" then (c.SetJustify(true), true)
      else (c.SetJustify(false), true)
    else if name == "endnote" then
      if arg.None? then (c, true) else Endnote(c, arg.value)
    else (c, true)
  }

  /** The reference mark of endnote n. */
  function Mark(n: nat): string
  {
    "[" + ToDecimal(n) + "]"
  }

  /**
   * formatEndnote(text): an error inside an endnote; otherwise the mark goes into
   * the current word, the endnote starts with the mark and a blank, its text is
   * processed in endnote mode, and the next endnote gets the next number.
   */
  function Endnote(c: Ctl, text: string): (r: (Ctl, bool))
    ensures c.endnoteMode ==> r == (c, false)
    ensures r.0.refNum >= c.refNum
    ensures r.1 ==> !r.0.endnoteMode && r.0.refNum > c.refNum
    decreases |text|, 2
  {
    if c.endnoteMode then (c, false)
    else
      var c1 := c.AddText(Mark(c.refNum)).(endnoteMode := true).AddText(Mark(c.refNum) + " ");
      var r := Run(c1, text);
      if r.1 then (r.0.(refNum := r.0.refNum + 1), true) else r
  }

  /*===== Properties =====*/

  /** Run, one token at a time: a token that ends the run ends it there, any other is followed by the rest. */
  lemma RunStep(c: Ctl, s: string, lx: Lexeme, c': Ctl, ok: bool)
    requires s != [] && lx == Lex(s) && (c', ok) == Dispatch(c, lx.tok)
    ensures !ok ==> Run(c, s) == (c', false)
    ensures ok ==> Run(c, s) == Run(c', s[lx.len..])
  {
  }

  /** formatEndnote outside an endnote: the run of the endnote's text, then the next number if the run did not stop. */
  lemma EndnoteStep(c: Ctl, text: string, c1: Ctl, c2: Ctl, ok: bool)
    requires !c.endnoteMode && c1 == c.AddText(Mark(c.refNum)).(endnoteMode := true).AddText(Mark(c.refNum) + " ")
    requires (c2, ok) == Run(c1, text)
    ensures ok ==> Endnote(c, text) == (c2.(refNum := c2.refNum + 1), true)
    ensures !ok ==> Endnote(c, text) == (c2, false)
  {
    var r := Endnote(c, text);
    assert r == if ok then (c2.(refNum := c2.refNum + 1), true) else (c2, false);
  }

  /** The endnote lines reach the main page assembler as they are, in order, after the main text's last line. */
  lemma {:induction false} AddLinesFeed(a: Assembler, lines: seq<string>)
    ensures AddLines(a, lines) == Assembler(a.st, Feed(a.page, Somes(lines)))
  {
    if lines != [] {
      var init := lines[..|lines| - 1];
      AddLinesFeed(a, init);
      assert Somes(lines)[..|lines| - 1] == Somes(init);
    }
  }

  /**
   * close() in normal mode ends the main paragraph and then feeds every endnote
   * line to the main page assembler; in endnote mode it ends the endnote's
   * paragraph and returns to normal mode, leaving the main text alone.
   */
  lemma CloseEffect(c: Ctl)
    ensures !c.Close().endnoteMode && c.Close().refNum == c.refNum
    ensures !c.endnoteMode ==> c.Close().main == Assembler(c.main.EndParagraph().st, Feed(c.main.EndParagraph().page, Somes(c.endn.page.out)))
    ensures !c.endnoteMode ==> c.Close().endn == c.endn
    ensures c.endnoteMode ==> c.Close().main == c.main && c.Close().endn == c.endn.EndParagraph()
  {
    if !c.endnoteMode {
      AddLinesFeed(c.main.EndParagraph(), c.endn.page.out);
    }
  }

  /**
   * When the endnote lines fit on the main text's current page (or the page has
   * no height limit), the main text's output ends with exactly the endnote lines.
   */
  lemma EndnotesAppended(c: Ctl)
    requires !c.endnoteMode
    requires var p := c.main.EndParagraph().page;
      0 <= p.curr && (p.height == -1 || (0 < p.height && p.curr + |c.endn.page.out| <= p.height))
    ensures c.Close().main.page.out == c.main.EndParagraph().page.out + c.endn.page.out
  {
    var p := c.main.EndParagraph().page;
    var lines := Somes(c.endn.page.out);
    CloseEffect(c);
    if p.height == -1 {
      UnlimitedWritesAll(p, lines);
    } else {
      FeedPlain(p, lines);
    }
    assert Values(lines) == c.endn.page.out;
  }

  /** Whatever the input, a run that is not stopped by an error ends in normal mode. */
  lemma {:induction false} RunEndsNormal(c: Ctl, s: string)
    ensures Run(c, s).1 ==> !Run(c, s).0.endnoteMode
    decreases |s|
  {
    if s != [] {
      var lx := Lex(s);
      var r := Dispatch(c, lx.tok);
      if r.1 {
        RunEndsNormal(r.0, s[lx.len..]);
      }
    } else {
      CloseEffect(c);
    }
  }

  /** One token read inside an endnote stays inside it and leaves the main text and the numbering alone. */
  lemma DispatchInEndnote(c: Ctl, tok: Token)
    requires c.endnoteMode
    ensures Dispatch(c, tok).0.main == c.main && Dispatch(c, tok).0.refNum == c.refNum && Dispatch(c, tok).0.endnoteMode
  {
    if tok.Command? && tok.name == "endnote" && tok.arg.Some? {
      assert Dispatch(c, tok) == Endnote(c, tok.arg.value) == (c, false);
    }
  }

  /** While an endnote is read, the main text, including its page height, and the numbering stay as they were. */
  lemma {:induction false} EndnoteLeavesMain(c: Ctl, s: string)
    requires c.endnoteMode
    ensures Run(c, s).0.main == c.main && Run(c, s).0.refNum == c.refNum
    decreases |s|
  {
    if s != [] {
      var lx := Lex(s);
      DispatchInEndnote(c, lx.tok);
      var r := Dispatch(c, lx.tok);
      if r.1 {
        EndnoteLeavesMain(r.0, s[lx.len..]);
      }
    } else {
      CloseEffect(c);
    }
  }

  /**
   * An endnote read from the main text puts its mark "[n]" into the main text's
   * current word and nothing else, returns to normal mode, and numbers the next
   * endnote n + 1; an endnote inside an endnote ends the run.
   */
  lemma EndnoteEffect(c: Ctl, text: string)
    ensures c.endnoteMode ==> Endnote(c, text) == (c, false)
    ensures !c.endnoteMode && Endnote(c, text).1 ==>
      var r := Endnote(c, text).0;
      r.main == c.main.AddText(Mark(c.refNum)) && r.refNum == c.refNum + 1 && !r.endnoteMode
  {
    if !c.endnoteMode {
      var c1 := c.AddText(Mark(c.refNum)).(endnoteMode := true).AddText(Mark(c.refNum) + " ");
      assert c1.main == c.main.AddText(Mark(c.refNum));
      EndnoteLeavesMain(c1, text);
      RunEndsNormal(c1, text);
    }
  }

  /** A plain word is one addText, and at the end of the input comes close(). */
  lemma RunWord(c: Ctl, w: string)
    requires w != [] && forall m :: 0 <= m < |w| ==> !IsSpecial(w[m])
    ensures Run(c, w) == (c.AddText(w).Close(), true)
  {
    LexText(w, []);
    assert w + [] == w;
    assert w[|w|..] == [];
  }

  /**
   * A numeric command written with a decimal argument, \name{n}, calls its setter
   * with n; the rest of the input is read unless the setter ends the run.
   */
  lemma RunNumeric(c: Ctl, name: string, n: nat, rest: string)
    requires name in NumericCommands && n <= MaxInt
    ensures CommandEffect(c, name, Some(ToDecimal(n))) ==
      if name == "indent" then c.SetIndentation(n)
      else if name == "parindent" then (c.SetParIndentation(n), true)
      else if name == "textwidth" then c.SetTextWidth(n)
      else if name == "textheight" then c.SetTextHeight(n)
      else c.SetParSkip(n)
    ensures var r := CommandEffect(c, name, Some(ToDecimal(n)));
      Run(c, "\\" + name + "{" + ToDecimal(n) + "}" + rest) == if r.1 then Run(r.0, rest) else r
  {
    var s := "\\" + name + "{" + ToDecimal(n) + "}" + rest;
    LexNumeric(name, n, rest);
    var lx := Lex(s);
    ParseDecimal(n);
    var r := CommandEffect(c, name, Some(ToDecimal(n)));
    assert Dispatch(c, lx.tok) == r;
    RunStep(c, s, lx, r.0, r.1);
  }

  /** \name{n} with a numeric command's name and n in decimal is one command token with the digits as its argument. */
  lemma LexNumeric(name: string, n: nat, rest: string)
    requires name in NumericCommands
    ensures var s := "\\" + name + "{" + ToDecimal(n) + "}" + rest;
      Lex(s) == Lexeme(Command(name, Some(ToDecimal(n))), |name| + |ToDecimal(n)| + 3) && s[|name| + |ToDecimal(n)| + 3..] == rest
  {
    var ds := ToDecimal(n);
    var s := "\\" + name + "{" + ds + "}" + rest;
    assert forall m :: 0 <= m < |name| ==> IsAlpha(name[m]);
    LexCommand(name, ds, rest);
    assert s[|name| + |ds| + 3..] == rest;
  }

  /**
   * The commands processCommand does nothing for: a numeric command whose
   * argument is missing or not an int, a switch given an argument, an endnote
   * without one, and an unknown name. The switches without an argument set fill
   * or justification, and an endnote with one is formatEndnote.
   */
  lemma CommandCases(c: Ctl, name: string, arg: Option<string>)
    ensures name in NumericCommands && ArgNum(arg).None? ==> CommandEffect(c, name, arg) == (c, true)
    ensures name in SwitchCommands && arg.Some? ==> CommandEffect(c, name, arg) == (c, true)
    ensures name == "endnote" && arg.None? ==> CommandEffect(c, name, arg) == (c, true)
    ensures name !in NumericCommands && name !in SwitchCommands && name != "endnote" ==> CommandEffect(c, name, arg) == (c, true)
    ensures name == "nofill" && arg.None? ==> CommandEffect(c, name, arg) == (c.SetFill(false), true)
    ensures name == "fill" && arg.None? ==> CommandEffect(c, name, arg) == (c.SetFill(true), true)
    ensures name == "justify" && arg.None? ==> CommandEffect(c, name, arg) == (c.SetJustify(true), true)
    ensures name == "nojustify" && arg.None? ==> CommandEffect(c, name, arg) == (c.SetJustify(false), true)
    ensures name == "endnote" && arg.Some? ==> CommandEffect(c, name, arg) == Endnote(c, arg.value)
  {
  }

  /*===== The controller and the parser objects =====*/

  /** A line assembler in its initial state whose page collector writes into `sink`. */
  method NewAssembler(sink: LineList) returns (a: LineAssembler)
    ensures fresh(a) && fresh(a.pages) && a.pages.out == sink
    ensures a.Abs() == Assembler(Initial, PState(0, -1, sink.lines))
  {
    var p := new PageAssembler(sink);
    a := new LineAssembler(p);
  }

  /** The controller: two line assemblers, the current one, the mode and the endnote number. */
  class Controller {
    const printed: LineList       // the main text's output, in place of the printer
    const endnotes: LineList      // the collected endnote lines
    const mainText: LineAssembler
    const endText: LineAssembler
    var line: LineAssembler
    var endnoteMode: bool
    var refNum: nat

    ghost function Repr(): set<object>
    {
      {this, printed, endnotes, mainText, mainText.pages, mainText.pages.out, endText, endText.pages, endText.pages.out}
    }

    /** The assemblers and their sinks are separate, the endnote collector writes the endnote list, and the current assembler is the mode's. */
    ghost predicate Valid()
      reads this
    {
      mainText != endText && mainText.pages != endText.pages && printed != endnotes &&
      printed == mainText.pages.out && endnotes == endText.pages.out &&
      line == (if endnoteMode then endText else mainText)
    }

    ghost function Abs(): Ctl
      reads Repr()
    {
      Ctl(mainText.Abs(), endText.Abs(), endnoteMode, refNum)
    }

    /** A controller set up from the defaults: first the endnote settings in endnote mode, then the main ones in normal mode. */
    constructor (d: Defaults)
      requires ValidDefaults(d)
      ensures Valid() && fresh(Repr() - {this}) && Abs() == Start(d)
    {
      var pl := new LineList();
      var el := new LineList();
      printed, endnotes := pl, el;
      var ma := NewAssembler(pl);
      var ea := NewAssembler(el);
      mainText, endText := ma, ea;
      refNum := 1;
      line := mainText;
      endnoteMode := false;
      new;
      assert fresh(Repr() - {this});
      EndnoteDefaults(d);
      MainDefaults(d);
    }

    /** The endnote half of the constructor: the endnote assembler's settings, set in endnote mode. */
    method EndnoteDefaults(d: Defaults)
      requires Valid() && ValidDefaults(d) && !endnoteMode
      requires endText.Abs() == Assembler(Initial, PState(0, -1, []))
      modifies Repr()
      ensures Valid() && endnoteMode && Abs() == old(Abs()).(endn := Start(d).endn, endnoteMode := true)
    {
      SetEndnoteMode();
      var ok := SetTextWidth(d.endnoteTextWidth);
      ok := SetParSkip(d.endnoteParSkip);
      ok := SetIndentation(d.endnoteIndentation);
      SetParIndentation(d.endnoteParIndentation);
    }

    /** The main half of the constructor: the main assembler's settings, set in normal mode. */
    method MainDefaults(d: Defaults)
      requires Valid() && ValidDefaults(d)
      requires mainText.Abs() == Assembler(Initial, PState(0, -1, []))
      modifies Repr()
      ensures Valid() && !endnoteMode && Abs() == old(Abs()).(main := Start(d).main, endnoteMode := false)
    {
      SetNormalMode();
      var ok := SetTextWidth(d.textWidth);
      ok := SetTextHeight(d.textHeight);
      ok := SetParSkip(d.parSkip);
      ok := SetIndentation(d.indentation);
      SetParIndentation(d.parIndentation);
    }

    method AddText(text: string)
      requires Valid()
      modifies Repr()
      ensures Valid() && Abs() == old(Abs()).AddText(text)
    {
      line.AddText(text);
    }

    method EndWord()
      requires Valid()
      modifies Repr()
      ensures Valid() && Abs() == old(Abs()).EndWord()
    {
      line.FinishWord();
    }

    method AddNewline()
      requires Valid()
      modifies Repr()
      ensures Valid() && Abs() == old(Abs()).AddNewline()
    {
      EndWord();
      line.NewLine();
    }

    method EndParagraph()
      requires Valid()
      modifies Repr()
      ensures Valid() && Abs() == old(Abs()).EndParagraph()
    {
      line.EndParagraph();
    }

    /** formatEndnote(text); false when the program stops. */
    method FormatEndnote(text: string) returns (ok: bool)
      requires Valid()
      modifies Repr()
      ensures Valid() && (Abs(), ok) == Endnote(old(Abs()), text)
      decreases |text|, 4
    {
      ghost var c0 := Abs();
      if endnoteMode {
        assert Endnote(c0, text) == (c0, false);
        return false;
      }
      var mark := Mark(refNum);
      AddText(mark);
      var check := new InputParser(text, this);
      SetEndnoteMode();
      AddText(mark + " ");
      ghost var c1 := Abs();
      ok := ProcessEndnote(check);
      ghost var c2 := Abs();
      EndnoteStep(c0, text, c1, c2, ok);
      if !ok {
        return;
      }
      NextRefNum();
      assert Abs() == c2.(refNum := c2.refNum + 1);
    }

    /** The increment of _refNum at the end of formatEndnote, nothing else changing. */
    method NextRefNum()
      requires Valid()
      modifies this
      ensures Valid() && Abs() == old(Abs()).(refNum := old(refNum) + 1)
    {
      refNum := refNum + 1;
    }

    /** check.process() on a fresh parser of the endnote's text; false when the program stops. */
    method ProcessEndnote(check: InputParser) returns (ok: bool)
      requires Valid() && check.out == this && check.pos == 0
      modifies Repr(), check
      ensures Valid() && (Abs(), ok) == Run(old(Abs()), check.text)
      decreases |check.text|, 3
    {
      assert check.text[check.pos..] == check.text;
      ok := check.Process();
    }

    method SetTextHeight(val: int) returns (ok: bool)
      requires Valid()
      modifies Repr()
      ensures Valid() && (Abs(), ok) == old(Abs()).SetTextHeight(val)
    {
      ok := true;
      if !endnoteMode {
        ok := line.SetTextHeight(val);
      }
    }

    method SetTextWidth(val: int) returns (ok: bool)
      requires Valid()
      modifies Repr()
      ensures Valid() && (Abs(), ok) == old(Abs()).SetTextWidth(val)
    {
      ok := line.SetTextWidth(val);
    }

    method SetIndentation(val: int) returns (ok: bool)
      requires Valid()
      modifies Repr()
      ensures Valid() && (Abs(), ok) == old(Abs()).SetIndentation(val)
    {
      ok := line.SetIndentation(val);
    }

    method SetParIndentation(val: int)
      requires Valid()
      modifies Repr()
      ensures Valid() && Abs() == old(Abs()).SetParIndentation(val)
    {
      line.SetParIndentation(val);
    }

    method SetParSkip(val: int) returns (ok: bool)
      requires Valid()
      modifies Repr()
      ensures Valid() && (Abs(), ok) == old(Abs()).SetParSkip(val)
    {
      ok := line.SetParSkip(val);
    }

    method SetFill(on: bool)
      requires Valid()
      modifies Repr()
      ensures Valid() && Abs() == old(Abs()).SetFill(on)
    {
      line.SetFill(on);
    }

    method SetJustify(on: bool)
      requires Valid()
      modifies Repr()
      ensures Valid() && Abs() == old(Abs()).SetJustify(on)
    {
      line.SetJustify(on);
    }

    method Close()
      requires Valid()
      modifies Repr()
      ensures Valid() && Abs() == old(Abs()).Close()
    {
      line.EndParagraph();
      if endnoteMode {
        SetNormalMode();
      } else {
        WriteEndnotes();
      }
    }

    method SetEndnoteMode()
      requires Valid()
      modifies this
      ensures Valid() && Abs() == old(Abs()).(endnoteMode := true)
    {
      line := endText;
      endnoteMode := true;
    }

    method SetNormalMode()
      requires Valid()
      modifies this
      ensures Valid() && Abs() == old(Abs()).(endnoteMode := false)
    {
      line := mainText;
      endnoteMode := false;
    }

    method WriteEndnotes()
      requires Valid()
      modifies Repr()
      ensures Valid() && Abs() == old(Abs()).WriteEndnotes()
    {
      var i := 0;
      while i < |endnotes.lines|
        invariant i <= |endnotes.lines| && Valid()
        invariant endText.Abs() == old(endText.Abs()) && endnoteMode == old(endnoteMode) && refNum == old(refNum)
        invariant mainText.Abs() == AddLines(old(mainText.Abs()), endnotes.lines[..i])
      {
        assert endnotes.lines[..i + 1][..i] == endnotes.lines[..i];
        mainText.AddLine(endnotes.lines[i]);
        i := i + 1;
      }
      assert endnotes.lines[..i] == endnotes.lines;
    }
  }

  /** An input parser: a text, how far it has been read, and the controller it feeds. */
  class InputParser {
    const out: Controller
    const text: string
    var pos: nat

    constructor (text: string, out: Controller)
      ensures this.text == text && this.out == out && pos == 0
    {
      this.text := text;
      this.out := out;
      pos := 0;
    }

    /** process(): reads the rest of the text token by token, then closes the controller; false when the program stops. */
    method Process() returns (ok: bool)
      requires out.Valid() && pos <= |text|
      modifies this, out.Repr()
      ensures out.Valid() && (out.Abs(), ok) == Run(old(out.Abs()), text[old(pos)..])
      decreases |text|, 2
    {
      ghost var c0, s0 := out.Abs(), text[pos..];
      while pos < |text|
        invariant pos <= |text| && out.Valid()
        invariant Run(c0, s0) == Run(out.Abs(), text[pos..])
        decreases |text| - pos
      {
        ok := Advance();
        if !ok {
          return;
        }
      }
      out.Close();
      ok := true;
    }

    /** One round of the loop of process(): the next token is read and handed on; false when the program stops. */
    method Advance() returns (ok: bool)
      requires out.Valid() && pos < |text|
      modifies this, out.Repr()
      ensures out.Valid() && old(pos) < pos <= |text|
      ensures ok ==> Run(old(out.Abs()), text[old(pos)..]) == Run(out.Abs(), text[pos..])
      ensures !ok ==> Run(old(out.Abs()), text[old(pos)..]) == (out.Abs(), false)
      decreases |text| - pos, 1
    {
      var rest := text[pos..];
      var lx := Lex(rest);
      ghost var c := out.Abs();
      ok := ProcessToken(lx.tok);
      ghost var c' := out.Abs();
      RunStep(c, rest, lx, c', ok);
      var next := pos + lx.len;
      assert rest[lx.len..] == text[next..];
      pos := next;
      assert out.Abs() == c';
    }

    /** The controller call for one token of process(); false when the program stops. */
    method ProcessToken(tok: Token) returns (ok: bool)
      requires out.Valid()
      modifies out.Repr()
      ensures out.Valid() && (out.Abs(), ok) == Dispatch(old(out.Abs()), tok)
      decreases TokSize(tok), 0
    {
      ok := true;
      match tok {
        case Blanks => out.EndWord();
        case ParBreak => out.EndParagraph();
        case Newline => out.AddNewline();
        case Escaped(ch) => out.AddText([ch]);
        case Text(t) => out.AddText(t);
        case Command(name, arg) => ok := ProcessCommand(name, arg);
        case MissingArgs => ok := false;
        case Unrecognized => ok := false;
      }
    }

    /** processCommand(command, arg); false when the program stops. */
    method ProcessCommand(command: string, arg: Option<string>) returns (ok: bool)
      requires out.Valid()
      modifies out.Repr()
      ensures out.Valid() && (out.Abs(), ok) == CommandEffect(old(out.Abs()), command, arg)
      decreases ArgSize(arg), 5
    {
      ok := true;
      if command in NumericCommands {
        var v := ArgNum(arg);
        if v.None? {
          return;
        }
        if command == "indent" {
          ok := out.SetIndentation(v.value);
        } else if command == "parindent" {
          out.SetParIndentation(v.value);
        } else if command == "textwidth" {
          ok := out.SetTextWidth(v.value);
        } else if command == "textheight" {
          ok := out.SetTextHeight(v.value);
        } else {
          ok := out.SetParSkip(v.value);
        }
      } else if command in SwitchCommands {
        if arg.Some? {
          return;
        }
        if command == "nofill" {
          out.SetFill(false);
        } else if command == "fill" {
          out.SetFill(true);
        } else if command == "justify" {
          out.SetJustify(true);
        } else {
          out.SetJustify(false);
        }
      } else if command == "endnote" {
        if arg.None? {
          return;
        }
        ok := out.FormatEndnote(arg.value);
      }
    }
  }
}
