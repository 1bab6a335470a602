/**
 * Pagination of the text formatter: a page assembler counts the lines of the
 * current page, drops skipped lines at the top of a page, and marks the first
 * line of each later page with a form feed; a page collector hands each
 * finished line to a list.
 */
module Pages {
  import opened Wrappers

  /** The form-feed character (ASCII 12) that starts every page after the first. */
  const FormFeed: char := 12 as char

  /** A list of finished lines that a collector appends to (a Java List<String>). */
  class LineList {
    var lines: seq<string>

    constructor ()
      ensures lines == []
    {
      lines := [];
    }
  }

  /**
   * The abstract state of a page assembler and its sink: the line counter of the
   * current page, the page height (-1 for unlimited) and the lines written so far.
   */
  datatype PState = PState(curr: int, height: int, out: seq<string>)

  /**
   * One call of addLine(line); None is a skipped (null) line. A skipped line at the
   * top of a page does nothing; on a full page an empty or skipped line is dropped
   * and any other line starts a new page behind a form feed, the counter going back
   * to 0; otherwise the line ("" for a skipped one) is written and counted.
   */
  function Step(p: PState, line: Option<string>): (r: PState)
    ensures r.height == p.height
    ensures r.out == p.out || (|r.out| == |p.out| + 1 && r.out[..|p.out|] == p.out)
  {
    if p.curr > 0 || line.Some? then
      var l := line.GetOr("");
      if p.curr >= p.height && p.height != -1 then
        if l != "" then PState(0, p.height, p.out + [[FormFeed] + l]) else p
      else
        PState(p.curr + 1, p.height, p.out + [l])
    else
      p
  }

  /**
   * The four cases of addLine below the top of a page: on a full page a blank or
   * skipped line is dropped and a printable one starts the next page; otherwise
   * the line, "" for a skipped one, is written and counted.
   */
  lemma StepCases(p: PState, line: Option<string>)
    ensures p.curr <= 0 && line.None? ==> Step(p, line) == p
    ensures var full := p.height != -1 && p.curr >= p.height;
      (p.curr > 0 || line.Some?) ==>
        (full && line.GetOr("") == "" ==> Step(p, line) == p) &&
        (full && line.GetOr("") != "" ==> Step(p, line) == PState(0, p.height, p.out + [[FormFeed] + line.value])) &&
        (!full ==> Step(p, line) == PState(p.curr + 1, p.height, p.out + [line.GetOr("")]))
  {
  }

  /** A sequence of addLine calls, in order. */
  function Feed(p: PState, lines: seq<Option<string>>): (r: PState)
    ensures r.height == p.height
    ensures |p.out| <= |r.out| <= |p.out| + |lines| && r.out[..|p.out|] == p.out
  {
    if lines == [] then p
    else Step(Feed(p, lines[..|lines| - 1]), lines[|lines| - 1])
  }

  /** n skipped lines. */
  function Nones(n: nat): (r: seq<Option<string>>)
    ensures |r| == n && forall i :: 0 <= i < n ==> r[i] == None
  {
    seq(n, _ => None)
  }

  /** The text of lines that are all present. */
  function Values(lines: seq<Option<string>>): (r: seq<string>)
    requires forall i :: 0 <= i < |lines| ==> lines[i].Some?
    ensures |r| == |lines| && forall i :: 0 <= i < |lines| ==> lines[i] == Some(r[i])
  {
    if lines == [] then [] else Values(lines[..|lines| - 1]) + [lines[|lines| - 1].value]
  }

  /** Every line is present and not empty. */
  ghost predicate Printable(lines: seq<Option<string>>)
  {
    forall i :: 0 <= i < |lines| ==> lines[i].Some? && lines[i].value != ""
  }

  /** Feeding a + b is feeding a, then b. */
  lemma {:induction false} FeedAppend(p: PState, a: seq<Option<string>>, b: seq<Option<string>>)
    ensures Feed(p, a + b) == Feed(Feed(p, a), b)
  {
    if b == [] {
      assert a + b == a;
    } else {
      var init := b[..|b| - 1];
      assert (a + b)[..|a + b| - 1] == a + init;
      assert (a + b)[|a + b| - 1] == b[|b| - 1];
      FeedAppend(p, a, init);
    }
  }

  /** addLine never changes the height, and only ever appends to what was written. */
  lemma {:induction false} FeedAppends(p: PState, lines: seq<Option<string>>)
    ensures Feed(p, lines).height == p.height
    ensures |Feed(p, lines).out| >= |p.out| && Feed(p, lines).out[..|p.out|] == p.out
  {
    if lines != [] {
      FeedAppends(p, lines[..|lines| - 1]);
    }
  }

  /** Skipped lines at the top of a page leave everything as it was. */
  lemma {:induction false} SkipsAtTop(p: PState, n: nat)
    requires p.curr == 0
    ensures Feed(p, Nones(n)) == p
  {
    if n > 0 {
      assert Nones(n)[..n - 1] == Nones(n - 1);
      SkipsAtTop(p, n - 1);
    }
  }

  /** With a limited height the counter stays between 0 and the height, whatever is fed. */
  lemma {:induction false} CounterBounded(p: PState, lines: seq<Option<string>>)
    requires p.height > 0 && 0 <= p.curr <= p.height
    ensures 0 <= Feed(p, lines).curr <= Feed(p, lines).height == p.height
  {
    if lines != [] {
      CounterBounded(p, lines[..|lines| - 1]);
    }
  }

  /** On an unlimited page every present line is written as it is, from the top of the page on. */
  lemma {:induction false} UnlimitedWritesAll(p: PState, lines: seq<Option<string>>)
    requires p.height == -1 && p.curr >= 0 && forall i :: 0 <= i < |lines| ==> lines[i].Some?
    ensures Feed(p, lines) == PState(p.curr + |lines|, -1, p.out + Values(lines))
  {
    if lines != [] {
      var init := lines[..|lines| - 1];
      UnlimitedWritesAll(p, init);
      assert Values(lines) == Values(init) + [lines[|lines| - 1].value];
    }
  }

  /** Present lines that fit on the current page are written unmarked, one count each, an empty one too. */
  lemma {:induction false} FeedPlain(p: PState, lines: seq<Option<string>>)
    requires p.height > 0 && 0 <= p.curr && p.curr + |lines| <= p.height
    requires forall i :: 0 <= i < |lines| ==> lines[i].Some?
    ensures Feed(p, lines) == PState(p.curr + |lines|, p.height, p.out + Values(lines))
  {
    if lines != [] {
      var init := lines[..|lines| - 1];
      FeedPlain(p, init);
      assert Values(lines) == Values(init) + [lines[|lines| - 1].value];
    }
  }

  /**
   * Starting from a counter of 0, the first `height` printable lines are written
   * as they are and the next one goes behind a form feed, the counter returning to
   * 0. The first page therefore holds `height` lines, while a page begun by a form
   * feed holds that line and `height` more: height + 1 in all.
   */
  lemma PageOfLines(p: PState, lines: seq<Option<string>>)
    requires p.height > 0 && p.curr == 0 && |lines| == p.height + 1 && Printable(lines)
    ensures Feed(p, lines) == PState(0, p.height, p.out + Values(lines[..p.height]) + [[FormFeed] + lines[p.height].value])
  {
    var h := p.height;
    FeedPlain(p, lines[..h]);
    assert lines[..h] == lines[..|lines| - 1];
  }

  /** With a height of 2, six lines come out as pages of 2, 3 and 1 lines. */
  lemma SecondPageHoldsThree(o: seq<string>)
    ensures Feed(PState(0, 2, o), [Some("a"), Some("b"), Some("c"), Some("d"), Some("e"), Some("f")])
         == PState(0, 2, o + ["a", "b", [FormFeed] + "c", "d", "e", [FormFeed] + "f"])
  {
    var lines := [Some("a"), Some("b"), Some("c"), Some("d"), Some("e"), Some("f")];
    var first := lines[..3];
    assert lines == first + lines[3..];
    PageOfLines(PState(0, 2, o), first);
    var p1 := Feed(PState(0, 2, o), first);
    assert p1 == PState(0, 2, o + ["a", "b", [FormFeed] + "c"]);
    PageOfLines(p1, lines[3..]);
    FeedAppend(PState(0, 2, o), first, lines[3..]);
  }

  /** A page assembler whose finished lines go to a list (the page collector). */
  class PageAssembler {
    var curr: int
    var height: int
    const out: LineList

    ghost function Abs(): PState
      reads this, out
    {
      PState(curr, height, out.lines)
    }

    /** A new collector writing into `out`, with counter 0 and unlimited height. */
    constructor (out: LineList)
      ensures this.out == out && curr == 0 && height == -1
    {
      curr := 0;
      height := -1;
      this.out := out;
    }

    /** addLine(line): one pagination step. */
    method AddLine(line: Option<string>)
      modifies this, out
      ensures Abs() == Step(old(Abs()), line)
    {
      if curr > 0 || line.Some? {
        var l := line.GetOr("");
        if curr >= height && height != -1 {
          if l != "" {
            Write([FormFeed] + l);
            curr := 0;
          }
        } else {
          Write(l);
          curr := curr + 1;
        }
      }
    }

    /** setTextHeight(val): changes the height and nothing else. */
    method SetTextHeight(val: int)
      modifies this
      ensures Abs() == old(Abs()).(height := val)
    {
      height := val;
    }

    /** write(line) of the page collector: appends line to the list, leaving earlier lines alone. */
    method Write(line: string)
      modifies out
      ensures out.lines == old(out.lines) + [line]
    {
      out.lines := out.lines + [line];
    }
  }
}
