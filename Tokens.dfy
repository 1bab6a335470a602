/**
 * The input grammar of the text formatter. Each step of the input parser
 * matches one token at the front of the remaining input: a run of blanks, one
 * end of line or a paragraph break (two or more ends of line), an escaped
 * character, a command with its optional braced argument, a run of ordinary
 * text, or a character that may not appear there. Command arguments are
 * numbers read the way Java's Integer.parseInt reads them.
 */
module Tokens {
  import opened Wrappers

  /** One token of the input. */
  datatype Token =
    | Blanks                                      // a run of blanks and tabs
    | Newline                                     // one end of line
    | ParBreak                                    // two or more ends of line in a row
    | Escaped(c: char)                            // a backslash before a blank, a brace or a backslash
    | Command(name: string, arg: Option<string>)  // \name, with its argument when a { follows
    | Text(t: string)                             // a run of ordinary characters
    | MissingArgs                                 // \name{ with nothing after it: an error
    | Unrecognized                                // a character that may not start a token: an error

  /** A token and the number of input characters it takes up. */
  datatype Lexeme = Lexeme(tok: Token, len: nat)

  /** A blank: space or tab. */
  predicate IsBlank(c: char)
  {
    c == ' ' || c == '\t'
  }

  /** An ASCII letter, the characters of a command name. */
  predicate IsAlpha(c: char)
  {
    'a' <= c <= 'z' || 'A' <= c <= 'Z'
  }

  /** A character that cannot be part of a run of text. */
  predicate IsSpecial(c: char)
  {
    IsBlank(c) || c == '\r' || c == '\n' || c == '\\' || c == '{' || c == '}'
  }

  /** A character that may appear as it is inside a braced argument. */
  predicate IsPlain(c: char)
  {
    c != '\\' && c != '{' && c != '}'
  }

  /** The kinds of character that a token takes a maximal run of. */
  datatype CharClass = BlankChar | AlphaChar | TextChar

  predicate In(c: char, k: CharClass)
  {
    match k
    case BlankChar => IsBlank(c)
    case AlphaChar => IsAlpha(c)
    case TextChar => !IsSpecial(c)
  }

  /** The end of the longest run of characters of class k that starts at i. */
  function SpanEnd(s: string, i: nat, k: CharClass): (j: nat)
    requires i <= |s|
    ensures i <= j <= |s|
    ensures forall m :: i <= m < j ==> In(s[m], k)
    ensures j == |s| || !In(s[j], k)
    decreases |s| - i
  {
    if i < |s| && In(s[i], k) then SpanEnd(s, i + 1, k) else i
  }

  /** The end of one end of line (a newline, possibly after a carriage return) at i, if there is one. */
  function LineEnd(s: string, i: nat): (r: Option<nat>)
    ensures r.Some? ==> i < r.value <= |s|
  {
    if i < |s| && s[i] == '\n' then Some(i + 1)
    else if i + 1 < |s| && s[i] == '\r' && s[i + 1] == '\n' then Some(i + 2)
    else None
  }

  /** The end of the longest run of ends of line that starts at i. */
  function LineEnds(s: string, i: nat): (e: nat)
    requires i <= |s|
    ensures i <= e <= |s|
    ensures LineEnd(s, i).Some? ==> LineEnd(s, i).value <= e
    decreases |s| - i
  {
    match LineEnd(s, i)
    case None => i
    case Some(j) => LineEnds(s, j)
  }

  /**
   * The end of a nested group whose opening brace is just before j: its closing
   * brace after plain characters and escapes, if it has one.
   */
  function GroupEnd(s: string, j: nat): (r: Option<nat>)
    ensures r.Some? ==> j < r.value <= |s|
    decreases |s| - j
  {
    if j >= |s| then None
    else if s[j] == '}' then Some(j + 1)
    else if s[j] == '{' then None
    else if s[j] == '\\' then (if j + 1 < |s| then GroupEnd(s, j + 2) else None)
    else GroupEnd(s, j + 1)
  }

  /** The end of one item of a braced argument starting at i: an escape, a plain character or a nested group. */
  function ItemEnd(s: string, i: nat): (r: Option<nat>)
    requires i < |s|
    ensures r.Some? ==> i < r.value <= |s|
  {
    if s[i] == '\\' then (if i + 1 < |s| then Some(i + 2) else None)
    else if s[i] == '{' then GroupEnd(s, i + 1)
    else if s[i] == '}' then None
    else Some(i + 1)
  }

  /** Where the longest sequence of argument items starting at i stops. */
  function ItemsEnd(s: string, i: nat): (e: nat)
    requires i <= |s|
    ensures i <= e <= |s|
    decreases |s| - i
  {
    if i == |s| then i
    else match ItemEnd(s, i)
      case None => i
      case Some(j) => ItemsEnd(s, j)
  }

  /**
   * The argument after \name{: the items up to a closing brace, which is taken
   * up but left out of the argument; with no such brace one character is taken
   * up and there is no argument. None when nothing follows at all.
   */
  function Balanced(s: string): (r: Option<(Option<string>, nat)>)
    ensures r.None? <==> s == []
    ensures r.Some? ==> 1 <= r.value.1 <= |s|
    ensures r.Some? && r.value.0.Some? ==> r.value.1 == |r.value.0.value| + 1 && s[..|r.value.0.value|] == r.value.0.value && s[|r.value.0.value|] == '}'
  {
    if s == [] then None
    else
      var k := ItemsEnd(s, 0);
      if k < |s| && s[k] == '}' then Some((Some(s[..k]), k + 1)) else Some((None, 1))
  }

  /** The token at the front of a non-empty input. */
  function Lex(s: string): (r: Lexeme)
    requires s != []
    ensures 1 <= r.len <= |s|
    ensures r.tok.Command? && r.tok.arg.Some? ==> |r.tok.arg.value| < |s|
    ensures r.tok == MissingArgs ==> s[0] == '\\' && s[|s| - 1] == '{'
  {
    var c := s[0];
    if IsBlank(c) then Lexeme(Blanks, SpanEnd(s, 0, BlankChar))
    else if LineEnd(s, 0).Some? then
      var j := LineEnd(s, 0).value;
      Lexeme(if LineEnd(s, j).Some? then ParBreak else Newline, LineEnds(s, 0))
    else if c == '\\' && |s| >= 2 && (IsBlank(s[1]) || !IsPlain(s[1])) then Lexeme(Escaped(s[1]), 2)
    else if c == '\\' && |s| >= 2 && IsAlpha(s[1]) then
      var e := SpanEnd(s, 1, AlphaChar);
      if e < |s| && s[e] == '{' then
        match Balanced(s[e + 1..])
        case None => Lexeme(MissingArgs, |s|)
        case Some((arg, n)) => Lexeme(Command(s[1..e], arg), e + 1 + n)
      else Lexeme(Command(s[1..e], None), e)
    else if !IsSpecial(c) then
      var e := SpanEnd(s, 0, TextChar);
      Lexeme(Text(s[..e]), e)
    else Lexeme(Unrecognized, 1)
  }

  /**
   * What each token is: blanks exactly when the input starts with a blank, taking
   * the whole run of them; an end of line or a paragraph break by how many ends of
   * line come first; text exactly when the input starts with an ordinary
   * character, taking the whole run of them; an escape of the character after the
   * backslash; a command named by the letters after the backslash.
   */
  lemma LexShape(s: string)
    requires s != []
    ensures Lex(s).tok == Blanks <==> IsBlank(s[0])
    ensures Lex(s).tok == Blanks ==> (forall m :: 0 <= m < Lex(s).len ==> IsBlank(s[m])) && (Lex(s).len == |s| || !IsBlank(s[Lex(s).len]))
    ensures Lex(s).tok == Newline <==> LineEnd(s, 0).Some? && LineEnd(s, LineEnd(s, 0).value).None?
    ensures Lex(s).tok == ParBreak <==> LineEnd(s, 0).Some? && LineEnd(s, LineEnd(s, 0).value).Some?
    ensures Lex(s).tok.Text? <==> !IsSpecial(s[0])
    ensures Lex(s).tok.Text? ==> Lex(s).tok.t == s[..Lex(s).len] && (forall m :: 0 <= m < Lex(s).len ==> !IsSpecial(s[m])) && (Lex(s).len == |s| || IsSpecial(s[Lex(s).len]))
    ensures Lex(s).tok.Escaped? ==> Lex(s).len == 2 && s[0] == '\\' && s[1] == Lex(s).tok.c && (IsBlank(Lex(s).tok.c) || !IsPlain(Lex(s).tok.c))
    ensures Lex(s).tok.Command? ==> s[0] == '\\' && 1 <= |Lex(s).tok.name| < |s| && s[1..|Lex(s).tok.name| + 1] == Lex(s).tok.name
    ensures Lex(s).tok.Command? ==> forall m :: 0 <= m < |Lex(s).tok.name| ==> IsAlpha(Lex(s).tok.name[m])
  {
  }

  /** A non-empty run of ordinary characters followed by a special character (or nothing) is one text token. */
  lemma LexText(w: string, rest: string)
    requires w != [] && forall m :: 0 <= m < |w| ==> !IsSpecial(w[m])
    requires rest == [] || IsSpecial(rest[0])
    ensures Lex(w + rest) == Lexeme(Text(w), |w|)
  {
    var s := w + rest;
    assert s[0] == w[0];
    var r := Lex(s);
    assert r.tok.Text?;
    assert forall m :: 0 <= m < |w| ==> s[m] == w[m];
    assert |w| == |s| || s[|w|] == rest[0];
    assert s[..|w|] == w;
  }

  /** One newline (after an optional carriage return) not followed by another is a single end of line. */
  lemma LexNewline(nl: string, rest: string)
    requires nl == "\n" || nl == "\r\n"
    requires LineEnd(rest, 0).None?
    ensures Lex(nl + rest) == Lexeme(Newline, |nl|)
  {
    var s := nl + rest;
    assert LineEnd(s, 0) == Some(|nl|);
    assert s[|nl|..] == rest;
    assert LineEnd(s, |nl|) == LineEnd(rest, 0);
    assert LineEnds(s, |nl|) == |nl|;
  }

  /** Items of plain characters all belong to the argument, up to the first character that is not plain. */
  lemma {:induction false} ItemsPlain(s: string, i: nat, k: nat)
    requires i <= k <= |s| && forall m :: i <= m < k ==> IsPlain(s[m])
    requires k == |s| || s[k] == '}'
    ensures ItemsEnd(s, i) == k
    decreases k - i
  {
    if i < k {
      assert ItemEnd(s, i) == Some(i + 1);
      ItemsPlain(s, i + 1, k);
    }
  }

  /** A plain argument closed by a brace is read back exactly, the brace taken up as well. */
  lemma BalancedPlain(arg: string, rest: string)
    requires forall m :: 0 <= m < |arg| ==> IsPlain(arg[m])
    ensures Balanced(arg + "}" + rest) == Some((Some(arg), |arg| + 1))
  {
    var s := arg + "}" + rest;
    assert forall m :: 0 <= m < |arg| ==> s[m] == arg[m];
    assert s[|arg|] == '}';
    ItemsPlain(s, 0, |arg|);
    assert s[..|arg|] == arg;
  }

  /** \name{arg} with a plain argument is one command token carrying that argument. */
  lemma LexCommand(name: string, arg: string, rest: string)
    requires name != [] && forall m :: 0 <= m < |name| ==> IsAlpha(name[m])
    requires forall m :: 0 <= m < |arg| ==> IsPlain(arg[m])
    ensures Lex("\\" + name + "{" + arg + "}" + rest) == Lexeme(Command(name, Some(arg)), |name| + |arg| + 3)
  {
    var s := "\\" + name + "{" + arg + "}" + rest;
    var e := |name| + 1;
    assert forall m :: 1 <= m < e ==> s[m] == name[m - 1];
    assert s[e] == '{';
    assert SpanEnd(s, 1, AlphaChar) == e;
    assert s[1..e] == name;
    assert s[e + 1..] == arg + "}" + rest;
    BalancedPlain(arg, rest);
  }

  /*===== Numbers =====*/

  /** The largest and smallest values of a Java int. */
  const MaxInt: int := 0x7fff_ffff
  const MinInt: int := -0x8000_0000

  predicate IsDigit(c: char)
  {
    '0' <= c <= '9'
  }

  predicate AllDigits(ds: string)
  {
    forall m :: 0 <= m < |ds| ==> IsDigit(ds[m])
  }

  /** The value of a string of decimal digits. */
  function DigitsValue(ds: string): nat
    requires AllDigits(ds)
  {
    if ds == [] then 0 else DigitsValue(ds[..|ds| - 1]) * 10 + (ds[|ds| - 1] as int - '0' as int)
  }

  /**
   * Integer.parseInt(s): an optional sign and one or more decimal digits whose
   * value fits in an int; None stands for the NumberFormatException thrown otherwise.
   */
  function ParseInt(s: string): (r: Option<int>)
    ensures r.Some? ==> MinInt <= r.value <= MaxInt
    ensures r.Some? ==> s != [] && s != "-" && s != "+"
  {
    if s == [] then None
    else
      var neg := s[0] == '-';
      var ds := if s[0] == '-' || s[0] == '+' then s[1..] else s;
      if ds == [] || !AllDigits(ds) then None
      else
        var n: int := DigitsValue(ds);
        var v := if neg then -n else n;
        if MinInt <= v <= MaxInt then Some(v) else None
  }

  /** argnum(value): a missing argument is not a number either. */
  function ArgNum(arg: Option<string>): (r: Option<int>)
    ensures arg.None? ==> r.None?
  {
    match arg
    case None => None
    case Some(s) => ParseInt(s)
  }

  /** The decimal digits of n (Java's string conversion of a non-negative int). */
  function ToDecimal(n: nat): (r: string)
    ensures r != [] && AllDigits(r) && DigitsValue(r) == n
    ensures n > 0 ==> r[0] != '0'
  {
    var d := [(n % 10 + '0' as int) as char];
    if n < 10 then d
    else
      var ds := ToDecimal(n / 10);
      assert (ds + d)[..|ds + d| - 1] == ds;
      ds + d
  }

  /** Printing an int and reading it back gives the same int. */
  lemma ParseDecimal(n: nat)
    requires n <= MaxInt
    ensures ParseInt(ToDecimal(n)) == Some(n)
    ensures ParseInt("-" + ToDecimal(n)) == Some(-(n as int))
    ensures ParseInt("+" + ToDecimal(n)) == Some(n)
  {
    var ds := ToDecimal(n);
    assert ("-" + ds)[1..] == ds;
    assert ("+" + ds)[1..] == ds;
  }

  /** A string with a character that is neither a digit nor a leading sign is not a number. */
  lemma ParseRejects(s: string, i: nat)
    requires i < |s| && !IsDigit(s[i]) && !(i == 0 && (s[0] == '-' || s[0] == '+'))
    ensures ParseInt(s) == None
  {
    if s[0] == '-' || s[0] == '+' {
      assert s[1..][i - 1] == s[i];
    }
  }
}
