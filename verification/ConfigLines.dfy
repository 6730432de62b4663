/** What a configuration file leaves out: comments, stray characters, lines that assign nothing, and
    whatever follows a value on its line. */
module ConfigLines {
  import opened Basics
  import opened ConfigParser
  import opened ConfigRoundTrip

  predicate OneLine(t: string) { '\n' !in t && '\r' !in t }

  predicate EndsLine(c: char) { c == '\n' || c == '\r' }

  lemma {:induction false} SkipsLine(p: Regs, t: string)
    requires p.phase == EndLine && OneLine(t)
    ensures After(p, t) == p && Adds(p, t) == []
    decreases |t|
  {
    hide Step;
    if t != [] {
      SkipsOne(p, t[0]);
      SkipsLine(p, t[1..]);
    }
  }

  lemma SkipsOne(p: Regs, c: char)
    requires p.phase == EndLine && !EndsLine(c)
    ensures Step(p, c) == (p, [])
  {}

  lemma LineOver(p: Regs, c: char)
    requires p.phase == EndLine && EndsLine(c)
    ensures Step(p, c).0.phase == BeginLine && Step(p, c).1 == []
  {}

  /** A file that begins with `a`, the rest `t` of its line, a line end and `s`. */
  function LineFrom(a: string, t: string, nl: char, s: string): string { ((a + t) + [nl]) + s }

  /** Once the end of a line is awaited, the rest of the line is ignored. */
  lemma RestIgnored(a: string, t: string, nl: char, s: string)
    requires After(INIT, a).phase == EndLine && OneLine(t) && EndsLine(nl)
    ensures Parse(LineFrom(a, t, nl, s)) == Adds(INIT, a) + Parse(s)
  {
    hide Step, OneLine, EndsLine;
    var p := After(INIT, a);
    SkipsLine(p, t);
    RunAppend(INIT, a, t);
    RunAppend(INIT, a + t, [nl]);
    RunOne(p, nl);
    LineOver(p, nl);
    FreshLine((a + t) + [nl], s);
  }

  /** Comments are ignored. */
  lemma CommentIgnored(t: string, nl: char, s: string)
    requires OneLine(t) && EndsLine(nl)
    ensures Parse(LineFrom("#", t, nl, s)) == Parse(s)
  {
    hide OneLine, EndsLine;
    RunOne(INIT, '#');
    RestIgnored("#", t, nl, s);
  }

  /** Before a name every character is skipped that cannot begin one. */
  lemma StraySkipped(c: char, s: string)
    requires !Allowed(c) && c != '#'
    ensures Parse([c] + s) == Parse(s)
  {
    hide Allowed;
    PrintableIff(c);
    assert Step(INIT, c) == (INIT, []);
    RunOne(INIT, c);
    RunAppend(INIT, [c], s);
  }

  lemma NameBroken(p: Regs, c: char)
    requires p.phase == Token && !Allowed(c) && c != '='
    ensures Step(p, c).0.phase == EndLine && Step(p, c).1 == []
  {
    hide Allowed;
    PrintableIff(c);
  }

  lemma JustName(name: string)
    requires name != [] && Printable(name)
    ensures After(INIT, name).phase == Token && Adds(INIT, name) == []
  {
    hide Allowed, Step;
    var q := INIT.(phase := Token, token := [name[0]]);
    NameBegins(name[0]);
    ReadToken(q, name[1..]);
  }

  lemma NameBegins(c: char)
    requires Allowed(c)
    ensures Step(INIT, c) == (INIT.(phase := Token, token := [c]), [])
  {
    PrintableIff(c);
  }

  /** A name that anything but `=` breaks off assigns nothing. If that is a line end, the next line
      goes with it. */
  lemma BrokenNameIgnored(name: string, c: char, t: string, nl: char, s: string)
    requires name != [] && Printable(name) && !Allowed(c) && c != '=' && OneLine(t) && EndsLine(nl)
    ensures Parse(LineFrom(name + [c], t, nl, s)) == Parse(s)
  {
    hide Allowed, Step, OneLine, EndsLine;
    JustName(name);
    RunAppend(INIT, name, [c]);
    RunOne(After(INIT, name), c);
    NameBroken(After(INIT, name), c);
    RestIgnored(name + [c], t, nl, s);
  }

  predicate BeginsValue(c: char) { c == '"' || c == '{' || c in "0123456789" }

  lemma NoValue(p: Regs, c: char)
    requires p.phase == BeginQuote && !BeginsValue(c)
    ensures Step(p, c).0.phase == EndLine && Step(p, c).1 == []
  {
    DigitsAre(c);
  }

  /** A value that begins with anything but a quote, a brace or a digit assigns nothing. */
  lemma BadValueIgnored(name: string, c: char, t: string, nl: char, s: string)
    requires name != [] && Printable(name) && !BeginsValue(c) && OneLine(t) && EndsLine(nl)
    ensures Parse(LineFrom((name + "=") + [c], t, nl, s)) == Parse(s)
  {
    hide Allowed, Step, OneLine, EndsLine, BeginsValue;
    ReadName(INIT, name);
    RunAppend(INIT, name + "=", [c]);
    RunOne(Named(INIT, name), c);
    NoValue(Named(INIT, name), c);
    RestIgnored((name + "=") + [c], t, nl, s);
  }

  lemma LoneZero(p: Regs, c: char)
    requires p.phase == BeginHex && c != 'x' && c != 'X' && c !in "0123456789" && !EndsLine(c)
    ensures Step(p, c).0.phase == EndLine && Step(p, c).1 == []
  {
    DigitsAre(c);
  }

  /** A lone zero counts only at the end of its line; before anything else it assigns nothing. */
  lemma ZeroThenMoreIgnored(name: string, c: char, t: string, nl: char, s: string)
    requires name != [] && Printable(name) && c != 'x' && c != 'X' && c !in "0123456789" && !EndsLine(c)
    requires OneLine(t) && EndsLine(nl)
    ensures Parse(LineFrom((name + "=") + ['0', c], t, nl, s)) == Parse(s)
  {
    hide Allowed, Step, OneLine, EndsLine;
    var p := Named(INIT, name);
    ReadName(INIT, name);
    RunAppend(INIT, name + "=", ['0', c]);
    TwoMore(p, '0', c);
    ZeroBegins(p);
    LoneZero(Step(p, '0').0, c);
    RestIgnored((name + "=") + ['0', c], t, nl, s);
  }

  lemma ZeroBegins(p: Regs)
    requires p.phase == BeginQuote
    ensures Step(p, '0') == (p.(phase := BeginHex, flag := false), [])
  {}

  /** Whatever follows a closing quote on its line is ignored. */
  lemma TextThenMore(name: string, text: string, t: string, nl: char, s: string)
    requires name != [] && Printable(name) && !Quoted(text) && OneLine(t) && EndsLine(nl)
    ensures Parse(LineFrom((name + "=") + ("\"" + (text + ("\"" + ""))), t, nl, s)) == [Param(name, Kept(text) + ['\0'], 0)] + Parse(s)
  {
    hide Allowed, Step, OneLine, EndsLine, Quoted, Kept;
    var v := "\"" + (text + ("\"" + ""));
    ReadName(INIT, name);
    RunAppend(INIT, name + "=", v);
    QuotedText(Named(INIT, name), text, "");
    RestIgnored((name + "=") + v, t, nl, s);
  }

  lemma NumberThen(a: string, c: char, t: string, nl: char, s: string)
    requires var r := After(INIT, a);
             r.phase == NumValue && r.str == "" && Adds(INIT, a) == []
             && !IsDigit(c, r.base) && (r.base == 16 ==> !IsDelimiter(c)) && !EndsLine(c)
    requires OneLine(t) && EndsLine(nl)
    ensures var r := After(INIT, a);
            Parse(LineFrom(a + [c], t, nl, s)) == [Param(CStr(r.token), "", r.num)] + Parse(s)
  {
    hide Step, OneLine, CStr, IsDigit, IsDelimiter;
    var r := After(INIT, a);
    RunAppend(INIT, a, [c]);
    RunOne(r, c);
    NumberEnds(r, c);
    RestIgnored(a + [c], t, nl, s);
  }

  /** A decimal number of any length, with or without leading zeros, wraps around at the word size;
      anything but a digit ends it, and the rest of the line is ignored. */
  lemma DecimalThenMore(name: string, d: string, c: char, t: string, nl: char, s: string)
    requires name != [] && Printable(name) && DecimalNumeral(d) && d != "0"
    requires c !in "0123456789" && !EndsLine(c) && OneLine(t) && EndsLine(nl)
    ensures Parse(LineFrom(((name + "=") + d) + [c], t, nl, s)) ==
            [Param(name, "", Horner(0, d, 10) % 0x1_0000_0000_0000_0000)] + Parse(s)
  {
    hide Allowed, Step, OneLine, EndsLine, Horner, DigitString;
    ReadName(INIT, name);
    RunAppend(INIT, name + "=", d);
    DecimalDigits(Named(INIT, name), d);
    DigitsAre(c);
    NumberThen((name + "=") + d, c, t, nl, s);
  }

  /** The same at the end of the line, and then for zero as well. */
  lemma DecimalLine(name: string, d: string, nl: char, s: string)
    requires name != [] && Printable(name) && DecimalNumeral(d) && EndsLine(nl)
    ensures Parse((((name + "=") + d) + [nl]) + s) ==
            [Param(name, "", Horner(0, d, 10) % 0x1_0000_0000_0000_0000)] + Parse(s)
  {
    hide Allowed, Step, Horner, DigitString;
    var r := After(Named(INIT, name), d);
    ReadName(INIT, name);
    RunAppend(INIT, name + "=", d);
    DecimalDigits(Named(INIT, name), d);
    RunAppend(INIT, (name + "=") + d, [nl]);
    RunOne(r, nl);
    NewlineEnds(r, nl);
    FinishNumber(r);
    FreshLine(((name + "=") + d) + [nl], s);
  }

  /** A hexadecimal number likewise, ended by anything but a hexadecimal digit or a delimiter. */
  lemma HexThenMore(name: string, bigX: bool, h: string, c: char, t: string, nl: char, s: string)
    requires name != [] && Printable(name) && HexNumeral(h)
    requires !Hexit(c) && !Delimits(c) && !EndsLine(c) && OneLine(t) && EndsLine(nl)
    ensures Parse(LineFrom(((name + "=") + ((if bigX then "0X" else "0x") + h)) + [c], t, nl, s)) ==
            [Param(name, "", Horner(0, h, 16) % 0x1_0000_0000_0000_0000)] + Parse(s)
  {
    hide Allowed, Step, OneLine, EndsLine, Horner, DigitString, Hexit, Delimits, IsDigit, IsDelimiter;
    var v := (if bigX then "0X" else "0x") + h;
    ReadName(INIT, name);
    RunAppend(INIT, name + "=", v);
    HexDigits(Named(INIT, name), bigX, h);
    DigitsAre(c);
    NumberThen((name + "=") + v, c, t, nl, s);
  }
}
