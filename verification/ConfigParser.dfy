/** The grammar of the configuration file, as the program's character-driven state machine reads it. */
module ConfigParser {

  /** One past the largest `unsigned long` (64 bits). */
  const ULONG: nat := 0x1_0000_0000_0000_0000

  datatype Phase = BeginLine | Token | StrValue | NumValue | BeginHex | BeginQuote | EndLine

  /** The state word (phase and string flag) and the registers of the reading loop. */
  datatype Regs = Regs(phase: Phase, flag: bool, token: string, str: string, num: nat, base: nat, i: nat)

  datatype Param = Param(name: string, str: string, num: nat)

  const INIT := Regs(BeginLine, false, "", "", 0, 0, 0)

  predicate IsPrintable(c: char) {
    'A' <= c <= 'Z' || 'a' <= c <= 'z' || '0' <= c <= '9' || c == '/' || c == '_' || c == '-' || c == '.'
  }

  /** The characters that names and strings are made of. */
  predicate Allowed(c: char) {
    c in "ABCDEFGHIJKLMNOPQRSTUVWXYZ" || c in "abcdefghijklmnopqrstuvwxyz" || c in "0123456789" || c in "/_-."
  }

  lemma PrintableIff(c: char)
    ensures IsPrintable(c) <==> Allowed(c)
  {
    Capitals(c);
    Smalls(c);
    assert '0' <= c <= '9' <==> c in "0123456789";
  }

  lemma Capitals(c: char)
    ensures 'A' <= c <= 'Z' <==> c in "ABCDEFGHIJKLMNOPQRSTUVWXYZ"
  {}

  lemma Smalls(c: char)
    ensures 'a' <= c <= 'z' <==> c in "abcdefghijklmnopqrstuvwxyz"
  {}

  predicate IsDigit(c: char, base: nat) {
    '0' <= c <= '9' || (base == 16 && ('A' <= c <= 'F' || 'a' <= c <= 'f'))
  }

  function DigitValue(c: char, base: nat): nat {
    if '0' <= c <= '9' then c as int - '0' as int
    else if base == 16 && 'A' <= c <= 'F' then c as int - 'A' as int + 10
    else if base == 16 && 'a' <= c <= 'f' then c as int - 'a' as int + 10
    else 0
  }

  predicate IsNewline(c: char) { c == '\n' || c == '\r' }

  predicate IsDelimiter(c: char) { c == ':' || c == '-' || c == ' ' || c == '}' }

  /** The name as a C string: up to the first NUL. */
  function CStr(s: string): string {
    if s == [] || s[0] == '\0' then [] else [s[0]] + CStr(s[1..])
  }

  function Pow256(n: nat): nat { if n == 0 then 1 else 256 * Pow256(n - 1) }

  lemma Pow256Positive(n: nat)
    ensures Pow256(n) > 0
  {}

  /** The `n` low bytes of a number, most significant first. */
  function BigEndian(v: nat, n: nat): string {
    if n == 0 then []
    else Pow256Positive(n - 1); [(v / Pow256(n - 1) % 256) as char] + BigEndian(v, n - 1)
  }

  /** The number register wraps around at the word size. */
  function AppendDigit(num: nat, base: nat, d: nat): nat { (num * base + d) % ULONG }

  function Finish(p: Regs): Param {
    if p.str != [] then Param(CStr(p.token), p.str, 0) else Param(CStr(p.token), "", p.num)
  }

  // ---------------------------------------------------------------- one character

  function NumStep(p: Regs, c: char): (Regs, seq<Param>) {
    if IsDigit(c, p.base) then
      (p.(num := AppendDigit(p.num, p.base, DigitValue(c, p.base)), i := p.i + 1), [])
    else if p.base == 16 && IsDelimiter(c) then
      (p.(str := if p.i > 0 then p.str + BigEndian(p.num, (p.i + 1) / 2) else p.str, flag := true, num := 0, i := 0), [])
    else
      (p.(phase := if IsNewline(c) then BeginLine else EndLine, flag := false, str := "", num := 0), [Finish(p)])
  }

  function Step(p: Regs, c: char): (Regs, seq<Param>) {
    match p.phase
    case BeginLine =>
      if c == '#' then (p.(phase := EndLine, flag := false), [])
      else if IsPrintable(c) then (p.(phase := Token, flag := false, i := 0, token := [c], str := ""), [])
      else (p, [])
    case Token =>
      if c == '=' then (p.(phase := BeginQuote, flag := false, token := p.token + ['\0']), [])
      else if IsPrintable(c) then (p.(token := p.token + [c]), [])
      else (p.(phase := EndLine, flag := false), [])
    case BeginQuote =>
      if c == '"' then (p.(phase := StrValue, flag := false, base := 0), [])
      else if c == '0' then (p.(phase := BeginHex, flag := false), [])
      else if IsDigit(c, 10) then (p.(phase := NumValue, flag := false, base := 10, num := DigitValue(c, 10), i := 0), [])
      else if c == '{' then (p.(phase := NumValue, flag := true, base := 16, i := 0), [])
      else (p.(phase := EndLine, flag := false), [])
    case BeginHex =>
      if c == 'x' || c == 'X' then (p.(phase := NumValue, flag := false, base := 16, num := 0, i := 0), [])
      else if IsDigit(c, 10) then (p.(phase := NumValue, flag := false, base := 10, num := DigitValue(c, 10)), [])
      else if !IsNewline(c) then (p.(phase := EndLine, flag := false), [])
      else NumStep(p, c)
    case NumValue => NumStep(p, c)
    case StrValue =>
      if c == '"' then
        (p.(phase := EndLine, flag := false, str := p.str + ['\0']), [Param(CStr(p.token), p.str + ['\0'], 0)])
      else if IsPrintable(c) then (p.(str := p.str + [c]), [])
      else (p, [])
    case EndLine =>
      if IsNewline(c) then (p.(phase := BeginLine, flag := false), []) else (p, [])
  }

  // ---------------------------------------------------------------- whole files

  function After(p: Regs, s: string): Regs
    decreases |s|
  {
    if s == [] then p else After(Step(p, s[0]).0, s[1..])
  }

  function Adds(p: Regs, s: string): seq<Param>
    decreases |s|
  {
    if s == [] then [] else Step(p, s[0]).1 + Adds(Step(p, s[0]).0, s[1..])
  }

  /** The end of the file acts as one newline, unless a line has just begun. */
  function AtEof(p: Regs): seq<Param> {
    if p.phase == BeginLine then [] else Step(p, '\n').1
  }

  /** The parameters a file adds, in order. */
  function Parse(s: string): seq<Param> { Adds(INIT, s) + AtEof(After(INIT, s)) }

  lemma {:induction false} RunAppend(p: Regs, a: string, b: string)
    ensures After(p, a + b) == After(After(p, a), b)
    ensures Adds(p, a + b) == Adds(p, a) + Adds(After(p, a), b)
    decreases |a|
  {
    hide Step;
    if a == [] {
      assert a + b == b;
    } else {
      assert (a + b)[1..] == a[1..] + b;
      RunAppend(Step(p, a[0]).0, a[1..], b);
    }
  }

  lemma RunOne(p: Regs, c: char)
    ensures After(p, [c]) == Step(p, c).0 && Adds(p, [c]) == Step(p, c).1
  {
    hide Step;
    assert [c][1..] == [];
  }

  // ---------------------------------------------------------------- registers

  /** Outside a numeric value the number register is zero and the string flag clear. */
  predicate Inv(p: Regs) { p.phase == NumValue || (p.num == 0 && !p.flag) }

  lemma {:induction false} RegistersClear(p: Regs, s: string)
    requires Inv(p)
    ensures Inv(After(p, s))
    decreases |s|
  {
    if s != [] { RegistersClear(Step(p, s[0]).0, s[1..]); }
  }

  /** What a state can still show: everything else is a stale register. */
  predicate Same(p: Regs, q: Regs) {
    && p.phase == q.phase && p.num == q.num
    && (p.phase != BeginLine && p.phase != EndLine ==> p.token == q.token && p.str == q.str)
    && (p.phase == NumValue ==> p.base == q.base && (p.base == 16 ==> p.i == q.i))
  }

  lemma SameStep(p: Regs, q: Regs, c: char)
    requires Same(p, q)
    ensures Same(Step(p, c).0, Step(q, c).0) && Step(p, c).1 == Step(q, c).1
  {
    hide BigEndian, CStr, DigitValue, IsPrintable;
  }

  /** Neither a stale base, counter, token or string, nor the string flag, ever shows in the output. */
  lemma {:induction false} StaleRegistersInvisible(p: Regs, q: Regs, s: string)
    requires Same(p, q)
    ensures Same(After(p, s), After(q, s)) && Adds(p, s) == Adds(q, s)
    ensures AtEof(After(p, s)) == AtEof(After(q, s))
    decreases |s|
  {
    hide Step;
    if s == [] {
      SameStep(p, q, '\n');
    } else {
      SameStep(p, q, s[0]);
      StaleRegistersInvisible(Step(p, s[0]).0, Step(q, s[0]).0, s[1..]);
    }
  }

  // ---------------------------------------------------------------- lines

  /** After a prefix that ends at the beginning of a line, parsing starts afresh. */
  lemma FreshLine(a: string, b: string)
    requires After(INIT, a).phase == BeginLine
    ensures Parse(a + b) == Parse(a) + Parse(b)
  {
    hide Step;
    var p := After(INIT, a);
    RegistersClear(INIT, a);
    RunAppend(INIT, a, b);
    StaleRegistersInvisible(p, INIT, b);
  }

  const PROBE: string := "B=1\n"

  lemma ProbeUnrolled(p: Regs, p1: Regs, p2: Regs, p3: Regs)
    requires p1 == Step(p, 'B').0 && p2 == Step(p1, '=').0 && p3 == Step(p2, '1').0
    ensures After(p, PROBE) == Step(p3, '\n').0
    ensures Adds(p, PROBE) == Step(p, 'B').1 + Step(p1, '=').1 + Step(p2, '1').1 + Step(p3, '\n').1
  {
    hide Step;
    assert PROBE[1..] == "=1\n" && PROBE[1..][1..] == "1\n" && PROBE[1..][1..][1..] == "\n";
    RunOne(p3, '\n');
    assert Adds(p2, "1\n") == Step(p2, '1').1 + Adds(p3, "\n");
    assert Adds(p1, "=1\n") == Step(p1, '=').1 + Adds(p2, "1\n");
  }

  /** The output of the probe line and the end of the file. */
  function ProbeOutput(p: Regs): seq<Param> { Adds(p, PROBE) + AtEof(After(p, PROBE)) }

  lemma ProbeInEndLine(p: Regs)
    requires p.phase == EndLine
    ensures ProbeOutput(p) == []
  {
    ProbeUnrolled(p, p, p, p);
  }

  lemma ProbeInString(p: Regs)
    requires p.phase == StrValue
    ensures ProbeOutput(p) == []
  {
    var p1 := p.(str := p.str + ['B']);
    var p3 := p1.(str := p1.str + ['1']);
    ProbeUnrolled(p, p1, p1, p3);
  }

  lemma ProbeInValueStart(p: Regs)
    requires p.phase == BeginQuote || p.phase == BeginHex
    ensures ProbeOutput(p) == []
  {
    var p1 := p.(phase := EndLine, flag := false);
    ProbeUnrolled(p, p1, p1, p1);
  }

  lemma ProbeInNumber(p: Regs)
    requires p.phase == NumValue
    ensures |ProbeOutput(p)| == 1
  {
    var p1 := Step(p, 'B').0;
    var p2 := Step(p1, '=').0;
    assert p2.phase == EndLine;
    ProbeUnrolled(p, p1, p2, p2);
  }

  lemma ProbeInToken(p: Regs)
    requires p.phase == Token && p.num == 0
    ensures ProbeOutput(p) == [Finish(p.(token := p.token + ['B'] + ['\0'], str := p.str, num := 1))]
  {
    var p1 := p.(token := p.token + ['B']);
    var p2 := p1.(phase := BeginQuote, flag := false, token := p1.token + ['\0']);
    var p3 := p2.(phase := NumValue, base := 10, num := 1, i := 0);
    ProbeUnrolled(p, p1, p2, p3);
  }

  lemma ProbeAlone()
    ensures Parse(PROBE) == [Param("B", "", 1)]
  {
    var p1 := INIT.(phase := Token, token := "B");
    var p2 := p1.(phase := BeginQuote, token := ['B', '\0']);
    var p3 := p2.(phase := NumValue, base := 10, num := 1);
    assert ['B'] + ['\0'] == ['B', '\0'];
    ProbeUnrolled(INIT, p1, p2, p3);
    assert CStr(['B', '\0']) == "B" by { assert ['B', '\0'][1..] == ['\0']; }
  }

  lemma {:induction false} CStrNonempty(s: string, t: string)
    requires forall k :: 0 <= k < |s| ==> s[k] != '\0'
    ensures CStr(s + t) == s + CStr(t)
  {
    if s == [] {
      assert s + t == t;
    } else {
      assert (s + t)[1..] == s[1..] + t;
      CStrNonempty(s[1..], t);
    }
  }

  lemma {:induction false} TokenNames(p: Regs, s: string)
    requires p.phase == Token ==> p.token != [] && forall k :: 0 <= k < |p.token| ==> p.token[k] != '\0'
    ensures var q := After(p, s); q.phase == Token ==> q.token != [] && forall k :: 0 <= k < |q.token| ==> q.token[k] != '\0'
    decreases |s|
  {
    if s != [] { TokenNames(Step(p, s[0]).0, s[1..]); }
  }

  /** Files cannot in general be parsed line by line (an incomplete line swallows the next one).
      A prefix can be split off exactly when it leaves the parser at the beginning of a line. */
  lemma SplitsIffLineBegins(a: string)
    ensures (forall b :: Parse(a + b) == Parse(a) + Parse(b)) <==> After(INIT, a).phase == BeginLine
  {
    var p := After(INIT, a);
    if p.phase == BeginLine {
      forall b ensures Parse(a + b) == Parse(a) + Parse(b) { FreshLine(a, b); }
    } else {
      ProbeDiffers(a);
    }
  }

  lemma ProbeDiffers(a: string)
    requires After(INIT, a).phase != BeginLine
    ensures Parse(a + PROBE) != Parse(a) + Parse(PROBE)
  {
    hide Step, ProbeOutput, CStr, Finish;
    var p := After(INIT, a);
    ProbeAlone();
    ProbeAfter(a);
    match p.phase {
      case EndLine => ProbeInEndLine(p);
      case StrValue => ProbeInString(p);
      case BeginQuote | BeginHex => ProbeInValueStart(p);
      case NumValue => ProbeInNumber(p); NumberAtEof(p);
      case Token =>
        RegistersClear(INIT, a);
        TokenNames(INIT, a);
        ProbeLengthens(p);
        assert Parse(a + PROBE)[|Adds(INIT, a)|] == ProbeOutput(p)[0];
        TokenAtEof(p);
    }
  }

  /** An unfinished name swallows the probe's name. */
  lemma ProbeLengthens(p: Regs)
    requires p.phase == Token && p.num == 0 && p.token != [] && forall k :: 0 <= k < |p.token| ==> p.token[k] != '\0'
    ensures |ProbeOutput(p)| == 1 && |ProbeOutput(p)[0].name| > 1
  {
    hide Step, ProbeOutput, CStr;
    ProbeInToken(p);
    CStrNonempty(p.token, ['B', '\0']);
    CStrOfB();
    assert p.token + ['B'] + ['\0'] == p.token + ['B', '\0'];
  }

  lemma CStrOfB()
    ensures CStr(['B', '\0']) == "B"
  {
    assert ['B', '\0'][1..] == ['\0'];
  }

  lemma ProbeAfter(a: string)
    ensures Parse(a + PROBE) == Adds(INIT, a) + ProbeOutput(After(INIT, a))
  {
    hide After, Adds, AtEof, Parse;
    ParseAppend(a, PROBE);
  }

  lemma ParseAppend(a: string, b: string)
    ensures var p := After(INIT, a); Parse(a + b) == Adds(INIT, a) + (Adds(p, b) + AtEof(After(p, b)))
  {
    hide Step, AtEof;
    RunAppend(INIT, a, b);
  }

  lemma NumberAtEof(p: Regs)
    requires p.phase == NumValue
    ensures |AtEof(p)| == 1
  {}

  lemma TokenAtEof(p: Regs)
    requires p.phase == Token
    ensures AtEof(p) == []
  {}

  /** A missing newline at the end of the file makes no difference. */
  lemma EofIsNewline(s: string)
    ensures Parse(s + "\n") == Parse(s)
  {
    var p := After(INIT, s);
    RunAppend(INIT, s, "\n");
    RunOne(p, '\n');
  }
}
