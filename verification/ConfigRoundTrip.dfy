/** Printing assignments and reading them back; the two spellings of a hexadecimal number. */
module ConfigRoundTrip {
  import opened Basics
  import opened ConfigParser

  /** How a number is written; the letters of hexadecimal numbers come in both sizes. */
  datatype Style = Decimal | Hex(bigX: bool, capitals: bool)

  datatype Value = Number(n: nat, style: Style) | Text(s: string) | Octets(bytes: seq<Byte>, capitals: bool)

  datatype Assignment = Assignment(name: string, value: Value)

  /** Whether a text contains a quote. */
  predicate Quoted(s: string) { '"' in s }

  predicate Printable(s: string) { forall k :: 0 <= k < |s| ==> Allowed(s[k]) }

  /** A nonempty printable name; a number that fits the word, any text without a quote, or a nonempty byte list. */
  predicate WellFormed(a: Assignment) {
    && a.name != [] && Printable(a.name)
    && match a.value
       case Number(n, _) => n < ULONG
       case Text(s) => !Quoted(s)
       case Octets(bytes, _) => bytes != []
  }

  // ---------------------------------------------------------------- printing

  function DigitChar(d: nat, capitals: bool): char
    requires d < 16
  {
    if capitals then "0123456789ABCDEF"[d] else "0123456789abcdef"[d]
  }

  /** The digits of a number, most significant first, without leading zeros. */
  function Digits(n: nat, base: nat, capitals: bool): string
    requires base == 10 || base == 16
  {
    if n < base then [DigitChar(n, capitals)]
    else Digits(n / base, base, capitals) + [DigitChar(n % base, capitals)]
  }

  function OctetText(b: Byte, capitals: bool): string { [DigitChar(b / 16, capitals), DigitChar(b % 16, capitals)] }

  /** `hh:hh:...:hh` */
  function OctetsText(bytes: seq<Byte>, capitals: bool): string
    requires bytes != []
  {
    if |bytes| == 1 then OctetText(bytes[0], capitals)
    else OctetText(bytes[0], capitals) + ":" + OctetsText(bytes[1..], capitals)
  }

  function ValueText(v: Value): string
    requires v.Octets? ==> v.bytes != []
  {
    match v
    case Number(n, Decimal) => Digits(n, 10, true)
    case Number(n, Hex(bigX, capitals)) => (if bigX then "0X" else "0x") + Digits(n, 16, capitals)
    case Text(s) => "\"" + s + "\""
    case Octets(bytes, capitals) => "{" + (OctetsText(bytes, capitals) + "}")
  }

  function Line(a: Assignment): string
    requires WellFormed(a)
  {
    a.name + "=" + ValueText(a.value) + "\n"
  }

  function Print(l: seq<Assignment>): string
    requires forall a :: a in l ==> WellFormed(a)
  {
    if l == [] then [] else Line(l[0]) + Print(l[1..])
  }

  function Chars(bytes: seq<Byte>): string { if bytes == [] then [] else [bytes[0] as char] + Chars(bytes[1..]) }

  /** The printable characters of a text. */
  function Kept(s: string): string {
    if s == [] then [] else (if Allowed(s[0]) then [s[0]] else []) + Kept(s[1..])
  }

  /** The parameter an assignment stands for: quoted text loses what is not printable, and gains its
      trailing NUL. */
  function Meaning(a: Assignment): Param {
    match a.value
    case Number(n, _) => Param(a.name, "", n)
    case Text(s) => Param(a.name, Kept(s) + ['\0'], 0)
    case Octets(bytes, _) => Param(a.name, Chars(bytes), 0)
  }

  function Meanings(l: seq<Assignment>): seq<Param> {
    if l == [] then [] else [Meaning(l[0])] + Meanings(l[1..])
  }

  // ---------------------------------------------------------------- digits

  predicate DigitString(s: string, base: nat) { forall k :: 0 <= k < |s| ==> IsDigit(s[k], base) }

  function NextNumber(v: nat, base: nat, c: char): nat { v * base + DigitValue(c, base) }

  /** The value of a digit string that continues a number. */
  function Horner(v: nat, s: string, base: nat): nat {
    if s == [] then v else Horner(v, s[..|s| - 1], base) * base + DigitValue(s[|s| - 1], base)
  }

  lemma {:induction false} HornerFirst(v: nat, s: string, base: nat)
    requires s != []
    ensures Horner(v, s, base) == Horner(NextNumber(v, base, s[0]), s[1..], base)
  {
    var w := v * base + DigitValue(s[0], base);
    if |s| == 1 {
      assert s[..0] == [] && s[1..] == [];
    } else {
      assert s[..|s| - 1][1..] == s[1..][..|s[1..]| - 1];
      HornerFirst(v, s[..|s| - 1], base);
    }
  }

  /** Which characters are digits, and what they are worth. */
  predicate Hexit(c: char) { c in "0123456789" || c in "abcdef" || c in "ABCDEF" }

  predicate Delimits(c: char) { c in ":- }" }

  lemma DigitsAre(c: char)
    ensures IsDigit(c, 10) <==> c in "0123456789"
    ensures IsDigit(c, 16) <==> Hexit(c)
    ensures IsDelimiter(c) <==> Delimits(c)
  {}

  lemma DigitCharValue(d: nat, base: nat, capitals: bool)
    requires (base == 10 || base == 16) && d < base
    ensures IsDigit(DigitChar(d, capitals), base) && DigitValue(DigitChar(d, capitals), base) == d
    ensures base == 10 && d > 0 ==> DigitChar(d, capitals) != '0'
  {}

  lemma {:induction false} DigitsValue(n: nat, base: nat, capitals: bool)
    requires base == 10 || base == 16
    ensures var s := Digits(n, base, capitals); s != [] && DigitString(s, base) && Horner(0, s, base) == n
    ensures base == 10 && n > 0 ==> Digits(n, base, capitals)[0] != '0'
  {
    hide DigitChar, IsDigit, DigitValue;
    var s := Digits(n, base, capitals);
    if n < base {
      DigitCharValue(n, base, capitals);
      assert s[..0] == [];
    } else {
      DigitsValue(n / base, base, capitals);
      DigitCharValue(n % base, base, capitals);
      assert s[..|s| - 1] == Digits(n / base, base, capitals);
    }
  }

  lemma HornerEmpty(v: nat, base: nat)
    ensures Horner(v, [], base) == v
  {}

  lemma ModStep(h: nat, base: nat, d: nat)
    ensures (h % ULONG * base + d) % ULONG == (h * base + d) % ULONG
  {
    var q := h / ULONG;
    assert h * base + d == (h % ULONG * base + d) + q * base * ULONG;
    ModMultiple(h % ULONG * base + d, q * base);
  }

  lemma {:induction false} ModMultiple(x: nat, k: nat)
    ensures (x + k * ULONG) % ULONG == x % ULONG
  {
    if k > 0 {
      ModMultiple(x, k - 1);
      assert x + k * ULONG == (x + (k - 1) * ULONG) + ULONG;
    }
  }

  /** What a number register has lost by wrapping around it never gets back. */
  lemma {:induction false} HornerWraps(v: nat, s: string, base: nat)
    ensures Horner(v % ULONG, s, base) % ULONG == Horner(v, s, base) % ULONG
  {
    hide DigitValue;
    if s != [] {
      var t, d := s[..|s| - 1], DigitValue(s[|s| - 1], base);
      HornerWraps(v, t, base);
      ModStep(Horner(v % ULONG, t, base), base, d);
      ModStep(Horner(v, t, base), base, d);
    }
  }

  /** A digit string read in a numeric value: its number, modulo the word size. */
  lemma {:induction false} ReadDigits(p: Regs, s: string)
    requires p.phase == NumValue && (p.base == 10 || p.base == 16) && DigitString(s, p.base) && p.num < ULONG
    ensures After(p, s) == p.(num := Horner(p.num, s, p.base) % ULONG, i := p.i + |s|)
    ensures Adds(p, s) == []
    decreases |s|
  {
    hide Horner, DigitValue, IsDigit, BigEndian, CStr;
    HornerEmpty(p.num, p.base);
    if s != [] {
      HornerFirst(p.num, s, p.base);
      var q := p.(num := NextNumber(p.num, p.base, s[0]) % ULONG, i := p.i + 1);
      assert Step(p, s[0]) == (q, []);
      ReadDigits(q, s[1..]);
      HornerWraps(NextNumber(p.num, p.base, s[0]), s[1..], p.base);
    }
  }

  // ---------------------------------------------------------------- names and strings

  lemma TokenStep(p: Regs, c: char)
    requires p.phase == Token && Allowed(c)
    ensures Step(p, c) == (p.(token := p.token + [c]), [])
  {
    hide Allowed;
    PrintableIff(c);
  }

  lemma {:induction false} ReadToken(p: Regs, s: string)
    requires p.phase == Token && Printable(s)
    ensures After(p, s) == p.(token := p.token + s) && Adds(p, s) == []
    decreases |s|
  {
    hide Step, Allowed;
    if s == [] {
      assert p.token + s == p.token;
    } else {
      TokenStep(p, s[0]);
      assert p.token + s == p.token + [s[0]] + s[1..];
      ReadToken(p.(token := p.token + [s[0]]), s[1..]);
    }
  }

  lemma StringStep(p: Regs, c: char)
    requires p.phase == StrValue && c != '"'
    ensures Step(p, c) == (p.(str := p.str + if Allowed(c) then [c] else []), [])
  {
    hide Allowed;
    PrintableIff(c);
    assert p.str + [] == p.str;
  }

  /** Inside quotes exactly the allowed characters are kept. */
  lemma {:induction false} ReadString(p: Regs, s: string)
    requires p.phase == StrValue && !Quoted(s)
    ensures After(p, s) == p.(str := p.str + Kept(s)) && Adds(p, s) == []
    decreases |s|
  {
    hide Step, Allowed, Quoted, Kept;
    if s == [] {
      assert p.str + Kept(s) == p.str by { KeptParts(s); }
    } else {
      NotQuoted(s);
      StringStep(p, s[0]);
      KeptParts(s);
      var k := if Allowed(s[0]) then [s[0]] else [];
      assert (p.str + k) + Kept(s[1..]) == p.str + (k + Kept(s[1..]));
      ReadString(p.(str := p.str + k), s[1..]);
    }
  }

  lemma KeptParts(s: string)
    ensures Kept(s) == if s == [] then [] else (if Allowed(s[0]) then [s[0]] else []) + Kept(s[1..])
  {
    hide Allowed;
  }

  lemma NotQuoted(s: string)
    requires s != [] && !Quoted(s)
    ensures s[0] != '"' && !Quoted(s[1..])
  {}

  /** The registers once `NAME=` has been read at the beginning of a line. */
  function Named(p: Regs, name: string): Regs {
    p.(phase := BeginQuote, flag := false, i := 0, token := name + ['\0'], str := "")
  }

  lemma ReadName(p: Regs, name: string)
    requires p.phase == BeginLine && name != [] && Printable(name)
    ensures After(p, name + "=") == Named(p, name) && Adds(p, name + "=") == []
    ensures CStr(name + ['\0']) == name
  {
    hide Allowed;
    var q := p.(phase := Token, flag := false, i := 0, token := [name[0]], str := "");
    PrintableIff(name[0]);
    NoNul(name);
    assert Step(p, name[0]) == (q, []);
    ReadToken(q, name[1..]);
    assert [name[0]] + name[1..] == name;
    RunAppend(p, name, "=");
    RunOne(After(p, name), '=');
    CStrNonempty(name, ['\0']);
  }

  lemma NoNul(name: string)
    requires Printable(name)
    ensures forall k :: 0 <= k < |name| ==> name[k] != '\0' && name[k] != '#'
  {
    hide Allowed;
    forall k | 0 <= k < |name| ensures name[k] != '\0' && name[k] != '#' { PrintableIff(name[k]); }
  }

  // ---------------------------------------------------------------- byte lists

  lemma OctetFlush(b: Byte)
    ensures BigEndian(b, 1) == [b as char]
  {
    assert Pow256(0) == 1;
    assert BigEndian(b, 0) == [];
  }

  lemma OctetValue(b: Byte, capitals: bool)
    ensures DigitString(OctetText(b, capitals), 16) && Horner(0, OctetText(b, capitals), 16) == b
  {
    DigitCharValue(b / 16, 16, capitals);
    DigitCharValue(b % 16, 16, capitals);
    HornerFirst(0, OctetText(b, capitals), 16);
    HornerFirst(b / 16, OctetText(b, capitals)[1..], 16);
    assert OctetText(b, capitals)[1..][1..] == [];
  }

  lemma ReadOctet(p: Regs, b: Byte, capitals: bool, c: char)
    requires p.phase == NumValue && p.flag && p.base == 16 && p.num == 0 && p.i == 0 && (c == ':' || c == '}')
    ensures After(p, OctetText(b, capitals) + [c]) == p.(str := p.str + [b as char]) && Adds(p, OctetText(b, capitals) + [c]) == []
  {
    hide OctetText, Horner, After, Adds, Step;
    OctetValue(b, capitals);
    OctetLength(b, capitals);
    ReadDigits(p, OctetText(b, capitals));
    RunAppend(p, OctetText(b, capitals), [c]);
    var q := p.(num := b, i := 2);
    RunOne(q, c);
    StoreOctet(q, b, c);
  }

  lemma StoreOctet(q: Regs, b: Byte, c: char)
    requires q.phase == NumValue && q.flag && q.base == 16 && q.num == b && q.i == 2 && IsDelimiter(c)
    ensures Step(q, c) == (q.(num := 0, i := 0, str := q.str + [b as char]), [])
  {
    hide CStr, AppendDigit, DigitValue;
    OctetFlush(b);
  }

  /** The registers after a list that no delimiter has closed yet: its last byte is still a number. */
  function Pending(p: Regs, bytes: seq<Byte>): Regs
    requires bytes != []
  {
    p.(str := p.str + Chars(bytes[..|bytes| - 1]), num := bytes[|bytes| - 1], i := 2)
  }

  lemma {:induction false} ReadOctets(p: Regs, bytes: seq<Byte>, capitals: bool)
    requires p.phase == NumValue && p.flag && p.base == 16 && p.num == 0 && p.i == 0 && bytes != []
    ensures After(p, OctetsText(bytes, capitals)) == Pending(p, bytes) && Adds(p, OctetsText(bytes, capitals)) == []
    decreases |bytes|
  {
    hide Step, OctetText, After, Adds;
    var q := p.(str := p.str + [bytes[0] as char]);
    if |bytes| == 1 {
      OctetValue(bytes[0], capitals);
      ReadDigits(p, OctetText(bytes[0], capitals));
      assert |OctetText(bytes[0], capitals)| == 2 by { OctetLength(bytes[0], capitals); }
      assert bytes[..0] == [] && p.str + [] == p.str;
    } else {
      ReadOctet(p, bytes[0], capitals, ':');
      ReadOctets(q, bytes[1..], capitals);
      assert OctetsText(bytes, capitals) == (OctetText(bytes[0], capitals) + ":") + OctetsText(bytes[1..], capitals);
      RunAppend(p, OctetText(bytes[0], capitals) + ":", OctetsText(bytes[1..], capitals));
      assert bytes[..|bytes| - 1] == [bytes[0]] + bytes[1..][..|bytes| - 2];
      assert q.str + Chars(bytes[1..][..|bytes| - 2]) == p.str + Chars(bytes[..|bytes| - 1]);
    }
  }

  lemma OctetLength(b: Byte, capitals: bool)
    ensures |OctetText(b, capitals)| == 2
  {}

  lemma {:induction false} CharsLast(bytes: seq<Byte>)
    ensures |Chars(bytes)| == |bytes|
    ensures bytes != [] ==> Chars(bytes) == Chars(bytes[..|bytes| - 1]) + [bytes[|bytes| - 1] as char]
  {
    if |bytes| == 1 {
      assert bytes[..0] == [];
    } else if bytes != [] {
      CharsLast(bytes[1..]);
      assert bytes[..|bytes| - 1] == [bytes[0]] + bytes[1..][..|bytes| - 2];
    }
  }

  /** A delimiter stores the pending byte. */
  lemma CloseList(p: Regs, bytes: seq<Byte>, c: char)
    requires p.phase == NumValue && p.flag && p.base == 16 && p.num == 0 && p.i == 0 && bytes != [] && IsDelimiter(c)
    ensures Step(Pending(p, bytes), c) == (p.(str := p.str + Chars(bytes)), [])
  {
    OctetFlush(bytes[|bytes| - 1]);
    CharsLast(bytes);
    assert p.str + Chars(bytes[..|bytes| - 1]) + [bytes[|bytes| - 1] as char] == p.str + Chars(bytes);
  }

  // ---------------------------------------------------------------- values and lines

  predicate DecimalNumeral(d: string) { d != [] && DigitString(d, 10) }

  predicate HexNumeral(h: string) { h != [] && DigitString(h, 16) }

  /** The registers after a decimal numeral; a lone zero could still become a hexadecimal one. */
  predicate AfterDecimal(p: Regs, d: string, q: Regs) {
    && q.num == Horner(0, d, 10) % ULONG && q.token == p.token && q.str == p.str
    && if d == "0" then q.phase == BeginHex else q.phase == NumValue && q.base == 10
  }

  lemma DecimalDigits(p: Regs, d: string)
    requires p.phase == BeginQuote && p.num == 0 && DecimalNumeral(d)
    ensures AfterDecimal(p, d, After(p, d)) && Adds(p, d) == []
  {
    hide Horner, DigitValue;
    HornerFirst(0, d, 10);
    DigitBelow(d[0]);
    HornerEmpty(0, 10);
    RunOne(p, d[0]);
    assert d == [d[0]] + d[1..];
    RunAppend(p, [d[0]], d[1..]);
    if d[0] != '0' {
      var q := p.(phase := NumValue, flag := false, base := 10, num := DigitValue(d[0], 10), i := 0);
      assert Step(p, d[0]) == (q, []);
      ReadDigits(q, d[1..]);
    } else if |d| > 1 {
      var q := p.(phase := BeginHex, flag := false);
      var e := d[1..];
      HornerFirst(0, e, 10);
      DigitBelow(e[0]);
      assert e == [e[0]] + e[1..];
      RunOne(q, e[0]);
      RunAppend(q, [e[0]], e[1..]);
      var r := q.(phase := NumValue, flag := false, base := 10, num := DigitValue(e[0], 10));
      assert IsDigit(e[0], 10) && Step(q, e[0]) == (r, []);
      ReadDigits(r, e[1..]);
    } else {
      assert d == "0" && d[1..] == [];
    }
  }

  lemma DigitBelow(c: char)
    requires IsDigit(c, 10)
    ensures DigitValue(c, 10) < 10 && (DigitValue(c, 10) == 0 <==> c == '0')
  {}

  lemma HexDigits(p: Regs, bigX: bool, h: string)
    requires p.phase == BeginQuote && p.num == 0 && HexNumeral(h)
    ensures var s := (if bigX then "0X" else "0x") + h;
            && After(p, s) == p.(phase := NumValue, flag := false, base := 16, num := Horner(0, h, 16) % ULONG, i := |h|)
            && Adds(p, s) == []
  {
    hide Horner;
    var x := if bigX then "0X" else "0x";
    RunAppend(p, x, h);
    TwoMore(p, '0', x[1]);
    assert x == ['0', x[1]];
    ReadDigits(p.(phase := NumValue, flag := false, base := 16, i := 0), h);
  }

  /** A newline ends a number, and also a lone zero. */
  lemma NewlineEnds(r: Regs, c: char)
    requires (r.phase == NumValue || r.phase == BeginHex) && IsNewline(c)
    ensures Step(r, c).1 == [Finish(r)] && Step(r, c).0.phase == BeginLine
  {
    hide BigEndian, DigitValue, AppendDigit;
  }

  lemma FinishNumber(r: Regs)
    requires r.str == ""
    ensures Finish(r) == Param(CStr(r.token), "", r.num)
  {}

  lemma NumberValue(p: Regs, n: nat, style: Style)
    requires p.phase == BeginQuote && p.num == 0 && p.str == "" && n < ULONG
    ensures var s := ValueText(Number(n, style)) + "\n";
            After(p, s).phase == BeginLine && Adds(p, s) == [Param(CStr(p.token), "", n)]
  {
    hide Step, After, Adds, Digits, CStr, Horner, DigitString, Finish;
    var s := ValueText(Number(n, style));
    RunAppend(p, s, "\n");
    RunOne(After(p, s), '\n');
    match style {
      case Decimal =>
        DigitsValue(n, 10, true);
        DecimalDigits(p, Digits(n, 10, true));
      case Hex(bigX, capitals) =>
        DigitsValue(n, 16, capitals);
        HexDigits(p, bigX, Digits(n, 16, capitals));
    }
    NewlineEnds(After(p, s), '\n');
    FinishNumber(After(p, s));
  }

  lemma TextValue(p: Regs, t: string)
    requires p.phase == BeginQuote && p.str == "" && !Quoted(t)
    ensures var s := ValueText(Text(t)) + "\n";
            After(p, s).phase == BeginLine && Adds(p, s) == [Param(CStr(p.token), Kept(t) + ['\0'], 0)]
  {
    hide Allowed, Step, Kept, CStr;
    QuotedText(p, t, "\n");
    assert ValueText(Text(t)) + "\n" == "\"" + (t + ("\"" + "\n"));
    var r := p.(phase := EndLine, flag := false, base := 0, str := Kept(t) + ['\0']);
    RunOne(r, '\n');
    BlankAfter(r);
  }

  /** A quoted text, before whatever follows. */
  lemma QuotedText(p: Regs, t: string, tail: string)
    requires p.phase == BeginQuote && p.str == "" && !Quoted(t)
    ensures var s := "\"" + (t + ("\"" + tail));
            var r := p.(phase := EndLine, flag := false, base := 0, str := Kept(t) + ['\0']);
            After(p, s) == After(r, tail) && Adds(p, s) == [Param(CStr(p.token), Kept(t) + ['\0'], 0)] + Adds(r, tail)
  {
    hide Allowed, Kept, CStr, IsPrintable;
    var q := p.(phase := StrValue, flag := false, base := 0);
    RunAppend(p, "\"", t + ("\"" + tail));
    RunOne(p, '"');
    RunAppend(q, t, "\"" + tail);
    ReadString(q, t);
    var r := q.(str := Kept(t));
    assert "" + Kept(t) == Kept(t);
    RunAppend(r, "\"", tail);
    RunOne(r, '"');
  }

  lemma OctetsValue(p: Regs, bytes: seq<Byte>, capitals: bool)
    requires p.phase == BeginQuote && p.num == 0 && p.str == "" && bytes != []
    ensures var s := ValueText(Octets(bytes, capitals)) + "\n";
            After(p, s).phase == BeginLine && Adds(p, s) == [Param(CStr(p.token), Chars(bytes), 0)]
  {
    hide Step, OctetsText;
    OpenList(p, bytes, capitals, "}\n");
    var q := p.(phase := NumValue, flag := true, base := 16, i := 0);
    assert ValueText(Octets(bytes, capitals)) + "\n" == "{" + (OctetsText(bytes, capitals) + "}\n");
    TwoMore(Pending(q, bytes), '}', '\n');
    CloseList(q, bytes, '}');
    CharsLast(bytes);
    assert "" + Chars(bytes) == Chars(bytes);
    NumberEnds(q.(str := Chars(bytes)), '\n');
  }

  lemma TwoMore(p: Regs, c: char, d: char)
    ensures After(p, [c, d]) == Step(Step(p, c).0, d).0
    ensures Adds(p, [c, d]) == Step(p, c).1 + Step(Step(p, c).0, d).1
  {
    hide Step;
    assert [c, d][1..] == [d];
    RunOne(Step(p, c).0, d);
  }

  /** An opening brace and a list, before whatever follows. */
  lemma OpenList(p: Regs, bytes: seq<Byte>, capitals: bool, tail: string)
    requires p.phase == BeginQuote && p.num == 0 && p.str == "" && bytes != []
    ensures var r := Pending(p.(phase := NumValue, flag := true, base := 16, i := 0), bytes);
            var s := "{" + (OctetsText(bytes, capitals) + tail);
            After(p, s) == After(r, tail) && Adds(p, s) == Adds(r, tail)
  {
    hide OctetsText;
    var q := p.(phase := NumValue, flag := true, base := 16, i := 0);
    RunAppend(p, "{", OctetsText(bytes, capitals) + tail);
    RunOne(p, '{');
    RunAppend(q, OctetsText(bytes, capitals), tail);
    ReadOctets(q, bytes, capitals);
  }

  /** Anything but a digit or a delimiter ends a numeric value. */
  lemma NumberEnds(r: Regs, c: char)
    requires r.phase == NumValue && !IsDigit(c, r.base) && (r.base == 16 ==> !IsDelimiter(c))
    ensures Step(r, c).1 == [Finish(r)]
    ensures Step(r, c).0.phase == if IsNewline(c) then BeginLine else EndLine
  {}

  lemma LineParses(a: Assignment)
    requires WellFormed(a)
    ensures After(INIT, Line(a)).phase == BeginLine && Parse(Line(a)) == [Meaning(a)]
  {
    hide Allowed, Step;
    ReadName(INIT, a.name);
    var p := Named(INIT, a.name);
    assert Line(a) == (a.name + "=") + (ValueText(a.value) + "\n");
    RunAppend(INIT, a.name + "=", ValueText(a.value) + "\n");
    match a.value {
      case Number(n, hex) => NumberValue(p, n, hex);
      case Text(s) => TextValue(p, s);
      case Octets(bytes, capitals) => OctetsValue(p, bytes, capitals);
    }
  }

  /** Printing any list of assignments and parsing the text gives back exactly that list, in order. */
  lemma {:induction false} RoundTrip(l: seq<Assignment>)
    requires forall a :: a in l ==> WellFormed(a)
    ensures Parse(Print(l)) == Meanings(l)
  {
    hide Step, Line;
    if l != [] {
      LineParses(l[0]);
      RoundTrip(l[1..]);
      FreshLine(Line(l[0]), Print(l[1..]));
    }
  }

  // ---------------------------------------------------------------- lists that are not closed

  function OpenLine(name: string, bytes: seq<Byte>, capitals: bool, tail: string): string
    requires bytes != []
  {
    (name + "=") + ("{" + (OctetsText(bytes, capitals) + tail))
  }

  lemma OpenLineParses(name: string, bytes: seq<Byte>, capitals: bool, tail: string)
    requires name != [] && Printable(name) && bytes != []
    ensures var r := Pending(Named(INIT, name).(phase := NumValue, flag := true, base := 16), bytes);
            && Parse(OpenLine(name, bytes, capitals, tail)) == Adds(r, tail) + AtEof(After(r, tail))
            && After(INIT, OpenLine(name, bytes, capitals, tail)) == After(r, tail)
            && CStr(r.token) == name && r.str == Chars(bytes[..|bytes| - 1])
  {
    hide Allowed, Step, OctetsText;
    var p := Named(INIT, name);
    ReadName(INIT, name);
    RunAppend(INIT, name + "=", "{" + (OctetsText(bytes, capitals) + tail));
    OpenList(p, bytes, capitals, tail);
    assert "" + Chars(bytes[..|bytes| - 1]) == Chars(bytes[..|bytes| - 1]);
  }

  /** A list cut off by the end of the line loses its last byte; a list of one byte becomes a number. */
  function CutOff(name: string, bytes: seq<Byte>): Param
    requires bytes != []
  {
    if |bytes| == 1 then Param(name, "", bytes[0]) else Param(name, Chars(bytes[..|bytes| - 1]), 0)
  }

  /** What an unclosed list becomes, for every name and every list of bytes. */
  lemma UnclosedListParses(name: string, bytes: seq<Byte>, capitals: bool)
    requires name != [] && Printable(name) && bytes != []
    ensures Parse(OpenLine(name, bytes, capitals, "\n")) == [CutOff(name, bytes)]
    ensures After(INIT, OpenLine(name, bytes, capitals, "\n")).phase == BeginLine
  {
    hide Allowed, Step, OpenLine;
    var r := Pending(Named(INIT, name).(phase := NumValue, flag := true, base := 16), bytes);
    OpenLineParses(name, bytes, capitals, "\n");
    CharsLast(bytes[..|bytes| - 1]);
    RunOne(r, '\n');
    NumberEnds(r, '\n');
  }

  /** Whatever character follows the last byte, the list survives if and only if it is a delimiter. */
  lemma ListSurvivesIffDelimited(name: string, bytes: seq<Byte>, capitals: bool, c: char)
    requires name != [] && Printable(name) && bytes != []
    ensures Parse(OpenLine(name, bytes, capitals, [c, '\n'])) == [Param(name, Chars(bytes), 0)] <==> Delimits(c)
    ensures !Delimits(c) && !Hexit(c) ==> Parse(OpenLine(name, bytes, capitals, [c, '\n'])) == [CutOff(name, bytes)]
  {
    hide Hexit, Delimits, IsDelimiter, IsDigit, Allowed, Step, OpenLine, DigitValue, AppendDigit;
    var q := Named(INIT, name).(phase := NumValue, flag := true, base := 16);
    var r := Pending(q, bytes);
    OpenLineParses(name, bytes, capitals, [c, '\n']);
    DigitsAre(c);
    TwoMore(r, c, '\n');
    CharsLast(bytes);
    CharsLast(bytes[..|bytes| - 1]);
    if IsDelimiter(c) {
      CloseList(q, bytes, c);
      assert "" + Chars(bytes) == Chars(bytes);
      NewlineEnds(q.(str := Chars(bytes)), '\n');
    } else if IsDigit(c, 16) {
      DigitContinues(r, c);
      NewlineEnds(Step(r, c).0, '\n');
      assert Parse(OpenLine(name, bytes, capitals, [c, '\n']))[0].str == r.str;
    } else {
      NumberEnds(r, c);
      BlankAfter(Step(r, c).0);
      assert |CutOff(name, bytes).str| == |bytes| - 1;
      assert Parse(OpenLine(name, bytes, capitals, [c, '\n']))[0] == CutOff(name, bytes);
    }
  }

  lemma DigitContinues(r: Regs, c: char)
    requires r.phase == NumValue && r.base == 16 && IsDigit(c, 16)
    ensures var q := Step(r, c).0; q.phase == NumValue && q.base == 16 && q.str == r.str && q.token == r.token
    ensures Step(r, c).1 == []
  {}

  lemma BlankAfter(r: Regs)
    requires r.phase == BeginLine || r.phase == EndLine
    ensures Step(r, '\n').1 == [] && Step(r, '\n').0.phase == BeginLine
  {}

  // ---------------------------------------------------------------- reading a number back

  function Fold(v: nat, s: string): nat
    decreases |s|
  {
    if s == [] then v else Fold((v * 256 + s[0] as int) % ULONG, s[1..])
  }

  /** The number `GetNumValue` makes of a parameter: short byte strings count as big-endian numbers. */
  function NumOf(p: Param): nat {
    if p.num == 0 && 0 < |p.str| < 4 then Fold(0, p.str) else p.num
  }

  function HexLine(name: string, h: string, tail: string): string { (name + "=") + (("0x" + h) + tail) }

  lemma HexLineParses(name: string, h: string, tail: string)
    requires name != [] && Printable(name) && HexNumeral(h)
    ensures var r := Named(INIT, name).(phase := NumValue, base := 16, num := Horner(0, h, 16) % ULONG, i := |h|);
            && Parse(HexLine(name, h, tail)) == Adds(r, tail) + AtEof(After(r, tail))
            && CStr(r.token) == name
  {
    hide Horner, Allowed, Step;
    var p := Named(INIT, name);
    ReadName(INIT, name);
    RunAppend(INIT, name + "=", ("0x" + h) + tail);
    HexDigits(p, false, h);
    RunAppend(p, "0x" + h, tail);
  }

  lemma HexNumber(name: string, h: string)
    requires name != [] && Printable(name) && HexNumeral(h)
    ensures Parse(HexLine(name, h, "\n")) == [Param(name, "", Horner(0, h, 16) % ULONG)]
  {
    hide Allowed;
    HexLineParses(name, h, "\n");
    RunOne(Named(INIT, name).(phase := NumValue, base := 16, num := Horner(0, h, 16) % ULONG, i := |h|), '\n');
  }

  /** A space after the digits turns them into bytes. */
  lemma SpacedTail(r: Regs)
    requires r.phase == NumValue && r.base == 16 && r.i > 0 && r.str == ""
    ensures Adds(r, " \n") + AtEof(After(r, " \n")) == [Param(CStr(r.token), BigEndian(r.num, (r.i + 1) / 2), 0)]
  {
    hide BigEndian, CStr;
    var bytes := BigEndian(r.num, (r.i + 1) / 2);
    var e := r.(str := bytes, flag := true, num := 0, i := 0);
    assert "" + bytes == bytes;
    assert Step(r, ' ') == (e, []);
    BigEndianLength(r.num, (r.i + 1) / 2);
    assert " \n"[1..] == "\n";
    RunOne(e, '\n');
  }

  lemma HexBytes(name: string, h: string)
    requires name != [] && Printable(name) && HexNumeral(h)
    ensures Parse(HexLine(name, h, " \n")) == [Param(name, BigEndian(Horner(0, h, 16) % ULONG, (|h| + 1) / 2), 0)]
  {
    hide Allowed, Horner, BigEndian, CStr, Adds, After, AtEof, Parse;
    var r := Named(INIT, name).(phase := NumValue, base := 16, num := Horner(0, h, 16) % ULONG, i := |h|);
    HexLineParses(name, h, " \n");
    SpacedTail(r);
  }

  lemma {:induction false} BigEndianLength(v: nat, n: nat)
    ensures |BigEndian(v, n)| == n
  {
    if n > 0 { BigEndianLength(v, n - 1); }
  }

  lemma {:induction false} HexBound(h: string)
    requires DigitString(h, 16) && |h| <= 6
    ensures Horner(0, h, 16) < Pow256((|h| + 1) / 2)
  {
    assert Pow256(1) == 256 && Pow256(2) == 65536 && Pow256(3) == 16777216;
    HexPower(h);
    assert Pow16(1) == 16 && Pow16(2) == 256 && Pow16(3) == 4096 && Pow16(4) == 65536 && Pow16(5) == 1048576 && Pow16(6) == 16777216;
  }

  function Pow16(n: nat): nat { if n == 0 then 1 else 16 * Pow16(n - 1) }

  lemma {:induction false} HexPower(h: string)
    requires DigitString(h, 16)
    ensures Horner(0, h, 16) < Pow16(|h|)
  {
    if h != [] {
      HexPower(h[..|h| - 1]);
      assert IsDigit(h[|h| - 1], 16);
    }
  }

  lemma FoldStep(v: nat, c: char, s: string)
    requires v * 256 + c as int < ULONG
    ensures Fold(v, [c] + s) == Fold(v * 256 + c as int, s)
  {
    assert ([c] + s)[1..] == s;
  }

  lemma BigEndianUnrolled(v: nat)
    ensures BigEndian(v, 0) == []
    ensures BigEndian(v, 1) == [(v % 256) as char] + BigEndian(v, 0)
    ensures BigEndian(v, 2) == [(v / 256 % 256) as char] + BigEndian(v, 1)
    ensures BigEndian(v, 3) == [(v / 65536 % 256) as char] + BigEndian(v, 2)
  {
    assert Pow256(0) == 1 && Pow256(1) == 256 && Pow256(2) == 65536;
  }

  /** The fold undoes the byte split. */
  lemma FoldBigEndian(v: nat, n: nat)
    requires 1 <= n <= 3 && v < Pow256(n)
    ensures Fold(0, BigEndian(v, n)) == v
  {
    hide BigEndian, Fold;
    assert Pow256(1) == 256 && Pow256(2) == 65536 && Pow256(3) == 16777216;
    var a, b, c := v / 65536 % 256, v / 256 % 256, v % 256;
    BigEndianUnrolled(v);
    FoldEmpty(v);
    if n == 3 { FoldStep(0, a as char, BigEndian(v, 2)); }
    var hi := if n == 3 then a else 0;
    if n >= 2 { FoldStep(hi, b as char, BigEndian(v, 1)); }
    var mid := if n >= 2 then hi * 256 + b else 0;
    FoldStep(mid, c as char, []);
  }

  lemma FoldEmpty(v: nat)
    ensures Fold(v, []) == v
  {}

  /** A space after a hexadecimal number turns it into bytes. Read back as a number it is the same
      exactly when it has at most six digits or is zero. */
  lemma TrailingSpaceHarmlessIff(name: string, h: string)
    requires name != [] && Printable(name) && h != [] && DigitString(h, 16) && |h| <= 16
    ensures var plain, spaced := Parse(HexLine(name, h, "\n")), Parse(HexLine(name, h, " \n"));
            && |plain| == |spaced| == 1
            && (NumOf(spaced[0]) == NumOf(plain[0]) <==> |h| <= 6 || Horner(0, h, 16) == 0)
  {
    hide Allowed;
    hide Horner, Parse, BigEndian, HexLine, Fold, DigitString;
    var v, n := Horner(0, h, 16), (|h| + 1) / 2;
    SmallNumber(h);
    HexNumber(name, h);
    HexBytes(name, h);
    BigEndianLength(v, n);
    if |h| <= 6 {
      HexBound(h);
      FoldBigEndian(v, n);
    }
  }

  lemma SmallNumber(h: string)
    requires DigitString(h, 16) && |h| <= 16
    ensures Horner(0, h, 16) % ULONG == Horner(0, h, 16)
  {
    hide Horner, DigitString;
    HexPower(h);
    Pow16Mono(|h|, 16);
    assert Pow16(8) == 0x1_0000_0000 && Pow16(16) == ULONG;
  }

  lemma {:induction false} Pow16Mono(a: nat, b: nat)
    requires a <= b
    ensures Pow16(a) <= Pow16(b)
  {
    if a < b { Pow16Mono(a, b - 1); }
  }
}
