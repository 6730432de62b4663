/** The parameter store: a list kept sorted while a file is read, moved to and from a vector,
    and searched with an early exit. */
module ConfigStore {
  import opened Basics
  import opened ConfigParser
  import opened ConfigRoundTrip

  // ---------------------------------------------------------------- names in order

  /** Lexicographic order of names. */
  predicate Less(a: string, b: string) {
    b != [] && (a == [] || a[0] < b[0] || (a[0] == b[0] && Less(a[1..], b[1..])))
  }

  lemma {:induction false} LessTransitive(a: string, b: string, c: string)
    requires !Less(b, a) && !Less(c, b)
    ensures !Less(c, a)
  {
    if a != [] && b != [] && c != [] && a[0] == b[0] == c[0] { LessTransitive(a[1..], b[1..], c[1..]); }
  }

  lemma {:induction false} LessTotal(a: string, b: string)
    ensures a == b <==> !Less(a, b) && !Less(b, a)
    ensures !(Less(a, b) && Less(b, a))
  {
    if a != [] && b != [] && a[0] == b[0] {
      LessTotal(a[1..], b[1..]);
      assert a == [a[0]] + a[1..] && b == [b[0]] + b[1..];
    }
  }

  /** The names agree up to `n`, where the first one ends or has the smaller character. */
  predicate LessAt(a: string, b: string, n: nat) {
    n <= |a| && n < |b| && a[..n] == b[..n] && (n == |a| || a[n] < b[n])
  }

  lemma LessAtNext(a: string, b: string, n: nat)
    requires a != [] && b != []
    ensures LessAt(a, b, n + 1) <==> a[0] == b[0] && LessAt(a[1..], b[1..], n)
  {
    if n < |a| && n + 1 < |b| {
      assert a[..n + 1] == [a[0]] + a[1..][..n] && b[..n + 1] == [b[0]] + b[1..][..n];
    }
  }

  /** The order of names: at the first difference the smaller character comes first, and a name
      comes before its continuations. */
  lemma {:induction false} LessIff(a: string, b: string)
    ensures Less(a, b) <==> exists n: nat :: LessAt(a, b, n)
  {
    hide LessAt;
    LessAtFirst(a, b);
    if a != [] && b != [] {
      LessIff(a[1..], b[1..]);
      forall n: nat ensures LessAt(a, b, n + 1) <==> a[0] == b[0] && LessAt(a[1..], b[1..], n) { LessAtNext(a, b, n); }
      if Less(a[1..], b[1..]) && a[0] == b[0] {
        var n: nat :| LessAt(a[1..], b[1..], n);
        assert LessAt(a, b, n + 1);
      }
      if n: nat :| LessAt(a, b, n) {
        if n > 0 {
          LessAtNext(a, b, n - 1);
          assert LessAt(a[1..], b[1..], n - 1);
        }
      }
    }
  }

  lemma LessAtFirst(a: string, b: string)
    ensures LessAt(a, b, 0) <==> b != [] && (a == [] || a[0] < b[0])
    ensures a == [] || b == [] ==> forall n: nat :: LessAt(a, b, n) ==> n == 0
  {}

  predicate Sorted(l: seq<Param>) {
    forall i, j :: 0 <= i < j < |l| ==> !Less(l[j].name, l[i].name)
  }

  // ---------------------------------------------------------------- the store as a function

  /** Before the first entry that is not less: the newest of equal names comes first. */
  function Insert(l: seq<Param>, p: Param): seq<Param> {
    if l == [] || !Less(l[0].name, p.name) then [p] + l else [l[0]] + Insert(l[1..], p)
  }

  function InsertAll(l: seq<Param>, ps: seq<Param>): seq<Param> {
    if ps == [] then l else Insert(InsertAll(l, ps[..|ps| - 1]), ps[|ps| - 1])
  }

  function FirstNamed(l: seq<Param>, name: string): Option<Param> {
    if l == [] then None else if l[0].name == name then Some(l[0]) else FirstNamed(l[1..], name)
  }

  /** The meaning of the store: the most recent assignment of a name. */
  function LastNamed(ps: seq<Param>, name: string): Option<Param> {
    if ps == [] then None
    else if ps[|ps| - 1].name == name then Some(ps[|ps| - 1])
    else LastNamed(ps[..|ps| - 1], name)
  }

  /** Reading a file (absent when it cannot be opened), or cleaning the store. */
  datatype Op = ReadFile(file: Option<string>, reset: bool) | Clean

  /** All assignments since the last reset, in the order they were read. */
  function Assignments(ops: seq<Op>): seq<Param> {
    if ops == [] then []
    else
      var before := Assignments(ops[..|ops| - 1]);
      match ops[|ops| - 1]
      case Clean => []
      case ReadFile(None, _) => before
      case ReadFile(Some(s), reset) => (if reset then [] else before) + Parse(s)
  }

  function StoreAfter(v: seq<Param>, op: Op): seq<Param> {
    match op
    case Clean => []
    case ReadFile(None, _) => v
    case ReadFile(Some(s), reset) => InsertAll(if reset then [] else v, Parse(s))
  }

  function Stored(ops: seq<Op>): seq<Param> {
    if ops == [] then [] else StoreAfter(Stored(ops[..|ops| - 1]), ops[|ops| - 1])
  }

  // ---------------------------------------------------------------- the program's object

  class NfcConfig {
    var list: seq<Param>   // m_list
    var vec: seq<Param>    // the vector the object itself is
    var validFile: bool
    var phase: Phase       // the state word: low byte
    var flag: bool         // and IsStringValue

    constructor ()
      ensures list == [] && vec == [] && validFile
    {
      list, vec, validFile := [], [], true;
      phase, flag := BeginLine, false;
    }

    method Add(p: Param)
      modifies this`list
      ensures list == Insert(old(list), p)
    {
      hide Less;
      if |list| == 0 {
        list := list + [p];
        return;
      }
      var it := 0;
      while it < |list|
        invariant 0 <= it <= |list| && list == old(list)
        invariant Insert(list, p) == list[..it] + Insert(list[it..], p)
      {
        if Less(list[it].name, p.name) {
          assert list[..it + 1] == list[..it] + [list[it]] && list[it..][1..] == list[it + 1..];
          it := it + 1;
        } else {
          list := list[..it] + [p] + list[it..];
          return;
        }
      }
      assert list[it..] == [] && list[..it] == list;
      list := list + [p];
    }

    method MoveFromList()
      modifies this`list, this`vec
      ensures list == [] && vec == old(vec) + old(list)
    {
      if |list| == 0 { return; }
      for it := 0 to |list|
        invariant list == old(list) && vec == old(vec) + list[..it]
      {
        vec := vec + [list[it]];
      }
      list := [];
    }

    method MoveToList()
      modifies this`list, this`vec
      ensures vec == [] && list == old(vec)
    {
      if |list| != 0 { list := []; }
      for it := 0 to |vec|
        invariant vec == old(vec) && list == vec[..it]
      {
        list := list + [vec[it]];
      }
      vec := [];
    }

    method CleanAll()
      modifies this`vec
      ensures vec == StoreAfter(old(vec), Clean)
    {
      if |vec| == 0 { return; }
      vec := [];
    }

    /** find: stops at the first name that is not less. */
    method Find(name: string) returns (found: Option<Param>)
      requires Sorted(vec)
      ensures found == FirstNamed(vec, name)
    {
      if |vec| == 0 { return None; }
      for it := 0 to |vec|
        invariant FirstNamed(vec, name) == FirstNamed(vec[it..], name)
      {
        assert vec[it..][0] == vec[it] && vec[it..][1..] == vec[it + 1..];
        LessTotal(vec[it].name, name);
        if Less(vec[it].name, name) {
          continue;
        } else if vec[it].name == name {
          return Some(vec[it]);
        } else {
          NotBeyond(vec, it, name);
          break;
        }
      }
      found := None;
    }

    /** GetNumValue over this store; `len` is the size of the caller's variable. */
    method GetNumValue(name: string, len: nat) returns (value: Option<nat>)
      requires Sorted(vec)
      ensures var found := FirstNamed(vec, name);
              value == if found.None? || len !in {8, 2, 1} then None
                       else Some(NumOf(found.value) % if len == 8 then ULONG else if len == 2 then 0x10000 else 0x100)
    {
      var found := Find(name);
      if found.None? { return None; }
      var p := found.value;
      var v: nat := p.num;
      if v == 0 && |p.str| > 0 && |p.str| < 4 {
        for i := 0 to |p.str|
          invariant Fold(0, p.str) == Fold(v, p.str[i..])
        {
          assert p.str[i..][1..] == p.str[i + 1..];
          ModSum(v * 256, p.str[i] as int);
          v := v * 256 % ULONG;
          v := (v + p.str[i] as int) % ULONG;
          assert p.str[i + 1..] == p.str[i..][1..];
        }
      }
      if len == 8 { value := Some(v % ULONG); }
      else if len == 2 { value := Some(v % 0x10000); }
      else if len == 1 { value := Some(v % 0x100); }
      else { value := None; }
    }

    /** The bytes of a number register, pushed most significant first. */
    method PushBytes(s: string, num: nat, n: nat) returns (r: string)
      ensures r == s + BigEndian(num, n)
    {
      r := s;
      var k := n;
      while k > 0
        invariant r + BigEndian(num, k) == s + BigEndian(num, n)
      {
        k := k - 1;
        Pow256Positive(k);
        var c := (num / Pow256(k) % 256) as char;
        assert r + BigEndian(num, k + 1) == r + [c] + BigEndian(num, k);
        r := r + [c];
      }
    }

    ghost predicate Shows(r: Regs, token: string, str: string, num: nat, base: nat, i: nat)
      reads this
    {
      r == Regs(phase, flag, token, str, num, base, i)
    }

    /** readConfig */
    method ReadConfig(file: Option<string>, reset: bool) returns (nonempty: bool)
      requires list == []
      modifies this
      ensures list == [] && vec == StoreAfter(old(vec), ReadFile(file, reset))
      ensures validFile == if file.Some? then true else if reset then false else old(validFile)
      ensures nonempty == (file.Some? && vec != [])
    {
      hide Step, Insert, InsertAll;
      var token, str, num, i, base, c := "", "", 0, 0, 0, '\0';
      phase, flag := BeginLine, false;
      if file.None? {
        if reset { validFile := false; }
        return false;
      }
      validFile := true;
      if |vec| > 0 {
        if reset { CleanAll(); } else { MoveToList(); }
      }
      ghost var start := if reset then [] else old(vec);
      var s, pos, feof := file.value, 0, false;
      ghost var added: seq<Param> := [];
      InsertAllEmpty(start);
      assert vec == [] && list == InsertAll(start, added);
      assert s[..0] == [];
      while true
        invariant vec == [] && validFile && 0 <= pos <= |s| && !feof
        invariant Shows(After(INIT, s[..pos]), token, str, num, base, i)
        invariant added == Adds(INIT, s[..pos]) && list == InsertAll(start, added)
        decreases |s| - pos
      {
        ghost var p := After(INIT, s[..pos]);
        RegistersClear(INIT, s[..pos]);
        if pos == |s| {
          feof := true;
          assert s[..pos] == s;
          if phase == BeginLine && !flag { break; }
          c := '\n';
        } else {
          c := s[pos];
          assert s[..pos + 1] == s[..pos] + [c];
          RunAppend(INIT, s[..pos], [c]);
          RunOne(p, c);
          pos := pos + 1;
        }
        var adds;
        token, str, num, base, i, adds := Turn(p, c, token, str, num, base, i);
        InsertAllAppend(start, added, adds);
        added := added + adds;
        if feof { break; }
      }
      assert added == Parse(s);
      MoveFromList();
      nonempty := |vec| > 0;
    }

    /** The body of the reading loop: the switch over the state, and the list insertions it makes. */
    method Turn(ghost p: Regs, c: char, token0: string, str0: string, num0: nat, base0: nat, i0: nat)
      returns (token: string, str: string, num: nat, base: nat, i: nat, adds: seq<Param>)
      requires Shows(p, token0, str0, num0, base0, i0)
      modifies this`list, this`phase, this`flag
      ensures Shows(Step(p, c).0, token, str, num, base, i)
      ensures adds == Step(p, c).1 && list == InsertAll(old(list), adds)
    {
      token, str, num, base, i, adds := token0, str0, num0, base0, i0, [];
      match phase {
        case BeginLine =>
          if c == '#' { phase, flag := EndLine, false; }
          else if IsPrintable(c) {
            i := 0;
            token := "";
            str := "";
            phase, flag := Token, false;
            token := token + [c];
          }
        case Token =>
          if c == '=' {
            token := token + ['\0'];
            phase, flag := BeginQuote, false;
          } else if IsPrintable(c) { token := token + [c]; }
          else { phase, flag := EndLine, false; }
        case BeginQuote =>
          if c == '"' {
            phase, flag := StrValue, false;
            base := 0;
          } else if c == '0' { phase, flag := BeginHex, false; }
          else if IsDigit(c, 10) {
            phase, flag := NumValue, false;
            base := 10;
            num := DigitValue(c, base);
            i := 0;
          } else if c == '{' {
            phase, flag := NumValue, false;
            base := 16;
            i := 0;
            flag := true;
          } else { phase, flag := EndLine, false; }
        case BeginHex =>
          if c == 'x' || c == 'X' {
            phase, flag := NumValue, false;
            base := 16;
            num := 0;
            i := 0;
          } else if IsDigit(c, 10) {
            phase, flag := NumValue, false;
            base := 10;
            num := DigitValue(c, base);
          } else if c != '\n' && c != '\r' { phase, flag := EndLine, false; }
          else { str, num, i, adds := NumTurn(p, c, token, str, num, base, i); }
        case NumValue => str, num, i, adds := NumTurn(p, c, token, str, num, base, i);
        case StrValue =>
          if c == '"' {
            str := str + ['\0'];
            phase, flag := EndLine, false;
            adds := [Param(CStr(token), str, 0)];
            Add(adds[0]);
            InsertAllOne(old(list), adds[0]);
          } else if IsPrintable(c) { str := str + [c]; }
        case EndLine =>
          if c == '\n' || c == '\r' { phase, flag := BeginLine, false; }
      }
    }

    /** The case of a numeric value. The flag is cleared with the phase before it is tested, so the
        pending digits of an unclosed group are never flushed. */
    method NumTurn(ghost p: Regs, c: char, token: string, str0: string, num0: nat, base: nat, i0: nat)
      returns (str: string, num: nat, i: nat, adds: seq<Param>)
      requires Shows(p, token, str0, num0, base, i0)
      modifies this`list, this`phase, this`flag
      ensures Shows(NumStep(p, c).0, token, str, num, base, i)
      ensures adds == NumStep(p, c).1 && list == InsertAll(old(list), adds)
    {
      hide TimesBase, AppendDigit, DigitValue;
      str, num, i, adds := str0, num0, i0, [];
      if IsDigit(c, base) {
        num := TimesBase(num, base);
        AppendInTwoSteps(num0, base, DigitValue(c, base));
        num := (num + DigitValue(c, base)) % ULONG;
        i := i + 1;
      } else if base == 16 && (c == ':' || c == '-' || c == ' ' || c == '}') {
        if i > 0 { str := PushBytes(str, num, (i + 1) / 2); }
        flag := true;
        num := 0;
        i := 0;
      } else {
        phase, flag := if c == '\n' || c == '\r' then BeginLine else EndLine, false;
        assert !(flag && base == 16 && i > 0);
        var param := if |str| > 0 then Param(CStr(token), str, 0) else Param(CStr(token), "", num);
        Add(param);
        adds := [param];
        InsertAllOne(old(list), param);
        str := "";
        num := 0;
      }
    }
  }

  function TimesBase(num: nat, base: nat): nat { num * base % ULONG }

  lemma AppendInTwoSteps(num: nat, base: nat, d: nat)
    ensures AppendDigit(num, base, d) == (TimesBase(num, base) + d) % ULONG
  {
    ModSum(num * base, d);
  }

  lemma ModSum(a: nat, b: nat)
    ensures (a % ULONG + b) % ULONG == (a + b) % ULONG
  {}

  lemma InsertAllEmpty(l: seq<Param>)
    ensures InsertAll(l, []) == l
  {}

  lemma InsertAllOne(l: seq<Param>, p: Param)
    ensures InsertAll(l, [p]) == Insert(l, p)
  {
    assert [p][..0] == [];
  }

  lemma {:induction false} InsertAllAppend(l: seq<Param>, a: seq<Param>, b: seq<Param>)
    ensures InsertAll(l, a + b) == InsertAll(InsertAll(l, a), b)
    decreases |b|
  {
    hide Insert;
    if b == [] {
      assert a + b == a;
    } else {
      assert (a + b)[..|a + b| - 1] == a + b[..|b| - 1];
      InsertAllAppend(l, a, b[..|b| - 1]);
    }
  }

  lemma NotBeyond(l: seq<Param>, it: nat, name: string)
    requires Sorted(l) && it < |l| && !Less(l[it].name, name) && l[it].name != name
    ensures FirstNamed(l[it..], name) == None
  {
    LessTotal(l[it].name, name);
    forall j | it <= j < |l| ensures l[j].name != name {
      if j > it { assert !Less(l[j].name, l[it].name); }
    }
    NoneNamed(l[it..], name);
  }

  lemma {:induction false} NoneNamed(l: seq<Param>, name: string)
    requires forall j :: 0 <= j < |l| ==> l[j].name != name
    ensures FirstNamed(l, name) == None
  {
    if l != [] { NoneNamed(l[1..], name); }
  }

  // ---------------------------------------------------------------- sorted, and last write wins

  lemma {:induction false} InsertSorted(l: seq<Param>, p: Param)
    requires Sorted(l)
    ensures Sorted(Insert(l, p)) && multiset(Insert(l, p)) == multiset(l) + multiset{p}
    ensures forall q :: q in Insert(l, p) ==> q == p || q in l
  {
    hide Less;
    if l == [] {
    } else if !Less(l[0].name, p.name) {
      forall j | 0 <= j < |l| ensures !Less(l[j].name, p.name) {
        if j > 0 { LessTransitive(p.name, l[0].name, l[j].name); }
      }
    } else {
      InsertSorted(l[1..], p);
      LessTotal(l[0].name, p.name);
      assert l == [l[0]] + l[1..];
      var r := Insert(l[1..], p);
      forall j | 0 <= j < |r| ensures !Less(r[j].name, l[0].name) {
        assert r[j] in r;
        if r[j] != p { var k :| 0 <= k < |l[1..]| && l[1..][k] == r[j]; assert l[k + 1] == r[j]; }
      }
    }
  }

  /** Inserting shadows older entries of the same name and no other name. */
  lemma {:induction false} InsertFirstNamed(l: seq<Param>, p: Param, name: string)
    requires Sorted(l)
    ensures FirstNamed(Insert(l, p), name) == if name == p.name then Some(p) else FirstNamed(l, name)
  {
    if l != [] && Less(l[0].name, p.name) {
      LessTotal(l[0].name, p.name);
      InsertFirstNamed(l[1..], p, name);
    } else {
      assert ([p] + l)[1..] == l;
    }
  }

  lemma NothingFound(name: string)
    ensures FirstNamed([], name) == None
  {}

  lemma {:induction false} InsertAllRefines(ps: seq<Param>, name: string)
    ensures Sorted(InsertAll([], ps)) && multiset(InsertAll([], ps)) == multiset(ps)
    ensures FirstNamed(InsertAll([], ps), name) == LastNamed(ps, name)
  {
    hide Insert, Less, FirstNamed;
    if ps == [] {
      NothingFound(name);
    } else {
      var q, p := ps[..|ps| - 1], ps[|ps| - 1];
      InsertAllRefines(q, name);
      InsertSorted(InsertAll([], q), p);
      InsertFirstNamed(InsertAll([], q), p, name);
      assert ps == q + [p];
    }
  }

  lemma {:induction false} StoredIsInsertAll(ops: seq<Op>)
    ensures Stored(ops) == InsertAll([], Assignments(ops))
  {
    hide Insert, Parse;
    InsertAllEmpty([]);
    if ops != [] {
      var before := ops[..|ops| - 1];
      StoredIsInsertAll(before);
      match ops[|ops| - 1] {
        case Clean =>
        case ReadFile(None, _) =>
        case ReadFile(Some(s), reset) =>
          InsertAllAppend([], if reset then [] else Assignments(before), Parse(s));
      }
    }
  }

  /** After any sequence of base reads, optional reads, failed opens and cleans, the vector is a
      sorted permutation of the assignments since the last reset, and the first entry of a name
      (the one the early-exit search returns) is the most recent of them. */
  lemma LastWriteWins(ops: seq<Op>, name: string)
    ensures Sorted(Stored(ops)) && multiset(Stored(ops)) == multiset(Assignments(ops))
    ensures FirstNamed(Stored(ops), name) == LastNamed(Assignments(ops), name)
  {
    StoredIsInsertAll(ops);
    InsertAllRefines(Assignments(ops), name);
  }

  /** A printed list of assignments, read as the base configuration, answers every name with its
      last assignment. */
  lemma PrintedFileReadsBack(l: seq<Assignment>, name: string)
    requires forall a :: a in l ==> WellFormed(a)
    ensures FirstNamed(Stored([ReadFile(Some(Print(l)), true)]), name) == LastNamed(Meanings(l), name)
  {
    var ops := [ReadFile(Some(Print(l)), true)];
    RoundTrip(l);
    LastWriteWins(ops, name);
    assert ops[..0] == [] && [] + Meanings(l) == Meanings(l);
  }
}
