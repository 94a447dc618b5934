/** The text of an append only file: commands printed as RESP arrays of bulk strings, and the
    readers the loader uses on it. Characters stand for bytes. */
module AofFormat {
  import opened Common

  type Bytes = string

  /** The argument vector of a command. */
  type Command = seq<Bytes>

  const CRLF: Bytes := "\r\n"

  // ----- sequences

  lemma Assoc<T>(a: seq<T>, b: seq<T>, c: seq<T>)
    ensures (a + b) + c == a + (b + c)
  {
  }

  lemma TakePastLeft<T>(a: seq<T>, b: seq<T>, k: nat)
    requires |a| <= k <= |a| + |b|
    ensures (a + b)[..k] == a + b[..k - |a|]
  {
  }

  lemma TakeWithinLeft<T>(a: seq<T>, b: seq<T>, k: nat)
    requires k <= |a|
    ensures (a + b)[..k] == a[..k]
  {
  }

  // ----- decimal numbers

  predicate IsDigit(c: char) {
    '0' <= c <= '9'
  }

  function Digit(d: nat): char
    requires d < 10
  {
    '0' + d as char
  }

  function DigitValue(c: char): nat
    requires IsDigit(c)
  {
    c as nat - '0' as nat
  }

  /** ll2string on the non-negative numbers the file contains. */
  function Dec(n: nat): (s: Bytes)
    ensures s != [] && forall i :: 0 <= i < |s| ==> IsDigit(s[i])
    ensures n > 0 ==> s[0] != '0'
  {
    if n < 10 then [Digit(n)] else Dec(n / 10) + [Digit(n % 10)]
  }

  function ParseDigits(s: Bytes, acc: nat): (n: nat)
    ensures n >= acc
  {
    if s == [] || !IsDigit(s[0]) then acc else ParseDigits(s[1..], acc * 10 + DigitValue(s[0]))
  }

  /** atoi and strtol in base 10, without overflow: optional blanks, a sign, digits. */
  function ParseInt(s: Bytes): int {
    if s == [] then 0
    else if IsSpace(s[0]) then ParseInt(s[1..])
    else if s[0] == '-' then -(ParseDigits(s[1..], 0) as int)
    else if s[0] == '+' then ParseDigits(s[1..], 0)
    else ParseDigits(s, 0)
  }

  lemma {:induction false} DecLength(n: nat, k: nat)
    requires k > 0 && n < Pow10(k)
    ensures |Dec(n)| <= k
  {
    if n >= 10 {
      assert Pow10(1) == 10;
      DecLength(n / 10, k - 1);
    }
  }

  lemma {:induction false} ParseDigitsSkips(a: Bytes, b: Bytes, acc: nat)
    requires forall i :: 0 <= i < |a| ==> IsDigit(a[i])
    ensures ParseDigits(a + b, acc) == ParseDigits(b, ParseDigits(a, acc))
  {
    if a == [] {
      assert a + b == b;
    } else {
      assert (a + b)[1..] == a[1..] + b;
      ParseDigitsSkips(a[1..], b, acc * 10 + DigitValue(a[0]));
    }
  }

  /** Reading a printed number back gives the number. */
  lemma {:induction false} ParseDec(n: nat)
    ensures ParseDigits(Dec(n), 0) == n
  {
    if n < 10 {
      assert Dec(n)[1..] == [];
    } else {
      ParseDigitsSkips(Dec(n / 10), [Digit(n % 10)], 0);
      ParseDec(n / 10);
      assert [Digit(n % 10)][1..] == [];
    }
  }

  lemma ParseIntHeader(n: nat, rest: Bytes)
    requires rest == [] || !IsDigit(rest[0])
    ensures ParseInt(Dec(n) + rest) == n
  {
    ParseDigitsSkips(Dec(n), rest, 0);
    ParseDec(n);
    assert (Dec(n) + rest)[0] == Dec(n)[0];
  }

  /** A cut printed count is still a positive number. */
  lemma ParseIntCutHeader(n: nat, p: Bytes, rest: Bytes)
    requires n > 0 && p != [] && p <= Dec(n) && (rest == [] || !IsDigit(rest[0]))
    ensures ParseInt(p + rest) >= 1
  {
    ParseDigitsSkips(p, rest, 0);
    assert p[0] == Dec(n)[0] && (p + rest)[0] == p[0];
  }

  // ----- printing

  function EncodeArg(a: Bytes): Bytes {
    "$" + Dec(|a|) + CRLF + a + CRLF
  }

  function EncodeArgs(argv: Command): Bytes {
    if argv == [] then [] else EncodeArg(argv[0]) + EncodeArgs(argv[1..])
  }

  function Encode(argv: Command): Bytes {
    "*" + Dec(|argv|) + CRLF + EncodeArgs(argv)
  }

  function EncodeAll(cmds: seq<Command>): Bytes {
    if cmds == [] then [] else Encode(cmds[0]) + EncodeAll(cmds[1..])
  }

  lemma {:induction false} EncodeArgsAppend(argv: Command, a: Bytes)
    ensures EncodeArgs(argv + [a]) == EncodeArgs(argv) + EncodeArg(a)
  {
    if argv == [] {
      assert [a][1..] == [];
      assert EncodeArgs([a]) == EncodeArg(a);
      assert argv + [a] == [a];
    } else {
      assert (argv + [a])[1..] == argv[1..] + [a];
      EncodeArgsAppend(argv[1..], a);
    }
  }

  lemma EncodeNoArgs()
    ensures EncodeArgs([]) == []
  {
  }

  lemma {:induction false} EncodeAllAppend(a: seq<Command>, b: seq<Command>)
    ensures EncodeAll(a + b) == EncodeAll(a) + EncodeAll(b)
  {
    if a == [] {
      assert a + b == b;
    } else {
      assert (a + b)[1..] == a[1..] + b;
      EncodeAllAppend(a[1..], b);
    }
  }

  /** catAppendOnlyGenericCommand: append a printed command to a buffer. */
  method CatGenericCommand(dst: Bytes, argv: Command) returns (r: Bytes)
    ensures r == dst + Encode(argv)
  {
    hide EncodeArgs, Dec;
    var buf := "*" + Dec(|argv|) + CRLF;
    r := dst + buf;
    EncodeNoArgs();
    for j := 0 to |argv|
      invariant r == dst + buf + EncodeArgs(argv[..j])
    {
      EncodeArgsAppend(argv[..j], argv[j]);
      assert argv[..j] + [argv[j]] == argv[..j + 1];
      ghost var before := r;
      r := r + ("$" + Dec(|argv[j]|) + CRLF);
      r := r + argv[j];
      r := r + CRLF;
      assert r == before + EncodeArg(argv[j]);
    }
    assert argv[..|argv|] == argv;
  }

  // ----- reading

  // fgets into a buffer of 128 bytes reads at most 127.
  const LINE_MAX: nat := 127

  /** How many bytes fgets consumes: up to a newline, the limit or the end of the file. */
  function LineLength(r: Bytes, limit: nat): (n: nat)
    ensures n <= |r| && n <= limit
    ensures r != [] && limit > 0 ==> n > 0
  {
    if limit == 0 || r == [] then 0
    else if r[0] == '\n' then 1
    else 1 + LineLength(r[1..], limit - 1)
  }

  function Line(r: Bytes): Bytes {
    r[..LineLength(r, LINE_MAX)]
  }

  lemma {:induction false} LineOf(h: Bytes, rest: Bytes, limit: nat)
    requires forall i :: 0 <= i < |h| ==> h[i] != '\n'
    requires |h| + 1 <= limit
    ensures LineLength(h + ['\n'] + rest, limit) == |h| + 1
  {
    var r := h + ['\n'] + rest;
    if h != [] {
      assert r[0] == h[0];
      assert r[1..] == h[1..] + ['\n'] + rest;
      LineOf(h[1..], rest, limit - 1);
    }
  }

  lemma {:induction false} LineOfCut(h: Bytes, limit: nat)
    requires forall i :: 0 <= i < |h| ==> h[i] != '\n'
    requires |h| <= limit
    ensures LineLength(h, limit) == |h|
  {
    if h != [] {
      LineOfCut(h[1..], limit - 1);
    }
  }

  /** What reading one command can come to: a command and the rest of the file, the end of the
      file, a short read, a format error, or a read error away from the end of the file. */
  datatype Reading = Got(argv: Command, rest: Bytes) | End | Short | Bad | Broken

  datatype ArgReading = Arg(value: Bytes, rest: Bytes) | NoArg(why: Reading)

  /** One bulk string: its length line, its bytes and two more. */
  function ReadArg(r: Bytes): (p: ArgReading)
    ensures p.Arg? ==> |p.rest| < |r|
    ensures p.NoArg? ==> p.why.Short? || p.why.Bad? || p.why.Broken?
  {
    if r == [] then NoArg(Short)
    else
      var line := Line(r);
      if line[0] != '$' then NoArg(Bad)
      else
        var len := ParseInt(line[1..]);
        var body := r[|line|..];
        // a negative length becomes a huge unsigned one and the allocation aborts
        if len < 0 then NoArg(Broken)
        else if |body| < len || |body| - len < 2 then NoArg(Short)
        else Arg(body[..len], body[len + 2..])
  }

  function ReadArgs(r: Bytes, argc: nat, acc: Command): (p: Reading)
    ensures p.Got? ==> |p.rest| <= |r| && |p.argv| == |acc| + argc
    ensures !p.End?
    decreases argc
  {
    if argc == 0 then Got(acc, r)
    else
      match ReadArg(r)
      case Arg(a, rest) => ReadArgs(rest, argc - 1, acc + [a])
      case NoArg(why) => why
  }

  function ReadCommand(r: Bytes): (p: Reading)
    ensures p.Got? ==> |p.rest| < |r| && |p.argv| > 0
    ensures p.End? <==> r == []
  {
    if r == [] then End
    else
      var line := Line(r);
      if line[0] != '*' then Bad
      else if |line| == 1 then Short
      else if line[1] == '\0' then
        if |line| == |r| < LINE_MAX && line[|line| - 1] != '\n' then Short else Broken
      else
        var argc := ParseInt(line[1..]);
        if argc < 1 then Bad else ReadArgs(r[|line|..], argc, [])
  }

  // ----- reading what was printed

  const INT_MAX: nat := 2147483647
  const LONG_MAX: nat := 9223372036854775807

  /** Commands the server can print: at least the name, counts and lengths that fit. */
  predicate Printable(argv: Command) {
    0 < |argv| <= INT_MAX && forall i :: 0 <= i < |argv| ==> |argv[i]| <= LONG_MAX
  }

  lemma DecFits(n: nat)
    requires n <= LONG_MAX
    ensures |Dec(n)| <= 19
  {
    assert Pow10(4) == 10000;
    assert Pow10(8) == 100000000;
    assert Pow10(12) == 1000000000000;
    assert Pow10(16) == 10000000000000000;
    assert Pow10(19) == 10000000000000000000;
    DecLength(n, 19);
  }

  lemma HeaderLine(mark: char, n: nat, rest: Bytes)
    requires n <= LONG_MAX && mark != '\n'
    ensures Line([mark] + Dec(n) + CRLF + rest) == [mark] + Dec(n) + CRLF
    ensures ParseInt(([mark] + Dec(n) + CRLF)[1..]) == n
  {
    DecFits(n);
    var h := [mark] + Dec(n) + ['\r'];
    LineOf(h, rest, LINE_MAX);
    assert h + ['\n'] + rest == [mark] + Dec(n) + CRLF + rest;
    assert h + ['\n'] == [mark] + Dec(n) + CRLF;
    assert ([mark] + Dec(n) + CRLF + rest)[..|h| + 1] == h + ['\n'];
    assert ([mark] + Dec(n) + CRLF)[1..] == Dec(n) + CRLF;
    ParseIntHeader(n, CRLF);
  }

  lemma ReadOneArg(a: Bytes, rest: Bytes)
    requires |a| <= LONG_MAX
    ensures ReadArg(EncodeArg(a) + rest) == Arg(a, rest)
  {
    var header := ['$'] + Dec(|a|) + CRLF;
    var tail := a + CRLF + rest;
    HeaderLine('$', |a|, tail);
    var r := EncodeArg(a) + rest;
    assert r == header + tail;
    assert r[|header|..] == tail;
    assert tail[..|a|] == a;
    assert tail[|a| + 2..] == rest;
  }

  lemma ArgsUnfold(argv: Command, rest: Bytes)
    requires argv != []
    ensures EncodeArgs(argv) + rest == EncodeArg(argv[0]) + (EncodeArgs(argv[1..]) + rest)
  {
    hide EncodeArg;
    Assoc(EncodeArg(argv[0]), EncodeArgs(argv[1..]), rest);
  }

  lemma {:induction false} ReadEncodedArgs(argv: Command, rest: Bytes, acc: Command)
    requires forall i :: 0 <= i < |argv| ==> |argv[i]| <= LONG_MAX
    ensures ReadArgs(EncodeArgs(argv) + rest, |argv|, acc) == Got(acc + argv, rest)
  {
    hide EncodeArgs, EncodeArg, ReadArg;
    if argv == [] {
      EncodeNoArgs();
      assert EncodeArgs(argv) + rest == rest;
      assert acc + argv == acc;
    } else {
      var more := EncodeArgs(argv[1..]) + rest;
      ArgsUnfold(argv, rest);
      ReadOneArg(argv[0], more);
      assert ReadArgs(EncodeArg(argv[0]) + more, |argv|, acc) == ReadArgs(more, |argv[1..]|, acc + [argv[0]]);
      ReadEncodedArgs(argv[1..], rest, acc + [argv[0]]);
      assert acc + [argv[0]] + argv[1..] == acc + argv;
    }
  }

  /** Round trip for one command, whatever follows it. */
  lemma ReadEncoded(argv: Command, rest: Bytes)
    requires Printable(argv)
    ensures ReadCommand(Encode(argv) + rest) == Got(argv, rest)
  {
    var header := ['*'] + Dec(|argv|) + CRLF;
    var tail := EncodeArgs(argv) + rest;
    HeaderLine('*', |argv|, tail);
    var r := Encode(argv) + rest;
    assert r == header + tail;
    assert r[|header|..] == tail;
    assert header[1] == Dec(|argv|)[0];
    ReadEncodedArgs(argv, rest, []);
    assert [] + argv == argv;
  }

  // ----- reading a cut command

  lemma CutHeaderLine(mark: char, n: nat, p: Bytes)
    requires n <= LONG_MAX && mark != '\n' && p != [] && p <= [mark] + Dec(n) + ['\r']
    ensures Line(p) == p
  {
    DecFits(n);
    LineOfCut(p, LINE_MAX);
  }

  /** A proper prefix of an argument, or nothing, is a short read. */
  lemma CutArg(a: Bytes, p: Bytes)
    requires |a| <= LONG_MAX && p < EncodeArg(a)
    ensures ReadArg(p) == NoArg(Short)
  {
    var header := ['$'] + Dec(|a|) + CRLF;
    if p != [] {
      if |p| < |header| {
        assert p <= ['$'] + Dec(|a|) + ['\r'];
        CutHeaderLine('$', |a|, p);
        CutLengthIsNotNegative(|a|, p[1..]);
        assert p[|p|..] == [];
      } else {
        var tail := p[|header|..];
        HeaderLine('$', |a|, tail);
        assert p == header + tail;
      }
    }
  }

  lemma CutLengthIsNotNegative(n: nat, p: Bytes)
    requires p <= Dec(n) + ['\r']
    ensures ParseInt(p) >= 0
  {
    if p != [] {
      assert p[0] == (Dec(n) + ['\r'])[0];
    }
  }

  lemma {:induction false} CutArgs(argv: Command, p: Bytes, acc: Command)
    requires argv != [] && p < EncodeArgs(argv)
    requires forall i :: 0 <= i < |argv| ==> |argv[i]| <= LONG_MAX
    ensures ReadArgs(p, |argv|, acc) == Short
  {
    hide EncodeArg, EncodeArgs, ReadArg;
    var first := EncodeArg(argv[0]);
    ArgsUnfold(argv, []);
    assert EncodeArgs(argv) + [] == EncodeArgs(argv) && EncodeArgs(argv[1..]) + [] == EncodeArgs(argv[1..]);
    if |p| < |first| {
      assert p < first;
      CutArg(argv[0], p);
    } else {
      var rest := p[|first|..];
      assert p == first + rest;
      ReadOneArg(argv[0], rest);
      if argv[1..] == [] { EncodeNoArgs(); }
      CutArgs(argv[1..], rest, acc + [argv[0]]);
    }
  }

  /** A command cut anywhere is a short read, never a format error. */
  lemma CutCommand(argv: Command, p: Bytes)
    requires Printable(argv) && p != [] && p < Encode(argv)
    ensures ReadCommand(p) == Short
  {
    var header := ['*'] + Dec(|argv|) + CRLF;
    assert p[0] == '*';
    if |p| < |header| {
      assert p <= ['*'] + Dec(|argv|) + ['\r'];
      CutHeaderLine('*', |argv|, p);
      if |p| > 1 {
        CutCount(|argv|, p[1..]);
        assert p[|p|..] == [];
      }
    } else {
      var tail := p[|header|..];
      assert p == header + tail;
      HeaderLine('*', |argv|, tail);
      assert header[1] == Dec(|argv|)[0];
      CutArgs(argv, tail, []);
    }
  }

  lemma CutCount(n: nat, p: Bytes)
    requires n > 0 && p != [] && p <= Dec(n) + ['\r']
    ensures p[0] != '\0' && ParseInt(p) >= 1
  {
    assert p[0] == Dec(n)[0];
    if |p| <= |Dec(n)| {
      assert p + [] == p;
      ParseIntCutHeader(n, p, []);
    } else {
      assert p == Dec(n) + ['\r'];
      ParseIntCutHeader(n, Dec(n), ['\r']);
    }
  }
}
