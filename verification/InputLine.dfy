/** Parsing the line that names a test, and how it compares with what the test driver prints. */
module InputLine {
  import opened Wrappers
  import opened Splitting
  import opened CommandTokenizer

  datatype TestCommand = TestCommand(
    pathOrURL: string,
    absolutePath: string,
    shouldDumpPixels: bool,
    expectedPixelHash: string,
    timeout: int,
    dumpJSConsoleLogInStdErr: bool)

  const DEFAULT_TIMEOUT := 30000

  const TIMEOUT := "--timeout"
  const PIXEL_TEST := "--pixel-test"
  const DUMP_CONSOLE := "--dump-jsconsolelog-in-stderr"
  const ABSOLUTE_PATH := "--absolutePath"

  function Default(path: string): TestCommand { TestCommand(path, "", false, "", DEFAULT_TIMEOUT, false) }

  // ----- numbers -----

  predicate IsDigit(c: char) { '0' <= c <= '9' }

  predicate IsSpace(c: char) { c == ' ' || '\t' <= c <= '\r' }

  /** Digits read on from a number already read. */
  function ReadDigits(s: string, sofar: nat): nat
    decreases |s|
  {
    if s == "" || !IsDigit(s[0]) then sofar else ReadDigits(s[1..], 10 * sofar + (s[0] as int - '0' as int))
  }

  /** The number at the start of a text, zero if there is none. */
  function Atoi(s: string): int {
    if s == "" then 0
    else if IsSpace(s[0]) then Atoi(s[1..])
    else if s[0] == '-' then 0 - ReadDigits(s[1..], 0)
    else if s[0] == '+' then ReadDigits(s[1..], 0)
    else ReadDigits(s, 0)
  }

  function Digit(n: nat): char
    requires n < 10
  {
    ('0' as int + n) as char
  }

  function Decimal(n: nat): (s: string)
    ensures s != "" && forall i :: 0 <= i < |s| ==> IsDigit(s[i])
  {
    if n < 10 then [Digit(n)] else Decimal(n / 10) + [Digit(n % 10)]
  }

  function ToString(n: int): string { if n < 0 then "-" + Decimal(-n) else Decimal(n) }

  lemma {:induction false} ReadBack(n: nat, more: string)
    ensures ReadDigits(Decimal(n) + more, 0) == ReadDigits(more, n)
  {
    if n < 10 {
      assert (Decimal(n) + more)[1..] == more;
    } else {
      var d := [Digit(n % 10)];
      assert Decimal(n) + more == Decimal(n / 10) + (d + more);
      ReadBack(n / 10, d + more);
      assert (d + more)[1..] == more;
    }
  }

  /** Every number reads back as itself. */
  lemma AtoiOfToString(n: int)
    ensures Atoi(ToString(n)) == n
  {
    var digits := Decimal(if n < 0 then -n else n);
    ReadBack(if n < 0 then -n else n, "");
    assert digits + "" == digits;
    if n < 0 {
      assert ToString(n)[1..] == digits;
    }
  }

  // ----- parsing -----

  function Head(ps: seq<string>): string { if ps == [] then "" else ps[0] }

  function Tail(ps: seq<string>): seq<string> { if ps == [] then [] else ps[1..] }

  /** The options, up to the first empty piece; an option's value is taken even if it is not there. */
  function ParseOptions(c: TestCommand, ps: seq<string>): Option<TestCommand>
    decreases |ps|
  {
    if Head(ps) == "" then Some(c)
    else
      var arg, rest := ps[0], ps[1..];
      if arg == TIMEOUT then ParseOptions(c.(timeout := Atoi(Head(rest))), Tail(rest))
      else if arg == "-p" || arg == PIXEL_TEST then
        if Head(rest) != "" then ParseOptions(c.(shouldDumpPixels := true, expectedPixelHash := Head(rest)), Tail(rest))
        else ParseOptions(c.(shouldDumpPixels := true), rest)
      else if arg == DUMP_CONSOLE then ParseOptions(c.(dumpJSConsoleLogInStdErr := true), rest)
      else if arg == ABSOLUTE_PATH then ParseOptions(c.(absolutePath := Head(rest)), Tail(rest))
      else None
  }

  function ParsePieces(ps: seq<string>): Option<TestCommand> {
    if Head(ps) == "" then None else ParseOptions(Default(ps[0]), ps[1..])
  }

  /** Parsing with a tokenizer; a line that cannot be parsed ends the program. */
  method ParseInputLine(line: string) returns (r: Option<TestCommand>)
    ensures r == ParsePieces(SplitAll(line, SEPARATOR))
  {
    var tokenizer := new Tokenizer(line);
    if !tokenizer.HasNext() {
      return None;
    }
    var arg := tokenizer.Next();
    var result := Default(arg);
    while tokenizer.HasNext()
      invariant tokenizer.Valid() && !tokenizer.Stuck()
      invariant ParseOptions(result, tokenizer.rest) == ParsePieces(SplitAll(line, SEPARATOR))
      decreases |tokenizer.rest|
    {
      arg := tokenizer.Next();
      if arg == TIMEOUT {
        var timeoutToken := tokenizer.Next();
        result := result.(timeout := Atoi(timeoutToken));
      } else if arg == "-p" || arg == PIXEL_TEST {
        result := result.(shouldDumpPixels := true);
        if tokenizer.HasNext() {
          var hash := tokenizer.Next();
          result := result.(expectedPixelHash := hash);
        }
      } else if arg == DUMP_CONSOLE {
        result := result.(dumpJSConsoleLogInStdErr := true);
      } else if arg == ABSOLUTE_PATH {
        var absolutePath := tokenizer.Next();
        result := result.(absolutePath := absolutePath);
      } else {
        return None;
      }
    }
    r := Some(result);
  }

  /** Reading all tokens gives the longest run of non-empty pieces the line starts with. */
  method AllTokens(line: string) returns (tokens: seq<string>)
    ensures tokens == LongestFilled(SplitAll(line, SEPARATOR))
  {
    var tokenizer := new Tokenizer(line);
    ghost var all := LongestFilled(SplitAll(line, SEPARATOR));
    tokens := [];
    while tokenizer.HasNext()
      invariant tokenizer.Valid()
      invariant tokens + LongestFilled(tokenizer.rest) == all
      decreases |tokenizer.rest|
    {
      var token := tokenizer.Next();
      Regroup(tokens, token, LongestFilled(tokenizer.rest));
      tokens := tokens + [token];
    }
    tokenizer.NoneLeft();
  }

  lemma Regroup(a: seq<string>, t: string, b: seq<string>)
    ensures a + ([t] + b) == a + [t] + b
  {
  }

  // ----- printing -----

  function If(b: bool, ps: seq<string>): seq<string> { if b then ps else [] }

  /** What the test driver writes, one field after another. */
  function Fields(c: TestCommand, perTestTimeout: bool): seq<string> {
    [c.pathOrURL] + (If(c.absolutePath != "", [ABSOLUTE_PATH, c.absolutePath]) +
    (If(perTestTimeout, [TIMEOUT, ToString(c.timeout)]) + Switches(c)))
  }

  function Switches(c: TestCommand): seq<string> {
    If(c.shouldDumpPixels, [PIXEL_TEST]) + If(c.dumpJSConsoleLogInStdErr, [DUMP_CONSOLE]) +
    If(c.expectedPixelHash != "", [c.expectedPixelHash])
  }

  function Print(c: TestCommand, perTestTimeout: bool): string { Join(Fields(c, perTestTimeout), SEPARATOR) }

  /** What the driver prints: fields without separators, a path, and a hash only for a pixel test. */
  ghost predicate WellFormed(c: TestCommand) {
    && c.pathOrURL != "" && SEPARATOR !in c.pathOrURL
    && SEPARATOR !in c.absolutePath && SEPARATOR !in c.expectedPixelHash
    && (c.expectedPixelHash != "" ==> c.shouldDumpPixels)
  }

  lemma TwoPieces(c: TestCommand, a: string, b: string, rest: seq<string>)
    ensures a == ABSOLUTE_PATH ==> ParseOptions(c, [a, b] + rest) == ParseOptions(c.(absolutePath := b), rest)
    ensures a == TIMEOUT ==> ParseOptions(c, [a, b] + rest) == ParseOptions(c.(timeout := Atoi(b)), rest)
  {
    var ps := [a, b] + rest;
    assert ps[1..] == [b] + rest && ([b] + rest)[1..] == rest;
  }

  /** The options before the switches are read back. */
  lemma LeadingFields(c: TestCommand, perTestTimeout: bool)
    requires c.pathOrURL != ""
    ensures ParsePieces(Fields(c, perTestTimeout)) ==
      ParseOptions(Default(c.pathOrURL).(absolutePath := c.absolutePath,
        timeout := if perTestTimeout then c.timeout else DEFAULT_TIMEOUT), Switches(c))
  {
    var start := Default(c.pathOrURL);
    var more := If(perTestTimeout, [TIMEOUT, ToString(c.timeout)]) + Switches(c);
    assert Fields(c, perTestTimeout)[1..] == If(c.absolutePath != "", [ABSOLUTE_PATH, c.absolutePath]) + more;
    TwoPieces(start, ABSOLUTE_PATH, c.absolutePath, more);
    assert If(false, [ABSOLUTE_PATH, c.absolutePath]) + more == more;
    var then_ := start.(absolutePath := c.absolutePath);
    assert ParsePieces(Fields(c, perTestTimeout)) == ParseOptions(then_, more);
    TwoPieces(then_, TIMEOUT, ToString(c.timeout), Switches(c));
    AtoiOfToString(c.timeout);
    assert If(false, [TIMEOUT, ToString(c.timeout)]) + Switches(c) == Switches(c);
  }

  lemma NoOptions(c: TestCommand)
    ensures ParseOptions(c, []) == Some(c)
  {
  }

  lemma PixelOption(c: TestCommand, hash: string, rest: seq<string>)
    requires hash != ""
    ensures ParseOptions(c, [PIXEL_TEST]) == Some(c.(shouldDumpPixels := true))
    ensures ParseOptions(c, [PIXEL_TEST, hash] + rest) ==
      ParseOptions(c.(shouldDumpPixels := true, expectedPixelHash := hash), rest)
  {
    var ps := [PIXEL_TEST, hash] + rest;
    assert ps[1..] == [hash] + rest && ([hash] + rest)[1..] == rest;
    NoOptions(c.(shouldDumpPixels := true));
    assert [PIXEL_TEST][1..] == [];
  }

  lemma ConsoleOption(c: TestCommand)
    ensures ParseOptions(c, [DUMP_CONSOLE]) == Some(c.(dumpJSConsoleLogInStdErr := true))
  {
    assert [DUMP_CONSOLE][1..] == [];
    NoOptions(c.(dumpJSConsoleLogInStdErr := true));
  }

  /** A last piece that is not a hash cannot change the hash. */
  lemma LastPieceKeepsHash(c: TestCommand, last: string)
    ensures var r := ParseOptions(c, [last]); r.Some? ==> r.value.expectedPixelHash == c.expectedPixelHash
  {
    assert [last][1..] == [];
    assert Tail([]) == [] && Head([]) == "";
  }

  /** A pixel test that also wants the console dumped; its switch would have to be the hash itself. */
  predicate Mistaken(c: TestCommand) {
    c.shouldDumpPixels && c.dumpJSConsoleLogInStdErr && c.expectedPixelHash != DUMP_CONSOLE
  }

  /** The switches are read back, unless a pixel test also wants the console: then the console's switch is
      taken for the hash. */
  lemma SwitchesReadBack(c: TestCommand, start: TestCommand)
    requires c.expectedPixelHash != "" ==> c.shouldDumpPixels
    requires start == c.(shouldDumpPixels := false, expectedPixelHash := "", dumpJSConsoleLogInStdErr := false)
    ensures !Mistaken(c) ==> ParseOptions(start, Switches(c)) == Some(c)
    ensures Mistaken(c) ==>
      var r := ParseOptions(start, Switches(c)); r.None? || r.value.expectedPixelHash == DUMP_CONSOLE
  {
    var hash := c.expectedPixelHash;
    if c.shouldDumpPixels && c.dumpJSConsoleLogInStdErr {
      var mistaken := start.(shouldDumpPixels := true, expectedPixelHash := DUMP_CONSOLE);
      PixelOption(start, DUMP_CONSOLE, If(hash != "", [hash]));
      assert Switches(c) == [PIXEL_TEST, DUMP_CONSOLE] + If(hash != "", [hash]);
      if hash == "" {
        NoOptions(mistaken);
      } else {
        LastPieceKeepsHash(mistaken, hash);
        ConsoleOption(mistaken);
      }
    } else if c.shouldDumpPixels && hash != "" {
      PixelOption(start, hash, []);
      assert Switches(c) == [PIXEL_TEST, hash] + [];
      NoOptions(c);
    } else if c.shouldDumpPixels {
      PixelOption(start, "x", []);
      assert Switches(c) == [PIXEL_TEST];
    } else if c.dumpJSConsoleLogInStdErr {
      ConsoleOption(start);
      assert Switches(c) == [DUMP_CONSOLE];
    } else {
      NoOptions(start);
      assert Switches(c) == [];
    }
  }

  lemma OptionsAreFree()
    ensures SEPARATOR !in TIMEOUT && SEPARATOR !in PIXEL_TEST
    ensures SEPARATOR !in DUMP_CONSOLE && SEPARATOR !in ABSOLUTE_PATH
  {
  }

  lemma FreeAppend(a: seq<string>, b: seq<string>)
    requires Free(a, SEPARATOR) && Free(b, SEPARATOR)
    ensures Free(a + b, SEPARATOR)
  {
  }

  lemma FreeTwo(b: bool, p: string, q: string)
    requires SEPARATOR !in p && SEPARATOR !in q
    ensures Free(If(b, [p]), SEPARATOR) && Free(If(b, [p, q]), SEPARATOR)
  {
  }

  lemma SwitchesAreFree(c: TestCommand)
    requires SEPARATOR !in c.expectedPixelHash
    ensures Free(Switches(c), SEPARATOR)
  {
    OptionsAreFree();
    FreeTwo(c.shouldDumpPixels, PIXEL_TEST, "");
    FreeTwo(c.dumpJSConsoleLogInStdErr, DUMP_CONSOLE, "");
    FreeTwo(c.expectedPixelHash != "", c.expectedPixelHash, "");
    FreeAppend(If(c.shouldDumpPixels, [PIXEL_TEST]), If(c.dumpJSConsoleLogInStdErr, [DUMP_CONSOLE]));
    FreeAppend(If(c.shouldDumpPixels, [PIXEL_TEST]) + If(c.dumpJSConsoleLogInStdErr, [DUMP_CONSOLE]),
      If(c.expectedPixelHash != "", [c.expectedPixelHash]));
  }

  lemma NumberIsFree(n: int)
    ensures SEPARATOR !in ToString(n)
  {
  }

  lemma FieldsAreFree(c: TestCommand, perTestTimeout: bool)
    requires WellFormed(c)
    ensures Free(Fields(c, perTestTimeout), SEPARATOR)
  {
    OptionsAreFree();
    NumberIsFree(c.timeout);
    SwitchesAreFree(c);
    var timeout := If(perTestTimeout, [TIMEOUT, ToString(c.timeout)]);
    var path := If(c.absolutePath != "", [ABSOLUTE_PATH, c.absolutePath]);
    FreeTwo(perTestTimeout, TIMEOUT, ToString(c.timeout));
    FreeTwo(c.absolutePath != "", ABSOLUTE_PATH, c.absolutePath);
    FreeAppend(timeout, Switches(c));
    FreeAppend(path, timeout + Switches(c));
    FreeAppend([c.pathOrURL], path + (timeout + Switches(c)));
  }

  /** What the driver prints is what the tool parses, for every command it can print, exactly unless a timeout
      is left out that is not the default one, or a pixel test also wants the console dumped. */
  lemma RoundTrip(c: TestCommand, perTestTimeout: bool)
    requires WellFormed(c)
    ensures ParsePieces(SplitAll(Print(c, perTestTimeout), SEPARATOR)) == Some(c) <==>
      (perTestTimeout || c.timeout == DEFAULT_TIMEOUT) && !Mistaken(c)
  {
    FieldsAreFree(c, perTestTimeout);
    SplitAllJoin(Fields(c, perTestTimeout), SEPARATOR);
    LeadingFields(c, perTestTimeout);
    var start := Default(c.pathOrURL).(absolutePath := c.absolutePath,
      timeout := if perTestTimeout then c.timeout else DEFAULT_TIMEOUT);
    var read := c.(timeout := start.timeout);
    assert Switches(read) == Switches(c);
    SwitchesReadBack(read, start);
  }

  /** A pixel test that also wants the console dumped: the console's switch comes where the hash is looked for. */
  lemma ConsoleTakenForHash()
    ensures var c := Default("a.html").(shouldDumpPixels := true, dumpJSConsoleLogInStdErr := true);
      WellFormed(c) && Fields(c, false) == ["a.html", PIXEL_TEST, DUMP_CONSOLE] &&
      ParsePieces(SplitAll(Print(c, false), SEPARATOR)) ==
        Some(Default("a.html").(shouldDumpPixels := true, expectedPixelHash := DUMP_CONSOLE))
  {
    var c := Default("a.html").(shouldDumpPixels := true, dumpJSConsoleLogInStdErr := true);
    FieldsAreFree(c, false);
    SplitAllJoin(Fields(c, false), SEPARATOR);
    LeadingFields(c, false);
    assert Switches(c) == [PIXEL_TEST, DUMP_CONSOLE] + [];
    PixelOption(Default("a.html"), DUMP_CONSOLE, []);
    NoOptions(Default("a.html").(shouldDumpPixels := true, expectedPixelHash := DUMP_CONSOLE));
  }

  /** A timeout that is not printed is not read. */
  lemma TimeoutIsLost()
    ensures var c := Default("a.html").(timeout := 1);
      WellFormed(c) && ParsePieces(SplitAll(Print(c, false), SEPARATOR)) == Some(Default("a.html"))
  {
    var c := Default("a.html").(timeout := 1);
    FieldsAreFree(c, false);
    SplitAllJoin(Fields(c, false), SEPARATOR);
    LeadingFields(c, false);
    assert Switches(c) == [];
    NoOptions(Default("a.html"));
  }
}
