/** The two fixed line-recognition rules of the goroutine-dump parser
    (`goroutineRegex` and `functionRegex`), written out character by
    character, each with the grammar it recognises, its decoder, and the
    accept/reject cases the tests pin down. */
module Recognizers {
  import opened Wrappers
  import opened Text

  /** The unit keyword and the space after it that open every header. */
  const Keyword: string := "goroutine "

  /** What a header line carries: the goroutine's ID and its state label. */
  datatype Header = Header(id: nat, state: string)

  /** A state label: the non-empty text between the brackets, which cannot
      itself hold the closing bracket. */
  predicate ValidState(state: string) {
    state != [] && ']' !in state
  }

  /** The header line with decimal ID text `digits` and state `state`. */
  function HeaderText(digits: string, state: string): string {
    Keyword + digits + " [" + state + "]:"
  }

  /** The header grammar: `goroutine <digits> [<state>]:` and nothing else. */
  ghost predicate HeaderShape(line: string) {
    exists digits, state {:trigger HeaderText(digits, state)} ::
      digits != [] && AllDigits(digits) && ValidState(state) && line == HeaderText(digits, state)
  }

  /** Scans a line as a header; `None` for any other line. */
  function ParseHeader(line: string): (h: Option<Header>)
    ensures h.Some? ==> ValidState(h.value.state)
  {
    if |line| < |Keyword| || line[..|Keyword|] != Keyword then None
    else
      var rest := line[|Keyword|..];
      var d := LeadingDigits(rest);
      var tail := rest[d..];
      if d == 0 || |tail| < 5 || tail[..2] != " [" || tail[|tail| - 2..] != "]:" then None
      else
        var state := tail[2..|tail| - 2];
        if ']' in state then None else Some(Header(DecimalValue(rest[..d]), state))
  }

  /** The header recognizer (`goroutineRegex.MatchString`). The rule is
      anchored at the end: an accepted line ends with `]:`. */
  predicate IsHeader(line: string): (b: bool)
    ensures b ==> |line| >= 2 && line[|line| - 2..] == "]:"
  {
    ParseHeader(line).Some?
  }

  /** Every line of the header grammar is recognised, with its ID and state. */
  lemma ParseHeaderComplete(digits: string, state: string)
    requires digits != [] && AllDigits(digits) && ValidState(state)
    ensures ParseHeader(HeaderText(digits, state)) == Some(Header(DecimalValue(digits), state))
  {
    var tail := " [" + state + "]:";
    var rest := digits + tail;
    HeaderTextParts(digits, state);
    CutAt(Keyword, rest);
    assert tail[0] == ' ';
    LeadingDigitsOf(digits, tail);
    CutAt(digits, tail);
    StateTail(state);
  }

  lemma HeaderTextParts(digits: string, state: string)
    ensures HeaderText(digits, state) == Keyword + (digits + (" [" + state + "]:"))
  {
  }

  /** Cutting a concatenation where its first part ends gives both parts. */
  lemma CutAt(a: string, b: string)
    ensures (a + b)[..|a|] == a && (a + b)[|a|..] == b
  {
  }

  /** What follows the digits of a header: the bracketed state and the colon. */
  lemma StateTail(state: string)
    requires ValidState(state)
    ensures var t := " [" + state + "]:";
            |t| >= 5 && t[..2] == " [" && t[|t| - 2..] == "]:" && t[2..|t| - 2] == state
  {
  }

  /** A header begins with the keyword `goroutine `; in particular its
      first character is a letter, never white space. */
  lemma HeaderStartsWithKeyword(line: string)
    requires IsHeader(line)
    ensures |line| >= |Keyword| && line[..|Keyword|] == Keyword
    ensures line[0] == 'g'
  {
    assert line[0] == line[..|Keyword|][0];
  }

  /** Every recognised line is of the header grammar, and its ID is the value
      of the digits it holds. */
  lemma ParseHeaderSound(line: string)
    requires IsHeader(line)
    ensures var h := ParseHeader(line).value;
            var digits := line[|Keyword|..|line| - |h.state| - 4];
            digits != [] && AllDigits(digits) && line == HeaderText(digits, h.state)
            && h.id == DecimalValue(digits)
  {
    var h := ParseHeader(line).value;
    var rest := line[|Keyword|..];
    var d := LeadingDigits(rest);
    var tail := rest[d..];
    Bracketed(tail);
    Rejoin(line, |Keyword|);
    Rejoin(rest, d);
    var digits := rest[..d];
    assert digits == line[|Keyword|..|line| - |h.state| - 4];
    HeaderTextParts(digits, h.state);
  }

  /** A sequence is its prefix up to `k` followed by the rest. */
  lemma Rejoin(s: string, k: nat)
    requires k <= |s|
    ensures s == s[..k] + s[k..]
  {
  }

  /** Text between ` [` and `]:` is that text bracketed. */
  lemma Bracketed(t: string)
    requires |t| >= 4 && t[..2] == " [" && t[|t| - 2..] == "]:"
    ensures t == " [" + t[2..|t| - 2] + "]:"
  {
    assert t == t[..2] + t[2..|t| - 2] + t[|t| - 2..];
  }

  /** The recognizer accepts exactly the header grammar. */
  lemma IsHeaderIffShape(line: string)
    ensures IsHeader(line) <==> HeaderShape(line)
  {
    if IsHeader(line) {
      ParseHeaderSound(line);
      var h := ParseHeader(line).value;
      var digits := line[|Keyword|..|line| - |h.state| - 4];
      assert line == HeaderText(digits, h.state);
    }
    if HeaderShape(line) {
      var digits, state :| digits != [] && AllDigits(digits) && ValidState(state)
                           && line == HeaderText(digits, state);
      ParseHeaderComplete(digits, state);
    }
  }

  /** Formatting a header as the Go runtime does and scanning it back gives
      the same ID and state. */
  lemma HeaderRoundTrip(h: Header)
    requires ValidState(h.state)
    ensures ParseHeader(HeaderText(DecimalDigits(h.id), h.state)) == Some(h)
  {
    DecimalRoundTrip(h.id);
    ParseHeaderComplete(DecimalDigits(h.id), h.state);
  }

  lemma RunningHeaderText()
    ensures HeaderText("1", "running") == "goroutine 1 [running]:"
  {
  }

  /** The accepted header of leakfinder_test.go's first recognizer case. */
  lemma HeaderAcceptsRunning()
    ensures ParseHeader("goroutine 1 [running]:") == Some(Header(1, "running"))
  {
    assert AllDigits("1") && DecimalValue("1") == 1 by {
      assert "1"[..0] == "";
    }
    RunningHeaderText();
    ParseHeaderComplete("1", "running");
  }

  lemma SleepHeaderText()
    ensures HeaderText("123", "sleep") == "goroutine 123 [sleep]:"
  {
  }

  lemma DecimalValue123()
    ensures AllDigits("123") && DecimalValue("123") == 123
  {
    assert "123"[..2] == "12" && "12"[..1] == "1" && "1"[..0] == "";
  }

  /** The accepted header with a three-digit ID and another state. */
  lemma HeaderAcceptsSleep()
    ensures ParseHeader("goroutine 123 [sleep]:") == Some(Header(123, "sleep"))
  {
    DecimalValue123();
    SleepHeaderText();
    ParseHeaderComplete("123", "sleep");
  }

  /** The rejected lines: prose and the empty line. */
  lemma HeaderRejectsExamples()
    ensures !IsHeader("not a goroutine line")
    ensures !IsHeader("")
  {
    var bad := "not a goroutine line";
    assert bad[..|Keyword|][0] == 'n';
  }

  /** A character of a function's import path or name. */
  predicate IsNameChar(c: char) {
    || ('a' <= c <= 'z') || ('A' <= c <= 'Z') || IsDigit(c)
    || c == '_' || c == '.' || c == '/' || c == '-'
  }

  /** A package-qualified function name such as `main.main` or `net/http.Get`. */
  predicate DottedName(name: string) {
    && |name| >= 3
    && (forall i :: 0 <= i < |name| ==> IsNameChar(name[i]))
    && name[0] != '.' && name[|name| - 1] != '.'
    && '.' in name
  }

  /** The function name and argument text of a function-call line. */
  datatype Call = Call(name: string, args: string)

  function CallText(name: string, args: string): string {
    name + "(" + args + ")"
  }

  /** The function-call grammar: `<pkg>.<Func>(<args>)` from the first column. */
  ghost predicate CallShape(line: string) {
    exists name, args {:trigger CallText(name, args)} :: DottedName(name) && line == CallText(name, args)
  }

  /** The number of leading name characters of `s`. */
  function NameLength(s: string): (n: nat)
    ensures n <= |s|
    ensures forall i :: 0 <= i < n ==> IsNameChar(s[i])
    ensures n < |s| ==> !IsNameChar(s[n])
  {
    if s == [] || !IsNameChar(s[0]) then 0 else NameLength(s[1..]) + 1
  }

  /** The name characters of a name followed by a non-name character are
      exactly its own. */
  lemma {:induction false} NameLengthOf(name: string, t: string)
    requires forall i :: 0 <= i < |name| ==> IsNameChar(name[i])
    requires t == [] || !IsNameChar(t[0])
    ensures NameLength(name + t) == |name|
  {
    if name == [] {
      assert name + t == t;
    } else {
      assert (name + t)[1..] == name[1..] + t;
      NameLengthOf(name[1..], t);
    }
  }

  /** Scans a line as a function call; `None` for any other line. */
  function ParseFunctionLine(line: string): (c: Option<Call>)
    ensures c.Some? ==> DottedName(c.value.name)
  {
    var k := NameLength(line);
    if k + 2 <= |line| && line[k] == '(' && line[|line| - 1] == ')' && DottedName(line[..k])
    then Some(Call(line[..k], line[k + 1..|line| - 1]))
    else None
  }

  /** The function-call recognizer (`functionRegex.MatchString`). The rule
      is anchored at the end: an accepted line ends with `)`. */
  predicate IsFunctionLine(line: string): (b: bool)
    ensures b ==> line != [] && line[|line| - 1] == ')'
  {
    ParseFunctionLine(line).Some?
  }

  /** Every line of the function-call grammar is recognised, with its name
      and arguments. */
  lemma ParseFunctionLineComplete(name: string, args: string)
    requires DottedName(name)
    ensures ParseFunctionLine(CallText(name, args)) == Some(Call(name, args))
  {
    var line := CallText(name, args);
    assert line == name + ("(" + args + ")");
    NameLengthOf(name, "(" + args + ")");
    var k := NameLength(line);
    assert line[..k] == name;
    assert line[k + 1..|line| - 1] == args;
  }

  /** Every recognised line is of the function-call grammar. */
  lemma ParseFunctionLineSound(line: string)
    requires IsFunctionLine(line)
    ensures var c := ParseFunctionLine(line).value;
            DottedName(c.name) && line == CallText(c.name, c.args)
  {
    var k := NameLength(line);
    assert line == line[..k] + [line[k]] + line[k + 1..|line| - 1] + [line[|line| - 1]];
  }

  /** The recognizer accepts exactly the function-call grammar. */
  lemma IsFunctionLineIffShape(line: string)
    ensures IsFunctionLine(line) <==> CallShape(line)
  {
    if IsFunctionLine(line) {
      ParseFunctionLineSound(line);
      var c := ParseFunctionLine(line).value;
      assert line == CallText(c.name, c.args);
    }
    if CallShape(line) {
      var name, args :| DottedName(name) && line == CallText(name, args);
      ParseFunctionLineComplete(name, args);
    }
  }

  /** A function-call line begins with a name character. */
  lemma FunctionLineStartsWithName(line: string)
    requires IsFunctionLine(line)
    ensures line != [] && IsNameChar(line[0])
  {
    var k := NameLength(line);
    assert line[..k][0] == line[0];
  }

  /** An indented line (a source location such as `\t/path/file.go:12 +0x1f`)
      is never a function-call line. */
  lemma IndentedIsNotFunctionLine(line: string)
    requires line != [] && IsSpace(line[0])
    ensures !IsFunctionLine(line)
  {
  }

  /** No line is both a header and a function call, so the parser never has
      to choose between the two rules. */
  lemma HeaderIsNotFunctionLine(line: string)
    requires IsHeader(line)
    ensures !IsFunctionLine(line)
  {
    assert line[..|Keyword|] == Keyword;
    assert line[9] == ' ';
  }

  /** A call without arguments is a function-call line. */
  lemma FunctionLineAcceptsMain()
    ensures ParseFunctionLine("main.main()") == Some(Call("main.main", ""))
  {
    assert DottedName("main.main") by { assert "main.main"[4] == '.'; }
    ParseFunctionLineComplete("main.main", "");
    assert CallText("main.main", "") == "main.main()";
  }

  lemma ArgumentsCallText()
    ensures CallText("fmt.Printf", "0x1234, 0x5678") == "fmt.Printf(0x1234, 0x5678)"
  {
    var line := "fmt.Printf(0x1234, 0x5678)";
    assert line[..10] == "fmt.Printf" && line[10..] == "(" + "0x1234, 0x5678" + ")";
    assert line == line[..10] + line[10..];
  }

  /** A call with an argument list holding commas and spaces is a
      function-call line. */
  lemma FunctionLineAcceptsArguments()
    ensures ParseFunctionLine("fmt.Printf(0x1234, 0x5678)") == Some(Call("fmt.Printf", "0x1234, 0x5678"))
  {
    assert DottedName("fmt.Printf") by { assert "fmt.Printf"[3] == '.'; }
    ArgumentsCallText();
    ParseFunctionLineComplete("fmt.Printf", "0x1234, 0x5678");
  }

  /** The indented source-location line of the tests is rejected. */
  lemma FunctionLineRejectsLocation()
    ensures !IsFunctionLine(" /path/to/file.go:123 +0x456")
  {
    IndentedIsNotFunctionLine(" /path/to/file.go:123 +0x456");
  }
}
