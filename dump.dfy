/** The goroutine-dump parser (`parseGoroutines`) as a specification: the
    records it produces, defined as a left-to-right scan of the dump's lines,
    and what that scan guarantees. */
module Dump {
  import opened Wrappers
  import opened Text
  import opened Recognizers

  /** One stack frame: the called function and its argument text. */
  datatype Frame = Frame(name: string, args: string)

  /** One goroutine record: its ID, its state label and its frames, innermost
      first, as they appear in the dump. */
  datatype Goroutine = Goroutine(id: nat, state: string, stack: seq<Frame>)

  /** The scanner's state: the records already closed, and the record whose
      block is still open, if any. */
  datatype Scan = Scan(done: seq<Goroutine>, open: Option<Goroutine>)

  /** Nothing seen yet. */
  const Start: Scan := Scan([], None)

  /** The closed records followed by the open one. */
  function Records(sc: Scan): seq<Goroutine> {
    sc.done + (if sc.open.Some? then [sc.open.value] else [])
  }

  /** A line that ends a block: empty or white space only. */
  predicate IsBlank(line: string) {
    TrimSpace(line) == ""
  }

  /** The four kinds of line the parser tells apart. */
  datatype LineKind = BlankLine | HeaderLine(header: Header) | CallLine(call: Call) | OtherLine

  /** Blank lines first, then the header rule, then the function-call rule;
      every remaining line (the indented source locations among them) is
      of no interest. Only valid state labels and dotted function names
      come out. */
  function Classify(line: string): (k: LineKind)
    ensures WellFormedKind(k)
  {
    if IsBlank(line) then BlankLine
    else
      match ParseHeader(line)
      case Some(h) => HeaderLine(h)
      case None =>
        match ParseFunctionLine(line)
        case Some(c) => CallLine(c)
        case None => OtherLine
  }

  /** `f` applied to every element of `s`, in order. */
  function Map<A, B>(f: A -> B, s: seq<A>): (r: seq<B>)
    ensures |r| == |s|
  {
    if s == [] then [] else Map(f, s[..|s| - 1]) + [f(s[|s| - 1])]
  }

  lemma {:induction false} MapAt<A, B>(f: A -> B, s: seq<A>, i: nat)
    requires i < |s|
    ensures Map(f, s)[i] == f(s[i])
  {
    var init := s[..|s| - 1];
    assert Map(f, s) == Map(f, init) + [f(s[|s| - 1])];
    if i < |s| - 1 {
      MapAt(f, init, i);
      assert init[i] == s[i];
    }
  }

  lemma {:induction false} MapConcat<A, B>(f: A -> B, a: seq<A>, b: seq<A>)
    ensures Map(f, a + b) == Map(f, a) + Map(f, b)
  {
    if b == [] {
      assert a + b == a;
    } else {
      var b' := b[..|b| - 1];
      var x := b[|b| - 1];
      MapConcat(f, a, b');
      var ab := a + b;
      assert ab[..|ab| - 1] == a + b' && ab[|ab| - 1] == x;
      assert Map(f, ab) == Map(f, a + b') + [f(x)];
      assert Map(f, b) == Map(f, b') + [f(x)];
      assert Map(f, a) + Map(f, b') + [f(x)] == Map(f, a) + (Map(f, b') + [f(x)]);
    }
  }

  /** A prefix one element longer. */
  lemma PrefixSnoc<T>(s: seq<T>, i: nat)
    requires i < |s|
    ensures s[..i + 1] == s[..i] + [s[i]]
  {
  }

  /** The full-length prefix. */
  lemma PrefixAll<T>(s: seq<T>)
    ensures s[..|s|] == s
  {
  }

  lemma MapOne<A, B>(f: A -> B, x: A)
    ensures Map(f, [x]) == [f(x)]
  {
    assert [x][..0] == [];
  }

  lemma MapThree<A, B>(f: A -> B, x: A, y: A, z: A)
    ensures Map(f, [x, y, z]) == [f(x), f(y), f(z)]
  {
    var l := [x, y, z];
    assert l[..2] == [x, y] && l[..2][..1] == [x];
    MapOne(f, x);
    assert Map(f, [x, y]) == [f(x)] + [f(y)];
    assert Map(f, l) == [f(x), f(y)] + [f(z)];
  }


  /** The kind of every line, in order. */
  function Classified(lines: seq<string>): (ks: seq<LineKind>)
    ensures |ks| == |lines|
  {
    Map(Classify, lines)
  }

  /** What one line does to the scanner. A blank line closes the open record;
      a header closes it and opens a new one; a function-call line adds a
      frame to the open record, if there is one; any other line changes
      nothing. Closed records are never revised, and only a header adds a
      record. */
  function Step(sc: Scan, k: LineKind): (r: Scan)
    ensures sc.done <= r.done
    ensures |Records(r)| == |Records(sc)| + (if k.HeaderLine? then 1 else 0)
  {
    match k
    case BlankLine => Scan(Records(sc), None)
    case HeaderLine(h) => Scan(Records(sc), Some(Goroutine(h.id, h.state, [])))
    case CallLine(c) =>
      if sc.open.Some?
      then Scan(sc.done, Some(sc.open.value.(stack := sc.open.value.stack + [Frame(c.name, c.args)])))
      else sc
    case OtherLine => sc
  }

  /** The scanner's state after the given lines, in order. */
  function ScanKinds(ks: seq<LineKind>): Scan {
    if ks == [] then Start else Step(ScanKinds(ks[..|ks| - 1]), ks[|ks| - 1])
  }

  /** The records of a dump: its lines scanned in order, the last block
      closed by the end of the input. Every record has a valid state and
      dotted frame names. */
  function ParseDump(text: string): (gs: seq<Goroutine>)
    ensures forall i :: 0 <= i < |gs| ==> WellFormedRecord(gs[i])
  {
    var ks := Classified(Split(text, '\n'));
    ClassifiedWellFormed(Split(text, '\n'));
    ScanWellFormed(ks);
    RecordsWellFormed(ScanKinds(ks));
    Records(ScanKinds(ks))
  }

  function HeaderOf(g: Goroutine): Header {
    Header(g.id, g.state)
  }

  /** The IDs and states of records, in order. */
  function Headers(gs: seq<Goroutine>): (hs: seq<Header>)
    ensures |hs| == |gs|
  {
    if gs == [] then [] else Headers(gs[..|gs| - 1]) + [HeaderOf(gs[|gs| - 1])]
  }

  /** The headers among some lines, in order. */
  function HeaderLines(lines: seq<string>): seq<Header> {
    if lines == [] then []
    else
      var last := lines[|lines| - 1];
      HeaderLines(lines[..|lines| - 1]) + (if IsHeader(last) then [ParseHeader(last).value] else [])
  }

  /** The headers among some classified lines, in order. */
  function HeadersAmong(ks: seq<LineKind>): seq<Header> {
    if ks == [] then []
    else
      var last := ks[|ks| - 1];
      HeadersAmong(ks[..|ks| - 1]) + (if last.HeaderLine? then [last.header] else [])
  }

  lemma HeadersAppend(gs: seq<Goroutine>, g: Goroutine)
    ensures Headers(gs + [g]) == Headers(gs) + [HeaderOf(g)]
  {
    assert (gs + [g])[..|gs|] == gs;
  }

  /** A blank line is neither a header nor a function call. */
  lemma BlankIsNeither(line: string)
    requires IsBlank(line)
    ensures !IsHeader(line) && !IsFunctionLine(line)
  {
    TrimSpaceEmpty(line);
    if IsHeader(line) {
      HeaderStartsWithKeyword(line);
      assert false;
    }
    if IsFunctionLine(line) {
      FunctionLineStartsWithName(line);
      assert false;
    }
  }

  /** A line is classified as a header exactly when the header recognizer
      accepts it, and then with the header it carries. */
  lemma ClassifyHeader(line: string)
    ensures Classify(line).HeaderLine? <==> IsHeader(line)
    ensures Classify(line).HeaderLine? ==> Classify(line).header == ParseHeader(line).value
  {
    if IsBlank(line) {
      BlankIsNeither(line);
    }
  }

  /** One line adds the header it carries, if any, and nothing else. */
  lemma StepHeaders(sc: Scan, k: LineKind)
    ensures Headers(Records(Step(sc, k)))
         == Headers(Records(sc)) + (if k.HeaderLine? then [k.header] else [])
  {
    match k
    case BlankLine =>
      assert Records(Scan(Records(sc), None)) == Records(sc);
    case HeaderLine(h) =>
      HeadersAppend(Records(sc), Goroutine(h.id, h.state, []));
    case CallLine(c) =>
      if sc.open.Some? {
        var g := sc.open.value;
        HeadersAppend(sc.done, g);
        HeadersAppend(sc.done, g.(stack := g.stack + [Frame(c.name, c.args)]));
      }
    case OtherLine =>
  }

  /** The records after some lines are exactly one per header line, with
      that header's ID and state, in order. */
  lemma {:induction false} ScanHeaders(ks: seq<LineKind>)
    ensures Headers(Records(ScanKinds(ks))) == HeadersAmong(ks)
  {
    if ks != [] {
      ScanHeaders(ks[..|ks| - 1]);
      StepHeaders(ScanKinds(ks[..|ks| - 1]), ks[|ks| - 1]);
    }
  }

  lemma {:induction false} HeadersAmongClassified(lines: seq<string>)
    ensures HeadersAmong(Classified(lines)) == HeaderLines(lines)
  {
    if lines != [] {
      var ks := Classified(lines);
      assert ks[..|ks| - 1] == Classified(lines[..|lines| - 1]);
      assert ks[|ks| - 1] == Classify(lines[|lines| - 1]);
      HeadersAmongClassified(lines[..|lines| - 1]);
      ClassifyHeader(lines[|lines| - 1]);
    }
  }

  /** A dump yields one record per header line: its ID and state come from
      that header, and the records keep the headers' order. */
  lemma ParseDumpHeaders(text: string)
    ensures Headers(ParseDump(text)) == HeaderLines(Split(text, '\n'))
    ensures |ParseDump(text)| == |HeaderLines(Split(text, '\n'))|
  {
    ScanHeaders(Classified(Split(text, '\n')));
    HeadersAmongClassified(Split(text, '\n'));
  }

  /** A record is well formed when its state is a valid label and each of its
      frames names a package-qualified function. */
  predicate WellFormedRecord(g: Goroutine) {
    ValidState(g.state) && forall i :: 0 <= i < |g.stack| ==> DottedName(g.stack[i].name)
  }

  predicate WellFormedScan(sc: Scan) {
    (forall i :: 0 <= i < |sc.done| ==> WellFormedRecord(sc.done[i]))
    && (sc.open.Some? ==> WellFormedRecord(sc.open.value))
  }

  predicate WellFormedKind(k: LineKind) {
    (k.HeaderLine? ==> ValidState(k.header.state)) && (k.CallLine? ==> DottedName(k.call.name))
  }

  lemma StepWellFormed(sc: Scan, k: LineKind)
    requires WellFormedScan(sc) && WellFormedKind(k)
    ensures WellFormedScan(Step(sc, k))
  {
    assert forall i :: 0 <= i < |Records(sc)| ==> WellFormedRecord(Records(sc)[i]);
    if k.CallLine? && sc.open.Some? {
      var g := sc.open.value;
      var g' := g.(stack := g.stack + [Frame(k.call.name, k.call.args)]);
      assert forall i :: 0 <= i < |g'.stack| ==> DottedName(g'.stack[i].name) by {
        forall i | 0 <= i < |g'.stack| ensures DottedName(g'.stack[i].name) {
          if i < |g.stack| {
            assert g'.stack[i] == g.stack[i];
          }
        }
      }
    }
  }

  /** Scanning well-formed kinds keeps every record well formed. */
  lemma {:induction false} ScanWellFormed(ks: seq<LineKind>)
    requires forall i :: 0 <= i < |ks| ==> WellFormedKind(ks[i])
    ensures WellFormedScan(ScanKinds(ks))
  {
    if ks != [] {
      ScanWellFormed(ks[..|ks| - 1]);
      StepWellFormed(ScanKinds(ks[..|ks| - 1]), ks[|ks| - 1]);
    }
  }

  /** Every line is classified into a well-formed kind. */
  lemma ClassifiedWellFormed(lines: seq<string>)
    ensures forall i :: 0 <= i < |lines| ==> WellFormedKind(Classified(lines)[i])
  {
    forall i | 0 <= i < |lines| ensures WellFormedKind(Classified(lines)[i]) {
      MapAt(Classify, lines, i);
    }
  }

  lemma RecordsWellFormed(sc: Scan)
    requires WellFormedScan(sc)
    ensures forall i :: 0 <= i < |Records(sc)| ==> WellFormedRecord(Records(sc)[i])
  {
  }

  /** An indented source-location line such as `\t/path/main.go:10 +0x20` is
      of no interest to the parser. */
  lemma IndentedIsOther(line: string)
    requires line != [] && IsSpace(line[0]) && !AllSpace(line)
    ensures Classify(line) == OtherLine
  {
    TrimSpaceEmpty(line);
    IndentedIsNotFunctionLine(line);
    if IsHeader(line) {
      HeaderStartsWithKeyword(line);
      assert false;
    }
  }

  /** Inserting a line of no interest anywhere changes nothing. */
  lemma {:induction false} OtherIgnored(a: seq<LineKind>, b: seq<LineKind>)
    ensures ScanKinds(a + [OtherLine] + b) == ScanKinds(a + b)
  {
    if b == [] {
      var l := a + [OtherLine];
      assert a + [OtherLine] + b == l && a + b == a;
      assert l[..|l| - 1] == a && l[|l| - 1] == OtherLine;
    } else {
      var b' := b[..|b| - 1];
      OtherIgnored(a, b');
      var l := a + [OtherLine] + b;
      var r := a + b;
      assert l[..|l| - 1] == a + [OtherLine] + b' && l[|l| - 1] == b[|b| - 1];
      assert r[..|r| - 1] == a + b' && r[|r| - 1] == b[|b| - 1];
    }
  }

  /** Source-location lines never add or alter a record: a dump with an
      indented line inserted between any two lines parses as without it. */
  lemma LocationLineIgnored(a: seq<string>, line: string, b: seq<string>)
    requires line != [] && IsSpace(line[0]) && !AllSpace(line)
    ensures ScanKinds(Classified(a + [line] + b)) == ScanKinds(Classified(a + b))
  {
    MapConcat(Classify, a + [line], b);
    MapConcat(Classify, a, [line]);
    MapConcat(Classify, a, b);
    MapOne(Classify, line);
    IndentedIsOther(line);
    OtherIgnored(Classified(a), Classified(b));
  }

  /** The state reached from `Scan(d, None)` is the state reached from the
      start with `d` in front of the closed records. */
  function After(d: seq<Goroutine>, sc: Scan): Scan {
    Scan(d + sc.done, sc.open)
  }

  lemma StepAfter(d: seq<Goroutine>, sc: Scan, k: LineKind)
    ensures Step(After(d, sc), k) == After(d, Step(sc, k))
  {
    assert Records(After(d, sc)) == d + Records(sc);
  }

  /** Once a block is closed, what follows is scanned as if from the start. */
  lemma {:induction false} ScanAfterClosed(p: seq<LineKind>, d: seq<Goroutine>, b: seq<LineKind>)
    requires ScanKinds(p) == Scan(d, None)
    ensures ScanKinds(p + b) == After(d, ScanKinds(b))
  {
    if b == [] {
      assert p + b == p;
    } else {
      var b' := b[..|b| - 1];
      ScanAfterClosed(p, d, b');
      assert (p + b)[..|p + b| - 1] == p + b';
      StepAfter(d, ScanKinds(b'), b[|b| - 1]);
    }
  }

  /** The lines that can sit inside a block: neither blank nor a header. */
  predicate InBlock(k: LineKind) {
    k.CallLine? || k.OtherLine?
  }

  /** The frames the function-call lines among `ks` stand for, in order;
      every other line contributes none. */
  function CallFrames(ks: seq<LineKind>): (fs: seq<Frame>)
    ensures |fs| <= |ks|
  {
    if ks == [] then []
    else
      var last := ks[|ks| - 1];
      CallFrames(ks[..|ks| - 1]) + (if last.CallLine? then [Frame(last.call.name, last.call.args)] else [])
  }

  lemma ScanSnoc(ks: seq<LineKind>, k: LineKind)
    ensures ScanKinds(ks + [k]) == Step(ScanKinds(ks), k)
  {
    assert (ks + [k])[..|ks|] == ks;
  }

  /** A header followed by function-call lines and lines of no interest
      closes what was open before it and opens one record with the header's
      ID and state, whose stack is the frames of those calls, in order. */
  lemma {:induction false} BlockFrames(p: seq<LineKind>, h: Header, ks: seq<LineKind>)
    requires forall i :: 0 <= i < |ks| ==> InBlock(ks[i])
    ensures ScanKinds(p + [HeaderLine(h)] + ks)
         == Scan(Records(ScanKinds(p)), Some(Goroutine(h.id, h.state, CallFrames(ks))))
  {
    if ks == [] {
      assert p + [HeaderLine(h)] + ks == p + [HeaderLine(h)];
      ScanSnoc(p, HeaderLine(h));
    } else {
      var init := ks[..|ks| - 1];
      var last := ks[|ks| - 1];
      InBlockInit(ks, init);
      BlockFrames(p, h, init);
      assert p + [HeaderLine(h)] + ks == (p + [HeaderLine(h)] + init) + [last];
      ScanSnoc(p + [HeaderLine(h)] + init, last);
      var g := Goroutine(h.id, h.state, CallFrames(init));
      if last.CallLine? {
        assert CallFrames(ks) == g.stack + [Frame(last.call.name, last.call.args)];
      } else {
        assert CallFrames(ks) == g.stack;
      }
    }
  }

  lemma InBlockInit(ks: seq<LineKind>, init: seq<LineKind>)
    requires ks != [] && init == ks[..|ks| - 1]
    requires forall i :: 0 <= i < |ks| ==> InBlock(ks[i])
    ensures InBlock(ks[|ks| - 1])
    ensures forall i :: 0 <= i < |init| ==> InBlock(init[i])
  {
  }

  lemma StepClosed(sc: Scan, k: LineKind)
    requires sc.open == None && InBlock(k)
    ensures Step(sc, k) == sc
  {
  }

  /** With no record open, function-call lines and lines of no interest
      change nothing: a call that no header precedes in its block is
      dropped. */
  lemma {:induction false} ClosedIgnoresCalls(p: seq<LineKind>, ks: seq<LineKind>)
    requires ScanKinds(p).open == None
    requires forall i :: 0 <= i < |ks| ==> InBlock(ks[i])
    ensures ScanKinds(p + ks) == ScanKinds(p)
  {
    if ks == [] {
      assert p + ks == p;
    } else {
      var init := ks[..|ks| - 1];
      var last := ks[|ks| - 1];
      InBlockInit(ks, init);
      ClosedIgnoresCalls(p, init);
      var q := p + init;
      assert p + ks == q + [last];
      ScanSnoc(q, last);
      StepClosed(ScanKinds(p), last);
    }
  }

  /** The lines of two texts joined by an empty line. */
  lemma SplitBlankSeparated(a: string, b: string)
    ensures Split(a + "\n\n" + b, '\n') == Split(a, '\n') + [""] + Split(b, '\n')
  {
    var nb := ['\n'] + b;
    assert a + "\n\n" + b == a + ['\n'] + nb;
    SplitConcat(a, nb, '\n');
    SplitSep(b, '\n');
    assert Split(a, '\n') + ([""] + Split(b, '\n')) == Split(a, '\n') + [""] + Split(b, '\n');
  }

  /** A blank line closes the records before it; those after it follow. */
  lemma BlankSeparated(ka: seq<LineKind>, kb: seq<LineKind>)
    ensures Records(ScanKinds(ka + [BlankLine] + kb)) == Records(ScanKinds(ka)) + Records(ScanKinds(kb))
  {
    var p := ka + [BlankLine];
    assert p[..|p| - 1] == ka && p[|p| - 1] == BlankLine;
    var ra := Records(ScanKinds(ka));
    ScanAfterClosed(p, ra, kb);
  }

  /** Two dumps joined by a blank line parse to the records of the first
      followed by those of the second. */
  lemma BlocksConcatenate(a: string, b: string)
    ensures ParseDump(a + "\n\n" + b) == ParseDump(a) + ParseDump(b)
  {
    var la := Split(a, '\n');
    var lb := Split(b, '\n');
    SplitBlankSeparated(a, b);
    MapConcat(Classify, la + [""], lb);
    MapConcat(Classify, la, [""]);
    MapOne(Classify, "");
    assert Classify("") == BlankLine by {
      assert IsBlank("");
    }
    BlankSeparated(Classified(la), Classified(lb));
  }

  /** Three lines without line breaks, joined by line breaks, split back. */
  lemma ThreeLines(x: string, y: string, z: string)
    requires '\n' !in x && '\n' !in y && '\n' !in z
    ensures Split(x + "\n" + y + "\n" + z, '\n') == [x, y, z]
  {
    var lines := [x, y, z];
    assert lines[1..] == [y, z] && lines[1..][1..] == [z];
    assert Join(lines[1..], '\n') == y + ['\n'] + z;
    assert x + "\n" + y + "\n" + z == x + ['\n'] + (y + ['\n'] + z);
    SplitJoin(lines, '\n');
  }

  /** A header line is classified as a header with its ID and state. */
  lemma ClassifyHeaderText(digits: string, state: string)
    requires digits != [] && AllDigits(digits) && ValidState(state)
    ensures Classify(HeaderText(digits, state)) == HeaderLine(Header(DecimalValue(digits), state))
  {
    var h := HeaderText(digits, state);
    assert h[0] == 'g';
    TrimSpaceEmpty(h);
    ParseHeaderComplete(digits, state);
  }

  /** A function-call line is classified as a call with its name and arguments. */
  lemma ClassifyCallText(name: string, args: string)
    requires DottedName(name)
    ensures Classify(CallText(name, args)) == CallLine(Call(name, args))
  {
    var c := CallText(name, args);
    ParseFunctionLineComplete(name, args);
    FunctionLineStartsWithName(c);
    TrimSpaceEmpty(c);
    if IsHeader(c) {
      HeaderIsNotFunctionLine(c);
    }
  }

  /** A header, a call and a line of no interest make one record with one frame. */
  lemma ScanBlock(hd: Header, call: Call)
    ensures Records(ScanKinds([HeaderLine(hd), CallLine(call), OtherLine]))
         == [Goroutine(hd.id, hd.state, [Frame(call.name, call.args)])]
  {
    var k1 := [HeaderLine(hd)];
    var k2 := k1 + [CallLine(call)];
    var k3 := k2 + [OtherLine];
    assert k1[..0] == [];
    var s1 := Scan([], Some(Goroutine(hd.id, hd.state, [])));
    assert ScanKinds(k1) == s1;
    assert k2[..1] == k1;
    var s2 := Scan([], Some(Goroutine(hd.id, hd.state, [Frame(call.name, call.args)])));
    assert [] + [Frame(call.name, call.args)] == [Frame(call.name, call.args)];
    assert ScanKinds(k2) == Step(s1, CallLine(call));
    assert ScanKinds(k2) == s2;
    assert k3[..2] == k2;
    assert ScanKinds(k3) == s2;
    assert k3 == [HeaderLine(hd), CallLine(call), OtherLine];
  }

  /** A block of a header, one function-call line and an indented location
      line parses to one record with that ID, state and single frame. */
  lemma SingleBlock(digits: string, state: string, name: string, args: string, location: string)
    requires digits != [] && AllDigits(digits) && ValidState(state) && '\n' !in state
    requires DottedName(name) && '\n' !in args
    requires location != [] && IsSpace(location[0]) && !AllSpace(location) && '\n' !in location
    ensures ParseDump(HeaderText(digits, state) + "\n" + CallText(name, args) + "\n" + location)
         == [Goroutine(DecimalValue(digits), state, [Frame(name, args)])]
  {
    var h := HeaderText(digits, state);
    var c := CallText(name, args);
    assert '\n' !in h by {
      assert h == Keyword + digits + " [" + state + "]:";
      assert forall i :: 0 <= i < |digits| ==> digits[i] != '\n';
    }
    assert '\n' !in c by {
      assert c == name + "(" + args + ")";
      assert forall i :: 0 <= i < |name| ==> name[i] != '\n';
    }
    ThreeLines(h, c, location);
    MapThree(Classify, h, c, location);
    ClassifyHeaderText(digits, state);
    ClassifyCallText(name, args);
    IndentedIsOther(location);
    ScanBlock(Header(DecimalValue(digits), state), Call(name, args));
  }

  /** Empty input is a valid dump with no records. */
  lemma EmptyDumpHasNoRecords()
    ensures ParseDump("") == []
  {
    assert Split("", '\n') == [""];
    assert IsBlank("");
    MapOne(Classify, "");
    assert [BlankLine][..0] == [];
  }

  /** A line of white space only is not a header. */
  lemma SpaceIsNotHeader(line: string)
    requires AllSpace(line)
    ensures !IsHeader(line)
  {
    if IsHeader(line) {
      HeaderStartsWithKeyword(line);
      assert false;
    }
  }

  lemma {:induction false} NoHeaders(lines: seq<string>)
    requires forall i :: 0 <= i < |lines| ==> AllSpace(lines[i])
    ensures HeaderLines(lines) == []
  {
    if lines != [] {
      NoHeaders(lines[..|lines| - 1]);
      SpaceIsNotHeader(lines[|lines| - 1]);
    }
  }

  /** Input of white space only, line breaks included, is a dump with no
      records. */
  lemma WhitespaceDump(text: string)
    requires AllSpace(text)
    ensures ParseDump(text) == []
  {
    SplitAllSpace(text, '\n');
    NoHeaders(Split(text, '\n'));
    ParseDumpHeaders(text);
  }

  /** The single-goroutine dump of leakfinder_test.go. */
  const RunningDump: string := "goroutine 1 [running]:" + "\n" + "main.main()" + "\n" + RunningLocation

  /** The second block of the multiple-goroutine dump of leakfinder_test.go;
      its location line is written in pieces short enough to index. */
  const SleepDump: string := "goroutine 2 [sleep]:" + "\n" + "time.Sleep()" + "\n" + SleepLocation

  const RunningLocation: string := "    /path/to/main.go:10 +0x20"

  lemma RunningPieces()
    ensures DottedName("main.main") && DecimalValue("1") == 1
    ensures RunningLocation != [] && IsSpace(RunningLocation[0]) && !AllSpace(RunningLocation)
    ensures '\n' !in RunningLocation
  {
    assert "main.main"[4] == '.';
    assert "1"[..0] == "";
    assert RunningLocation[4] == '/';
  }

  lemma RunningText()
    ensures RunningDump == HeaderText("1", "running") + "\n" + CallText("main.main", "") + "\n" + RunningLocation
  {
    assert HeaderText("1", "running") == "goroutine 1 [running]:";
    assert CallText("main.main", "") == "main.main()";
  }

  /** The single-goroutine dump yields one record. */
  lemma RunningBlock()
    ensures ParseDump(RunningDump) == [Goroutine(1, "running", [Frame("main.main", "")])]
  {
    RunningPieces();
    RunningText();
    SingleBlock("1", "running", "main.main", "", RunningLocation);
  }

  const SleepLocation: string := "    /usr/local/" + "go/src/runtime/" + "time.go:195 +0x135"

  lemma SleepPieces()
    ensures DottedName("time.Sleep") && DecimalValue("2") == 2
    ensures SleepLocation != [] && IsSpace(SleepLocation[0]) && !AllSpace(SleepLocation)
    ensures '\n' !in SleepLocation
  {
    assert "time.Sleep"[4] == '.';
    assert "2"[..0] == "";
    assert SleepLocation[4] == '/';
  }

  lemma SleepText()
    ensures SleepDump == HeaderText("2", "sleep") + "\n" + CallText("time.Sleep", "") + "\n" + SleepLocation
  {
    assert HeaderText("2", "sleep") == "goroutine 2 [sleep]:";
    assert CallText("time.Sleep", "") == "time.Sleep()";
  }

  /** The second block yields one record. */
  lemma SleepBlock()
    ensures ParseDump(SleepDump) == [Goroutine(2, "sleep", [Frame("time.Sleep", "")])]
  {
    SleepPieces();
    SleepText();
    SingleBlock("2", "sleep", "time.Sleep", "", SleepLocation);
  }

  /** Two one-record dumps joined by an empty line give both records. */
  lemma TwoBlocks(a: string, b: string, ga: Goroutine, gb: Goroutine)
    requires ParseDump(a) == [ga] && ParseDump(b) == [gb]
    ensures ParseDump(a + "\n\n" + b) == [ga] + [gb]
  {
    BlocksConcatenate(a, b);
  }

  /** The multiple-goroutine dump of leakfinder_test.go (the two blocks
      separated by an empty line) yields two records, in header order. */
  lemma MultipleGoroutineDump()
    ensures ParseDump(RunningDump + "\n\n" + SleepDump)
         == [Goroutine(1, "running", [Frame("main.main", "")])] + [Goroutine(2, "sleep", [Frame("time.Sleep", "")])]
  {
    RunningBlock();
    SleepBlock();
    TwoBlocks(RunningDump, SleepDump, Goroutine(1, "running", [Frame("main.main", "")]), Goroutine(2, "sleep", [Frame("time.Sleep", "")]));
  }
}
