/** The leak-detection toolkit object: its configuration, its string cache
    (`internString`), and the dump parser (`parseGoroutines`) that runs the
    line scan of module Dump and interns what it keeps. */
module Toolkit {
  import opened Wrappers
  import opened Text
  import opened Recognizers
  import opened Configuration
  import opened Dump

  /** Every cached string is its own canonical copy. */
  predicate Canonical(cache: map<string, string>) {
    forall k :: k in cache ==> cache[k] == k
  }

  /** The cache after interning `s`: unchanged when `s` is cached already,
      otherwise with `s` stored as its own canonical copy. The cache gains
      the key `s` and no other, and no entry already there changes. */
  function Insert(cache: map<string, string>, s: string): (r: map<string, string>)
    ensures r.Keys == cache.Keys + {s}
    ensures forall t :: t in cache ==> r[t] == cache[t]
    ensures s !in cache ==> r[s] == s
  {
    if s in cache then cache else cache[s := s]
  }

  /** The cache after interning each string of `ss` in order. */
  function InsertAll(cache: map<string, string>, ss: seq<string>): map<string, string> {
    if ss == [] then cache else Insert(InsertAll(cache, ss[..|ss| - 1]), ss[|ss| - 1])
  }

  /** The distinct strings of a sequence. */
  function Distinct(ss: seq<string>): set<string> {
    set i | 0 <= i < |ss| :: ss[i]
  }

  /** Interning keeps the cache canonical, makes `s` cached with itself as
      its value, and adds no key but `s`. */
  lemma InsertCanonical(cache: map<string, string>, s: string)
    requires Canonical(cache)
    ensures var c := Insert(cache, s);
            Canonical(c) && s in c && c[s] == s && c.Keys == cache.Keys + {s}
            && (forall k :: k in cache ==> c[k] == cache[k])
  {
  }

  /** Interning the same content again changes nothing. */
  lemma InsertIdempotent(cache: map<string, string>, s: string)
    ensures Insert(Insert(cache, s), s) == Insert(cache, s)
  {
  }

  /** After interning a sequence of strings the cache holds exactly the
      strings it held before and the distinct strings of the sequence. */
  lemma {:induction false} InsertAllKeys(cache: map<string, string>, ss: seq<string>)
    ensures InsertAll(cache, ss).Keys == cache.Keys + Distinct(ss)
  {
    if ss != [] {
      var init := ss[..|ss| - 1];
      InsertAllKeys(cache, init);
      assert Distinct(ss) == Distinct(init) + {ss[|ss| - 1]} by {
        forall x | x in Distinct(ss) ensures x in Distinct(init) + {ss[|ss| - 1]} {
          var i :| 0 <= i < |ss| && ss[i] == x;
          if i < |ss| - 1 {
            assert init[i] == x;
          }
        }
        forall x | x in Distinct(init) ensures x in Distinct(ss) {
          var i :| 0 <= i < |init| && init[i] == x;
          assert ss[i] == x;
        }
      }
    }
  }

  /** A canonical cache stays canonical however many strings are interned. */
  lemma {:induction false} InsertAllCanonical(cache: map<string, string>, ss: seq<string>)
    requires Canonical(cache)
    ensures Canonical(InsertAll(cache, ss))
  {
    if ss != [] {
      InsertAllCanonical(cache, ss[..|ss| - 1]);
      InsertCanonical(InsertAll(cache, ss[..|ss| - 1]), ss[|ss| - 1]);
    }
  }

  /** Starting from an empty cache, the cache size is the number of distinct
      strings interned. */
  lemma InternedCount(ss: seq<string>)
    ensures |InsertAll(map[], ss)| == |Distinct(ss)|
  {
    InsertAllKeys(map[], ss);
    assert InsertAll(map[], ss).Keys == Distinct(ss);
  }

  /** The function names of a stack, as a set. */
  function FrameNames(stack: seq<Frame>): set<string> {
    if stack == [] then {} else FrameNames(stack[..|stack| - 1]) + {stack[|stack| - 1].name}
  }

  /** The state label and function names of a record. */
  function RecordNames(g: Goroutine): set<string> {
    {g.state} + FrameNames(g.stack)
  }

  /** The state labels and function names of some records. */
  function Names(gs: seq<Goroutine>): set<string> {
    if gs == [] then {} else Names(gs[..|gs| - 1]) + RecordNames(gs[|gs| - 1])
  }

  /** The strings the parser interns on one line: a header's state, and a
      call's function name when a record is open to receive the frame. */
  function LineNames(sc: Scan, k: LineKind): set<string> {
    match k
    case HeaderLine(h) => {h.state}
    case CallLine(c) => if sc.open.Some? then {c.name} else {}
    case _ => {}
  }

  lemma NamesAppend(gs: seq<Goroutine>, g: Goroutine)
    ensures Names(gs + [g]) == Names(gs) + RecordNames(g)
  {
    assert (gs + [g])[..|gs|] == gs;
  }

  /** Closing the open record adds no string. */
  lemma CloseNames(sc: Scan)
    ensures Names(Records(Scan(Records(sc), None))) == Names(Records(sc))
  {
    assert Records(Scan(Records(sc), None)) == Records(sc);
  }

  /** A header's record brings its state. */
  lemma HeaderNames(sc: Scan, h: Header)
    ensures Names(Records(Step(sc, HeaderLine(h)))) == Names(Records(sc)) + {h.state}
  {
    var g := Goroutine(h.id, h.state, []);
    assert Records(Step(sc, HeaderLine(h))) == Records(sc) + [g];
    NamesAppend(Records(sc), g);
    assert RecordNames(g) == {h.state};
  }

  /** A frame added to the open record brings its function name. */
  lemma CallNames(done: seq<Goroutine>, g: Goroutine, c: Call)
    ensures Names(Records(Step(Scan(done, Some(g)), CallLine(c)))) == Names(done + [g]) + {c.name}
  {
    var f := Frame(c.name, c.args);
    var g' := g.(stack := g.stack + [f]);
    assert Records(Step(Scan(done, Some(g)), CallLine(c))) == done + [g'];
    NamesAppend(done, g);
    NamesAppend(done, g');
    assert (g.stack + [f])[..|g.stack|] == g.stack;
    assert RecordNames(g') == RecordNames(g) + {c.name};
  }

  /** The strings a scanning step adds to the records are the ones it
      interns. */
  lemma StepNames(sc: Scan, k: LineKind)
    ensures Names(Records(Step(sc, k))) == Names(Records(sc)) + LineNames(sc, k)
  {
    match k
    case BlankLine =>
      CloseNames(sc);
    case HeaderLine(h) =>
      HeaderNames(sc, h);
    case CallLine(c) =>
      if sc.open.Some? {
        CallNames(sc.done, sc.open.value, c);
      }
    case OtherLine =>
  }

  /** The toolkit: its configuration, fixed at construction, and the cache
      of canonical strings, which only ever grows. The HTTP client is not
      part of this model. */
  class LeakDetectionToolkit {
    const config: Config
    var stringCache: map<string, string>

    /** Every cached value is the string it is cached under. */
    ghost predicate Valid()
      reads this
    {
      Canonical(stringCache)
    }

    /** `NewLeakDetectionToolkit`: keeps the given configuration and starts
        with an empty cache. */
    constructor (config: Config)
      ensures this.config == config
      ensures stringCache == map[]
      ensures Valid()
    {
      this.config := config;
      stringCache := map[];
    }

    /** `internString`: the cached copy of `s` when there is one, otherwise
        `s` itself, cached from now on. */
    method InternString(s: string) returns (r: string)
      requires Valid()
      modifies this`stringCache
      ensures Valid()
      ensures r == s
      ensures stringCache == Insert(old(stringCache), s)
      ensures stringCache.Keys == old(stringCache).Keys + {s}
    {
      if s in stringCache {
        r := stringCache[s];
      } else {
        stringCache := stringCache[s := s];
        r := s;
      }
    }

    /** One line of `parseGoroutines`, by its kind: a blank line ends the
        current block, a header starts a new one, a function-call line adds
        a frame to it, and every other line is skipped. The state and the
        function name kept are interned. */
    method ScanLine(done: seq<Goroutine>, current: Option<Goroutine>, k: LineKind)
      returns (done': seq<Goroutine>, current': Option<Goroutine>)
      requires Valid()
      modifies this`stringCache
      ensures Valid()
      ensures Scan(done', current') == Step(Scan(done, current), k)
      ensures stringCache.Keys == old(stringCache).Keys + LineNames(Scan(done, current), k)
    {
      done', current' := done, current;
      assert done + [] == done;
      match k
      case BlankLine =>
        if current.Some? {
          done' := done + [current.value];
          current' := None;
        }
      case HeaderLine(h) =>
        if current.Some? {
          done' := done + [current.value];
        }
        var state := InternString(h.state);
        current' := Some(Goroutine(h.id, state, []));
      case CallLine(c) =>
        if current.Some? {
          var name := InternString(c.name);
          var g := current.value;
          current' := Some(g.(stack := g.stack + [Frame(name, c.args)]));
        }
      case OtherLine =>
    }

    /** One turn of the loop of `parseGoroutines`: scanning the line of
        kind `k`, the `i`-th of `ks`, keeps the scan, the headers seen and
        the interned strings in step with the first `i + 1` lines. */
    method Advance(ghost ks: seq<LineKind>, i: nat, k: LineKind, ghost base: set<string>,
                   done: seq<Goroutine>, current: Option<Goroutine>)
      returns (done': seq<Goroutine>, current': Option<Goroutine>)
      requires Valid()
      requires i < |ks| && ks[i] == k
      requires Scan(done, current) == ScanKinds(ks[..i])
      requires Headers(Records(Scan(done, current))) == HeadersAmong(ks[..i])
      requires stringCache.Keys == base + Names(Records(Scan(done, current)))
      modifies this`stringCache
      ensures Valid()
      ensures Scan(done', current') == ScanKinds(ks[..i + 1])
      ensures Headers(Records(Scan(done', current'))) == HeadersAmong(ks[..i + 1])
      ensures stringCache.Keys == base + Names(Records(Scan(done', current')))
    {
      ghost var before := Scan(done, current);
      done', current' := ScanLine(done, current, k);
      StepNames(before, k);
      PrefixSnoc(ks, i);
      ScanSnoc(ks[..i], k);
      ScanHeaders(ks[..i + 1]);
    }

    /** The loop of `parseGoroutines` over the lines of a dump, each line
        classified by `classify` when it is reached: one record per header
        seen so far, and every state and function name kept is interned.
        The classifier is a parameter only so that the loop's proof does not
        see the body of `Classify`; `ParseGoroutines` passes `Classify`. */
    method ScanLines(lines: seq<string>, classify: string -> LineKind) returns (gs: seq<Goroutine>)
      requires Valid()
      modifies this`stringCache
      ensures Valid()
      ensures gs == Records(ScanKinds(Map(classify, lines)))
      ensures Headers(gs) == HeadersAmong(Map(classify, lines))
      ensures stringCache.Keys == old(stringCache).Keys + Names(gs)
    {
      ghost var ks := Map(classify, lines);
      var done: seq<Goroutine> := [];
      var current: Option<Goroutine> := None;
      var i := 0;
      while i < |lines|
        invariant 0 <= i <= |lines|
        invariant Valid()
        invariant Scan(done, current) == ScanKinds(ks[..i])
        invariant Headers(Records(Scan(done, current))) == HeadersAmong(ks[..i])
        invariant stringCache.Keys == old(stringCache).Keys + Names(Records(Scan(done, current)))
      {
        var k := classify(lines[i]);
        MapAt(classify, lines, i);
        done, current := Advance(ks, i, k, old(stringCache).Keys, done, current);
        i := i + 1;
      }
      PrefixAll(ks);
      gs := done + (if current.Some? then [current.value] else []);
    }

    /** `parseGoroutines`: scans the dump line by line, keeping the record of
        the current block and closing it at a blank line, at the next header
        or at the end of the input; each state and function name it keeps is
        interned. */
    method ParseGoroutines(text: string) returns (gs: seq<Goroutine>)
      requires Valid()
      modifies this`stringCache
      ensures Valid()
      ensures gs == ParseDump(text)
      ensures stringCache.Keys == old(stringCache).Keys + Names(gs)
    {
      gs := ScanLines(Split(text, '\n'), Classify);
    }
  }

  /** The interning test of leakfinder_test.go: interning "test" twice gives
      equal values, "different" gives another value, and the cache then holds
      two strings. */
  method InternScenario() returns (str1: string, str2: string, str3: string, size: nat)
    ensures str1 == str2
    ensures str1 != str3
    ensures size == 2
  {
    var toolkit := new LeakDetectionToolkit(DefaultConfig());
    str1 := toolkit.InternString("test");
    str2 := toolkit.InternString("test");
    str3 := toolkit.InternString("different");
    assert "test"[0] != "different"[0];
    assert toolkit.stringCache.Keys == {"test", "different"};
    size := |toolkit.stringCache|;
  }

  /** The parsing test of leakfinder_test.go: the empty dump, the
      single-goroutine dump and the two-block dump give 0, 1 and 2 records. */
  method ParseScenario() returns (empty: int, single: int, multiple: int)
    ensures empty == 0
    ensures single == 1
    ensures multiple == 2
  {
    EmptyDumpHasNoRecords();
    RunningBlock();
    MultipleGoroutineDump();
    var toolkit := new LeakDetectionToolkit(DefaultConfig());
    var none := toolkit.ParseGoroutines("");
    empty := |none|;
    var one := toolkit.ParseGoroutines(RunningDump);
    single := |one|;
    var two := toolkit.ParseGoroutines(RunningDump + "\n\n" + SleepDump);
    multiple := |two|;
  }
}
