/** The leak finder's configuration (`Config`, `DefaultConfig`) and its
    one-time validation (`validateConfig`). */
module Configuration {
  import opened Wrappers

  /** Goroutine-count levels at which severity rises. */
  datatype GoroutineThresholds = GoroutineThresholds(normal: int, moderate: int, high: int, critical: int)

  /** Memory levels at which severity rises. */
  datatype MemoryThresholds = MemoryThresholds(high: int, critical: int)

  /** The toolkit configuration; the timeout is a whole number of seconds. */
  datatype Config = Config(
    pprofURL: string,
    timeoutSeconds: nat,
    goroutineThresholds: GoroutineThresholds,
    memoryThresholds: MemoryThresholds)

  /** The adjacent pair of thresholds a rejected configuration puts out of
      order, naming the family and the two levels. */
  datatype ConfigError =
    | NormalNotBelowModerate
    | ModerateNotBelowHigh
    | HighNotBelowCritical
    | MemoryHighNotBelowCritical

  /** The goroutine thresholds from lowest level to highest. */
  function GoroutineLevels(t: GoroutineThresholds): seq<int> {
    [t.normal, t.moderate, t.high, t.critical]
  }

  /** The memory thresholds from lowest level to highest. */
  function MemoryLevels(t: MemoryThresholds): seq<int> {
    [t.high, t.critical]
  }

  /** Every level is strictly above every level before it. */
  predicate StrictlyAscending(s: seq<int>) {
    forall i, j :: 0 <= i < j < |s| ==> s[i] < s[j]
  }

  /** Each level strictly above its predecessor. */
  predicate AdjacentAscending(s: seq<int>) {
    forall i :: 0 <= i < |s| - 1 ==> s[i] < s[i + 1]
  }

  /** Checking adjacent pairs is enough: strict order chains along the
      sequence. */
  lemma {:induction false} AdjacentAscendingIsAscending(s: seq<int>)
    requires AdjacentAscending(s)
    ensures StrictlyAscending(s)
  {
    if |s| > 1 {
      var t := s[1..];
      assert AdjacentAscending(t) by {
        forall i | 0 <= i < |t| - 1 ensures t[i] < t[i + 1] {
          assert t[i] == s[i + 1] && t[i + 1] == s[i + 2];
        }
      }
      AdjacentAscendingIsAscending(t);
      forall i, j | 0 <= i < j < |s| ensures s[i] < s[j] {
        if i > 0 {
          assert s[i] == t[i - 1] && s[j] == t[j - 1];
        } else if j > 1 {
          assert s[1] == t[0] && s[j] == t[j - 1];
        }
      }
    }
  }

  /** Each threshold family of the configuration is strictly ascending. */
  predicate WellFormed(c: Config) {
    StrictlyAscending(GoroutineLevels(c.goroutineThresholds))
    && StrictlyAscending(MemoryLevels(c.memoryThresholds))
  }

  /** The lower and upper threshold an error names. */
  function ViolatedPair(c: Config, e: ConfigError): (int, int) {
    var g := c.goroutineThresholds;
    match e
    case NormalNotBelowModerate => (g.normal, g.moderate)
    case ModerateNotBelowHigh => (g.moderate, g.high)
    case HighNotBelowCritical => (g.high, g.critical)
    case MemoryHighNotBelowCritical => (c.memoryThresholds.high, c.memoryThresholds.critical)
  }

  /** The position of a pair in the order validation checks them: the
      goroutine family from its lowest level up, then the memory family. */
  function CheckOrder(e: ConfigError): nat {
    match e
    case NormalNotBelowModerate => 0
    case ModerateNotBelowHigh => 1
    case HighNotBelowCritical => 2
    case MemoryHighNotBelowCritical => 3
  }

  /** Checks each adjacent pair of each family in turn, never repairing
      anything; the first pair out of order is reported, every pair checked
      before it being in order. */
  function ValidateConfig(c: Config): (r: Outcome<ConfigError>)
    ensures r.Pass? <==> WellFormed(c)
    ensures r.Fail? ==> ViolatedPair(c, r.error).0 >= ViolatedPair(c, r.error).1
    ensures r.Fail? ==> forall e :: CheckOrder(e) < CheckOrder(r.error) ==> ViolatedPair(c, e).0 < ViolatedPair(c, e).1
  {
    var g := c.goroutineThresholds;
    var m := c.memoryThresholds;
    var levels := GoroutineLevels(g);
    assert levels[0] == g.normal && levels[1] == g.moderate && levels[2] == g.high && levels[3] == g.critical;
    assert MemoryLevels(m)[0] == m.high && MemoryLevels(m)[1] == m.critical;
    if g.normal >= g.moderate then Fail(NormalNotBelowModerate)
    else if g.moderate >= g.high then Fail(ModerateNotBelowHigh)
    else if g.high >= g.critical then Fail(HighNotBelowCritical)
    else if m.high >= m.critical then Fail(MemoryHighNotBelowCritical)
    else
      AdjacentAscendingIsAscending(levels);
      Pass
  }

  /** The default configuration: the local pprof endpoint and a 30-second
      timeout. */
  function DefaultConfig(): (c: Config)
    ensures c.pprofURL == "http://localhost:6060"
    ensures c.timeoutSeconds == 30
  {
    Config(
      "http://localhost:6060",
      30,
      GoroutineThresholds(100, 500, 1000, 5000),
      MemoryThresholds(500, 1000))
  }

  /** The default configuration passes validation. */
  lemma DefaultConfigIsValid()
    ensures ValidateConfig(DefaultConfig()) == Pass
  {
  }

  /** Raising the normal level to 100 over a moderate level of 50 is rejected,
      and the error names that pair. */
  lemma RejectsNormalAboveModerate()
    ensures var d := DefaultConfig();
            var c := d.(goroutineThresholds := d.goroutineThresholds.(normal := 100, moderate := 50));
            ValidateConfig(c) == Fail(NormalNotBelowModerate)
  {
  }

  /** A memory high level of 50 over a critical level of 25 is rejected, and
      the error names the memory family. */
  lemma RejectsMemoryHighAboveCritical()
    ensures var d := DefaultConfig();
            var c := d.(memoryThresholds := d.memoryThresholds.(high := 50, critical := 25));
            ValidateConfig(c) == Fail(MemoryHighNotBelowCritical)
  {
  }
}
