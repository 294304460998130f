# Leak-detection toolkit: the parsing and configuration core in Dafny

This project models the sequential front end of a Go goroutine-leak finder,
as its test file `leakfinder_test.go` pins it down, and proves properties of
that model:

- **the goroutine-dump parser** (`parseGoroutines`). It splits a dump into
  lines. A header line `goroutine <id> [<state>]:` opens a record. A
  function-call line `pkg.Func(args)` adds a frame to the open record. A
  blank line, the next header or the end of the input closes the record.
  Indented source-location lines and any other lines are skipped;
- **the two line recognizers** (`goroutineRegex` and `functionRegex`),
  written out character by character. Each comes with its grammar, its
  decoder and the accept/reject cases of the tests;
- **the string interner** (`internString` over the toolkit's `stringCache`).
  The cache is keyed by content. Interning returns the cached copy and the
  cache grows only by new contents. The parser interns every state label and
  function name it keeps;
- **`parsePatterns`**: a comma-separated list split at commas, each item
  trimmed, empty items dropped;
- **`validateConfig` and `DefaultConfig`**: each threshold family of the
  configuration must be strictly ascending. The default configuration points
  at `http://localhost:6060` with a 30-second timeout.

The implementation file `leakfinder.go` is not part of this model. The rules
modelled are those `leakfinder_test.go` asserts about the functions of
`leakfinder.go`. Where the tests leave a rule open, the model fixes it as
follows:

- a header is exactly `goroutine `, decimal digits, ` [`, a non-empty state
  without `]`, and `]:`, with nothing before or after;
- a function-call line starts in the first column with a dotted name (letters,
  digits, `_`, `.`, `/`, `-`, holding a `.` but not starting or ending with
  one), followed directly by `(`, and ends with `)`;
- a blank line is one that `strings.TrimSpace` reduces to nothing;
- a header met while a record is open closes that record, so a dump yields
  exactly one record per header line;
- a frame keeps the function name and the argument text; location lines are
  not stored;
- a function-call line with no open record, before any header or after a
  blank line, is dropped;
- the parser interns the state label of every header and the function name
  of every call it keeps; a dropped call is not interned.

Modules, one per file:

- `Wrappers`: `Option` and `Outcome`;
- `Text`: `TrimSpace`, `Split`, `Join` and decimal digits;
- `Recognizers`: the header and function-call rules;
- `Configuration`: `Config`, `DefaultConfig` and `ValidateConfig`;
- `Patterns`: `ParsePatterns`;
- `Dump`: the parser as a function over lines, `ParseDump`, with its
  properties;
- `Toolkit`: the `LeakDetectionToolkit` class with its `stringCache`, and the
  imperative parser `ParseGoroutines`, proved equal to `ParseDump`.

`ParseGoroutines` runs its loop in `ScanLines`. `ScanLines` classifies each
line as it reaches it, through a classifier passed as a function value;
`ParseGoroutines` passes `Dump.Classify`.

## Model

| member | source | states |
|---|---|---|
| Configuration.DefaultConfig | leakfinder_test.go:9-23 | the default configuration has pprof URL `http://localhost:6060` and a 30-second timeout |
| Configuration.ValidateConfig | leakfinder_test.go:155-179 | passes exactly when both threshold families are strictly ascending; a failure names an adjacent pair whose lower level is not below the upper one, and every pair checked before it is in order |
| Configuration.AdjacentAscendingIsAscending | leakfinder_test.go:155-179 | checking adjacent thresholds is enough for every pair to be in strict order |
| Configuration.DefaultConfigIsValid | leakfinder_test.go:157-160 | the default configuration passes validation |
| Configuration.RejectsNormalAboveModerate | leakfinder_test.go:162-169 | normal 100 over moderate 50 is rejected, and the error is NormalNotBelowModerate |
| Configuration.RejectsMemoryHighAboveCritical | leakfinder_test.go:171-178 | memory high 50 over critical 25 is rejected, and the error is MemoryHighNotBelowCritical |
| Toolkit.LeakDetectionToolkit.constructor | leakfinder_test.go:25-40 | the toolkit keeps the configuration it is given and starts with an empty, canonical cache |
| Toolkit.LeakDetectionToolkit.InternString | leakfinder_test.go:85-107 | returns a value equal to its input; the cache stays canonical, gains the key `s` and no other key |
| Toolkit.Insert | leakfinder_test.go:89-101 | interning adds the key `s` and no other, changes no entry already cached, and stores a new `s` as itself |
| Toolkit.InsertCanonical | leakfinder_test.go:89-101 | interning keeps the cache canonical, caches `s` as itself, adds only `s` and changes no other entry |
| Toolkit.InsertIdempotent | leakfinder_test.go:89-95 | interning the same content a second time leaves the cache as it was |
| Toolkit.InsertAllKeys | leakfinder_test.go:103-106 | after interning a sequence, the cache holds its old keys plus exactly the distinct strings interned |
| Toolkit.InsertAllCanonical | leakfinder_test.go:89-101 | a canonical cache stays canonical over any sequence of interning calls |
| Toolkit.InternedCount | leakfinder_test.go:103-106 | from an empty cache, the cache size is the number of distinct strings interned |
| Toolkit.InternScenario | leakfinder_test.go:85-107 | interning "test" twice gives equal values, "different" gives another value, and the cache then holds two strings |
| Toolkit.StepNames | leakfinder_test.go:42-83 | the strings one scanning step adds to the records are the ones the parser interns on that line |
| Toolkit.LeakDetectionToolkit.ScanLine | leakfinder_test.go:42-83 | one line of the parser's loop: the new records are one scanning step from the old ones, and the cache gains exactly the state or the function name kept |
| Toolkit.LeakDetectionToolkit.Advance | leakfinder_test.go:42-83 | one turn of the loop keeps the scan, the headers seen and the interned strings in step with one more line |
| Toolkit.LeakDetectionToolkit.ScanLines | leakfinder_test.go:42-83 | the loop yields the records of its classified lines, one per header among them, and interns exactly their states and function names |
| Toolkit.LeakDetectionToolkit.ParseGoroutines | leakfinder_test.go:42-83 | returns `ParseDump(text)` and leaves the cache holding its old keys plus the records' states and function names |
| Toolkit.ParseScenario | leakfinder_test.go:42-83 | parsing the three dumps of the test gives 0, 1 and 2 records |
| Dump.Classify | leakfinder_test.go:42-83 | a line classified as a header has a valid state label, and a line classified as a call has a dotted function name |
| Dump.Step | leakfinder_test.go:42-83 | one line never revises a closed record, and adds a record exactly when it is a header |
| Dump.ParseDump | leakfinder_test.go:42-83 | every record of every dump has a valid state and dotted frame names |
| Dump.ClassifyHeader | leakfinder_test.go:42-83 | a line is classified as a header exactly when the header recognizer accepts it, and with the header it decodes |
| Dump.BlankIsNeither | leakfinder_test.go:64-70 | a blank line is neither a header nor a function call |
| Dump.HeadersAppend | leakfinder_test.go:42-83 | the headers of records with one more record appended gain that record's header at the end |
| Dump.StepHeaders | leakfinder_test.go:42-83 | a line adds to the records' headers the header it carries, if any, and nothing else |
| Dump.ScanHeaders | leakfinder_test.go:42-83 | after any lines, the records are one per header line, in order, with its ID and state |
| Dump.HeadersAmongClassified | leakfinder_test.go:42-83 | the headers among the classified lines are the lines the header recognizer accepts, decoded |
| Dump.ParseDumpHeaders | leakfinder_test.go:42-83 | a dump yields exactly one record per header line, in order, with that line's ID and state |
| Dump.StepWellFormed | leakfinder_test.go:42-83 | a step with a well-formed line keeps every record's state valid and every frame name dotted |
| Dump.ScanWellFormed | leakfinder_test.go:42-83 | scanning well-formed lines keeps every record well formed |
| Dump.ClassifiedWellFormed | leakfinder_test.go:42-83 | every line of a dump is classified into a well-formed kind |
| Dump.RecordsWellFormed | leakfinder_test.go:42-83 | a well-formed scan holds only well-formed records |
| Dump.IndentedIsOther | leakfinder_test.go:57-59 | an indented, non-blank line, such as a source location, is a line of no interest |
| Dump.OtherIgnored | leakfinder_test.go:57-59 | inserting a line of no interest anywhere leaves the scan unchanged |
| Dump.LocationLineIgnored | leakfinder_test.go:57-59 | inserting an indented source-location line anywhere in a dump leaves its records unchanged |
| Dump.BlockFrames | leakfinder_test.go:55-61 | a header followed by call lines and lines of no interest closes what was open and opens one record with the header's ID and state whose stack is the calls' frames, in order |
| Dump.ClosedIgnoresCalls | leakfinder_test.go:42-83 | with no record open, call lines and lines of no interest leave the scan unchanged, so a call that no header precedes is dropped |
| Dump.StepAfter | leakfinder_test.go:64-70 | scanning after closed records is scanning from the start with those records in front |
| Dump.ScanAfterClosed | leakfinder_test.go:64-70 | once every record is closed, what follows is scanned as if from the start |
| Dump.SplitBlankSeparated | leakfinder_test.go:64-70 | two texts joined by an empty line split into the first text's lines, an empty line and the second's |
| Dump.BlankSeparated | leakfinder_test.go:64-70 | a blank line between two runs of lines gives the records of the first run followed by those of the second |
| Dump.BlocksConcatenate | leakfinder_test.go:64-70 | two dumps joined by an empty line parse to the first dump's records followed by the second's |
| Dump.TwoBlocks | leakfinder_test.go:64-70 | two one-record dumps joined by an empty line parse to both records, in order |
| Dump.ThreeLines | leakfinder_test.go:57-59 | three lines joined by line breaks split back into the three lines |
| Dump.ClassifyHeaderText | leakfinder_test.go:57 | a header line is classified as a header with its ID and state |
| Dump.ClassifyCallText | leakfinder_test.go:58 | a function-call line is classified as a call with its name and arguments |
| Dump.ScanBlock | leakfinder_test.go:57-59 | a header, a call and a line of no interest make one record with one frame |
| Dump.SingleBlock | leakfinder_test.go:55-61 | any header, call and location block parses to one record with that ID, state and single frame |
| Dump.EmptyDumpHasNoRecords | leakfinder_test.go:50-54 | the empty dump yields no record |
| Dump.SpaceIsNotHeader | leakfinder_test.go:50-54 | a line of white space only is not a header |
| Dump.NoHeaders | leakfinder_test.go:50-54 | lines of white space only hold no header |
| Dump.WhitespaceDump | leakfinder_test.go:50-54 | input of white space only, line breaks included, yields no record |
| Dump.RunningBlock | leakfinder_test.go:55-61 | the single-goroutine dump yields the one record `1`, `running`, frame `main.main` |
| Dump.SleepBlock | leakfinder_test.go:68-70 | the second block of the multiple dump yields the one record `2`, `sleep`, frame `time.Sleep` |
| Dump.MultipleGoroutineDump | leakfinder_test.go:62-72 | the two-block dump yields the running record followed by the sleep record |
| Recognizers.ParseHeader | leakfinder_test.go:181-217 | a decoded header always has a valid state label |
| Recognizers.ParseHeaderComplete | leakfinder_test.go:187-196 | every line of the header grammar is accepted, with the ID its digits denote and its state |
| Recognizers.ParseHeaderSound | leakfinder_test.go:197-206 | every accepted line is of the header grammar, and its ID is the value of its digits |
| Recognizers.IsHeader | leakfinder_test.go:181-217 | the header rule is anchored at the end: an accepted line ends with `]:` |
| Recognizers.IsHeaderIffShape | leakfinder_test.go:181-217 | the header recognizer accepts exactly the header grammar |
| Recognizers.HeaderRoundTrip | leakfinder_test.go:187-196 | formatting a header and scanning it back gives the same ID and state |
| Recognizers.HeaderStartsWithKeyword | leakfinder_test.go:197-206 | an accepted line begins with the keyword `goroutine `, so never with white space |
| Recognizers.HeaderAcceptsRunning | leakfinder_test.go:187-191 | `goroutine 1 [running]:` is a header with ID 1 and state `running` |
| Recognizers.HeaderAcceptsSleep | leakfinder_test.go:192-196 | `goroutine 123 [sleep]:` is a header with ID 123 and state `sleep` |
| Recognizers.HeaderRejectsExamples | leakfinder_test.go:197-206 | `not a goroutine line` and the empty line are not headers |
| Recognizers.NameLength | leakfinder_test.go:219-250 | the count of leading name characters: all of them are name characters, and the next one is not |
| Recognizers.NameLengthOf | leakfinder_test.go:219-250 | a name followed by a non-name character has exactly its own length of name characters |
| Recognizers.ParseFunctionLine | leakfinder_test.go:219-250 | a decoded call always has a dotted name |
| Recognizers.ParseFunctionLineComplete | leakfinder_test.go:225-234 | every line of the function-call grammar is accepted, with its name and argument text |
| Recognizers.ParseFunctionLineSound | leakfinder_test.go:235-239 | every accepted line is of the function-call grammar |
| Recognizers.IsFunctionLine | leakfinder_test.go:219-250 | the function-call rule is anchored at the end: an accepted line ends with `)` |
| Recognizers.IsFunctionLineIffShape | leakfinder_test.go:219-250 | the function-call recognizer accepts exactly the function-call grammar |
| Recognizers.FunctionLineStartsWithName | leakfinder_test.go:235-239 | an accepted line begins with a name character |
| Recognizers.IndentedIsNotFunctionLine | leakfinder_test.go:235-239 | a line starting with white space is never a function-call line |
| Recognizers.HeaderIsNotFunctionLine | leakfinder_test.go:181-250 | no line is both a header and a function call |
| Recognizers.FunctionLineAcceptsMain | leakfinder_test.go:225-229 | `main.main()` is a call of `main.main` without arguments |
| Recognizers.FunctionLineAcceptsArguments | leakfinder_test.go:230-234 | `fmt.Printf(0x1234, 0x5678)` is a call of `fmt.Printf` with argument text `0x1234, 0x5678` |
| Recognizers.FunctionLineRejectsLocation | leakfinder_test.go:235-239 | ` /path/to/file.go:123 +0x456` is not a function-call line |
| Patterns.KeepPatterns | leakfinder_test.go:109-153 | keeps no more items than it is given, and every item it keeps is non-empty, trimmed and comma-free |
| Patterns.ParsePatterns | leakfinder_test.go:109-153 | every parsed pattern is non-empty, trimmed and holds no comma |
| Patterns.KeepConcat | leakfinder_test.go:109-153 | each item is kept or dropped on its own: keeping the items of two lists is keeping each list's, in order |
| Patterns.PatternsConcat | leakfinder_test.go:109-153 | the patterns of two lists joined by a comma are the first list's followed by the second's |
| Patterns.PatternsOfItem | leakfinder_test.go:109-153 | a comma-free list yields its one item trimmed, or nothing when the item is blank |
| Patterns.BlankItemDropped | leakfinder_test.go:109-153 | a blank item between two lists is dropped and the patterns around it keep their order |
| Patterns.BlankHasNoPatterns | leakfinder_test.go:115-119 | a comma-free list of white space only yields no pattern |
| Patterns.BlankThenList | leakfinder_test.go:109-153 | a blank first item is dropped and the rest of the list parses as on its own |
| Patterns.KeepPadded | leakfinder_test.go:130-134 | trimming patterns wrapped in white space gives the patterns back, in order |
| Patterns.PaddedHasNoComma | leakfinder_test.go:130-134 | patterns wrapped in white space hold no comma |
| Patterns.PaddedRoundTrip | leakfinder_test.go:130-134 | patterns, each wrapped in white space and joined by commas, parse back to the patterns, in order |
| Patterns.RoundTrip | leakfinder_test.go:120-129 | patterns joined by commas parse back to the same patterns, in order |
| Patterns.ParseIdempotent | leakfinder_test.go:109-153 | re-joining parsed patterns and parsing again gives the same patterns |
| Patterns.EmptyHasNoPatterns | leakfinder_test.go:115-119 | the empty list gives no pattern, not one empty pattern |
| Patterns.SinglePattern | leakfinder_test.go:120-124 | `pattern1` gives the one pattern `pattern1` |
| Patterns.ThreePatterns | leakfinder_test.go:125-129 | `pattern1,pattern2,pattern3` gives the three patterns, in order |
| Patterns.ThreeSpacedPatterns | leakfinder_test.go:130-134 | ` pattern1 , pattern2 , pattern3 ` gives the three trimmed patterns, in order |
| Text.TrimLeft | leakfinder_test.go:130-134 | the result is a suffix of the input, after only white space, and does not start with white space |
| Text.TrimRight | leakfinder_test.go:130-134 | the result is a prefix of the input, before only white space, and does not end with white space |
| Text.TrimSpace | leakfinder_test.go:130-134 | the result neither starts nor ends with white space |
| Text.TrimSpacePadded | leakfinder_test.go:130-134 | trimming removes exactly the white space around a trimmed core |
| Text.TrimSpaceExcludes | leakfinder_test.go:109-153 | trimming never introduces a character |
| Text.TrimSpaceEmpty | leakfinder_test.go:115-119 | a string trims to nothing exactly when it is all white space |
| Text.Split | leakfinder_test.go:109-153 | there is always at least one piece, and no piece holds the separator |
| Text.JoinSplit | leakfinder_test.go:109-153 | joining the pieces of a split gives back the text |
| Text.SplitJoin | leakfinder_test.go:109-153 | splitting a join of separator-free pieces gives back the pieces |
| Text.SplitAllSpace | leakfinder_test.go:50-54 | every piece of a split of white space is white space |
| Text.SplitConcat | leakfinder_test.go:64-70 | splitting at a separator in the middle splits each side on its own |
| Text.LeadingDigits | leakfinder_test.go:187-196 | the count of leading digits: all of them are digits, and the next character is not |
| Text.DecimalDigits | leakfinder_test.go:187-196 | the decimal text of a number is a non-empty digit string, starting with zero only for zero itself |
| Text.DecimalRoundTrip | leakfinder_test.go:187-196 | reading back the decimal text of a number gives the number |

## Left out

- The implementation file `leakfinder.go` is not part of this model. The rules above are those `leakfinder_test.go` asserts about its functions, plus the choices listed at the top.
- The HTTP client the toolkit holds (`client`) and all fetching from pprof endpoints: network I/O.
- The example web server under `example/`: its deliberate leaks, mutex-guarded map and HTTP listeners are concurrency and I/O.
- The benchmarks: they measure time only and assert nothing about results.
- Grouping by stack signature, severity classification, pattern-match flagging and the periodic monitor: nothing in the test file exercises them, so no rule could be stated for them.
- Toolkit.LeakDetectionToolkit.InternString: Go's "same backing string" identity is not expressible on Dafny values. The model states content equality and canonical cache entries instead.
- Configuration.DefaultConfig: the default thresholds (100/500/1000/5000 goroutines, 500/1000 memory) are this model's choice, since the tests do not fix them; its contract states only the URL and the timeout.
- Configuration.Config: `time.Duration` is modelled as a whole number of seconds, and memory thresholds as unbounded integers.
- Recognizers.ParseHeader: a goroutine ID is an unbounded natural. The 64-bit overflow of `strconv` on very long digit strings is not modelled.
- Recognizers.ParseFunctionLine: receiver methods such as `pkg.(*T).m(...)` and `created by` lines are not recognised as calls; they are lines of no interest.
- General regular-expression semantics: only the two fixed recognizers are modelled, as character-level rules.
- Any locking around `stringCache`: the model is sequential, so access to an interner shared between concurrent monitors is not modelled.
- Location lines (`file:line +0x..`) are recognised only as lines of no interest; their file and line are not stored in frames.
