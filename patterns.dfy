/** `parsePatterns`: the comma-separated list of suspect-leak patterns, split,
    trimmed, with the empty items dropped. */
module Patterns {
  import opened Text

  /** An item the parser can return: non-empty, trimmed, without a comma. */
  predicate IsPattern(p: string) {
    p != [] && Trimmed(p) && ',' !in p
  }

  predicate AllPatterns(ps: seq<string>) {
    forall i :: 0 <= i < |ps| ==> IsPattern(ps[i])
  }

  /** Items as the split at commas leaves them: none holds a comma. */
  predicate CommaFree(items: seq<string>) {
    forall i :: 0 <= i < |items| ==> ',' !in items[i]
  }

  lemma CommaFreeTail(items: seq<string>)
    requires items != [] && CommaFree(items)
    ensures ',' !in items[0] && CommaFree(items[1..])
  {
    assert forall i :: 0 <= i < |items| - 1 ==> items[1..][i] == items[i + 1];
  }

  lemma PatternsCons(p: string, rest: seq<string>)
    requires IsPattern(p) && AllPatterns(rest)
    ensures AllPatterns([p] + rest)
  {
    assert forall i :: 0 < i < |rest| + 1 ==> ([p] + rest)[i] == rest[i - 1];
  }

  /** The trimmed items, empty ones dropped, in their original order. */
  function KeepPatterns(items: seq<string>): (ps: seq<string>)
    requires CommaFree(items)
    ensures |ps| <= |items|
    ensures AllPatterns(ps)
  {
    if items == [] then []
    else
      CommaFreeTail(items);
      var p := TrimSpace(items[0]);
      TrimSpaceExcludes(items[0], ',');
      var rest := KeepPatterns(items[1..]);
      if p == [] then rest
      else
        PatternsCons(p, rest);
        [p] + rest
  }

  /** Splits the comma-separated text, trims each item and drops the empty
      ones. */
  function ParsePatterns(csv: string): (ps: seq<string>)
    ensures AllPatterns(ps)
  {
    KeepPatterns(Split(csv, ','))
  }

  lemma CommaFreeConcat(a: seq<string>, b: seq<string>)
    requires CommaFree(a) && CommaFree(b)
    ensures CommaFree(a + b)
  {
    forall i | 0 <= i < |a + b| ensures ',' !in (a + b)[i] {
      if i < |a| {
        assert (a + b)[i] == a[i];
      } else {
        assert (a + b)[i] == b[i - |a|];
      }
    }
  }

  /** What one item contributes: itself trimmed, or nothing when blank. */
  function Kept(item: string): (ps: seq<string>)
    ensures |ps| <= 1
  {
    if TrimSpace(item) == "" then [] else [TrimSpace(item)]
  }

  lemma KeepCons(items: seq<string>)
    requires items != [] && CommaFree(items)
    ensures CommaFree(items[1..])
    ensures KeepPatterns(items) == Kept(items[0]) + KeepPatterns(items[1..])
  {
    CommaFreeTail(items);
    assert [] + KeepPatterns(items[1..]) == KeepPatterns(items[1..]);
  }

  /** Keeping patterns distributes over concatenation: every item is kept or
      dropped on its own, and the kept ones stay in order. */
  lemma {:induction false} KeepConcat(a: seq<string>, b: seq<string>)
    requires CommaFree(a) && CommaFree(b)
    ensures CommaFree(a + b)
    ensures KeepPatterns(a + b) == KeepPatterns(a) + KeepPatterns(b)
  {
    CommaFreeConcat(a, b);
    if a == [] {
      assert a + b == b;
    } else {
      var ab := a + b;
      assert ab[0] == a[0] && ab[1..] == a[1..] + b;
      KeepCons(a);
      KeepCons(ab);
      KeepConcat(a[1..], b);
      Regroup3(Kept(a[0]), KeepPatterns(a[1..]), KeepPatterns(b));
    }
  }

  lemma Regroup3<T>(x: seq<T>, y: seq<T>, z: seq<T>)
    ensures x + (y + z) == x + y + z
  {
  }

  /** The patterns of two lists joined by a comma are those of the first
      followed by those of the second. */
  lemma PatternsConcat(x: string, y: string)
    ensures ParsePatterns(x + "," + y) == ParsePatterns(x) + ParsePatterns(y)
  {
    assert x + "," + y == x + [','] + y;
    SplitConcat(x, y, ',');
    KeepConcat(Split(x, ','), Split(y, ','));
  }

  /** A list of one item yields that item trimmed, or nothing when it is
      blank. */
  lemma PatternsOfItem(s: string)
    requires ',' !in s
    ensures ParsePatterns(s) == (if TrimSpace(s) == "" then [] else [TrimSpace(s)])
  {
    SplitNone(s, ',');
    assert [s][1..] == [];
  }

  /** A blank item between two lists is dropped; the items around it keep
      their order. */
  lemma BlankItemDropped(x: string, blank: string, y: string)
    requires ',' !in blank && AllSpace(blank)
    ensures ParsePatterns(x + "," + blank + "," + y) == ParsePatterns(x) + ParsePatterns(y)
  {
    CommaAssoc(x, blank, y);
    PatternsConcat(x, blank + "," + y);
    BlankThenList(blank, y);
  }

  lemma CommaAssoc(x: string, blank: string, y: string)
    ensures x + "," + blank + "," + y == x + "," + (blank + "," + y)
  {
  }

  /** A blank list yields no pattern. */
  lemma BlankHasNoPatterns(blank: string)
    requires ',' !in blank && AllSpace(blank)
    ensures ParsePatterns(blank) == []
  {
    TrimSpaceEmpty(blank);
    PatternsOfItem(blank);
  }

  lemma BlankThenList(blank: string, y: string)
    requires ',' !in blank && AllSpace(blank)
    ensures ParsePatterns(blank + "," + y) == ParsePatterns(y)
  {
    PatternsConcat(blank, y);
    BlankHasNoPatterns(blank);
    assert [] + ParsePatterns(y) == ParsePatterns(y);
  }

  /** Each pattern wrapped in its own white space padding. */
  function Padded(ps: seq<string>, lefts: seq<string>, rights: seq<string>): (items: seq<string>)
    requires |lefts| == |ps| && |rights| == |ps|
    ensures |items| == |ps|
  {
    if ps == [] then [] else [lefts[0] + ps[0] + rights[0]] + Padded(ps[1..], lefts[1..], rights[1..])
  }

  predicate AllPadding(pads: seq<string>) {
    forall i :: 0 <= i < |pads| ==> AllSpace(pads[i])
  }

  lemma PatternsTail(ps: seq<string>)
    requires ps != [] && AllPatterns(ps)
    ensures IsPattern(ps[0]) && AllPatterns(ps[1..])
  {
    assert forall i :: 0 <= i < |ps| - 1 ==> ps[1..][i] == ps[i + 1];
  }

  lemma PaddingTail(pads: seq<string>)
    requires pads != [] && AllPadding(pads)
    ensures AllSpace(pads[0]) && AllPadding(pads[1..])
  {
    assert forall i :: 0 <= i < |pads| - 1 ==> pads[1..][i] == pads[i + 1];
  }

  /** Trimming padded patterns gives the patterns back, in order. */
  lemma PaddedCons(ps: seq<string>, lefts: seq<string>, rights: seq<string>)
    requires |lefts| == |ps| && |rights| == |ps| && ps != []
    ensures var items := Padded(ps, lefts, rights);
            items[0] == lefts[0] + ps[0] + rights[0]
            && items[1..] == Padded(ps[1..], lefts[1..], rights[1..])
  {
  }

  lemma {:induction false} KeepPadded(ps: seq<string>, lefts: seq<string>, rights: seq<string>)
    requires |lefts| == |ps| && |rights| == |ps|
    requires AllPatterns(ps) && AllPadding(lefts) && AllPadding(rights)
    requires CommaFree(Padded(ps, lefts, rights))
    ensures KeepPatterns(Padded(ps, lefts, rights)) == ps
  {
    if ps != [] {
      var items := Padded(ps, lefts, rights);
      PaddedCons(ps, lefts, rights);
      PatternsTail(ps);
      PaddingTail(lefts);
      PaddingTail(rights);
      CommaFreeTail(items);
      TrimSpacePadded(lefts[0], ps[0], rights[0]);
      KeepPadded(ps[1..], lefts[1..], rights[1..]);
      assert ps == [ps[0]] + ps[1..];
    }
  }

  lemma {:induction false} PaddedHasNoComma(ps: seq<string>, lefts: seq<string>, rights: seq<string>)
    requires |lefts| == |ps| && |rights| == |ps|
    requires AllPatterns(ps) && AllPadding(lefts) && AllPadding(rights)
    ensures CommaFree(Padded(ps, lefts, rights))
  {
    if ps != [] {
      PatternsTail(ps);
      PaddingTail(lefts);
      PaddingTail(rights);
      PaddedHasNoComma(ps[1..], lefts[1..], rights[1..]);
      var items := Padded(ps, lefts, rights);
      var tail := Padded(ps[1..], lefts[1..], rights[1..]);
      assert items == [lefts[0] + ps[0] + rights[0]] + tail;
      assert ',' !in items[0] by {
        assert ',' !in lefts[0] && ',' !in rights[0];
      }
      forall i | 1 <= i < |ps| ensures ',' !in items[i] {
        assert items[i] == tail[i - 1];
      }
    }
  }

  /** Joining patterns with commas, each padded with white space on either
      side, and parsing the text gives the patterns back, in order. */
  lemma PaddedRoundTrip(ps: seq<string>, lefts: seq<string>, rights: seq<string>)
    requires |lefts| == |ps| && |rights| == |ps|
    requires AllPatterns(ps) && AllPadding(lefts) && AllPadding(rights)
    ensures ParsePatterns(Join(Padded(ps, lefts, rights), ',')) == ps
  {
    var items := Padded(ps, lefts, rights);
    PaddedHasNoComma(ps, lefts, rights);
    if ps == [] {
      assert Join(items, ',') == "";
      assert Split("", ',') == [""];
      assert TrimSpace("") == "";
    } else {
      SplitJoin(items, ',');
      KeepPadded(ps, lefts, rights);
    }
  }

  /** Patterns without padding survive a join and a parse unchanged. */
  lemma RoundTrip(ps: seq<string>)
    requires AllPatterns(ps)
    ensures ParsePatterns(Join(ps, ',')) == ps
  {
    var none := seq(|ps|, _ => "");
    assert Padded(ps, none, none) == ps by {
      PaddedEmpty(ps);
    }
    PaddedRoundTrip(ps, none, none);
  }

  lemma {:induction false} PaddedEmpty(ps: seq<string>)
    ensures Padded(ps, seq(|ps|, _ => ""), seq(|ps|, _ => "")) == ps
  {
    if ps != [] {
      var none := seq(|ps|, _ => "");
      assert none[1..] == seq(|ps| - 1, _ => "");
      PaddedEmpty(ps[1..]);
      assert "" + ps[0] + "" == ps[0];
      assert ps == [ps[0]] + ps[1..];
    }
  }

  /** Parsing is idempotent: re-joining the parsed patterns and parsing
      again changes nothing. */
  lemma ParseIdempotent(csv: string)
    ensures ParsePatterns(Join(ParsePatterns(csv), ',')) == ParsePatterns(csv)
  {
    RoundTrip(ParsePatterns(csv));
  }

  /** The empty list yields no pattern at all, not one empty pattern. */
  lemma EmptyHasNoPatterns()
    ensures ParsePatterns("") == []
  {
    assert Split("", ',') == [""];
    assert TrimSpace("") == "";
  }

  /** A single pattern. */
  lemma SinglePattern()
    ensures ParsePatterns("pattern1") == ["pattern1"]
  {
    assert Join(["pattern1"], ',') == "pattern1";
    RoundTrip(["pattern1"]);
  }

  /** Three patterns joined by commas. */
  lemma ThreePatterns()
    ensures ParsePatterns("pattern1" + "," + "pattern2" + "," + "pattern3") == ["pattern1", "pattern2", "pattern3"]
  {
    var ps := ["pattern1", "pattern2", "pattern3"];
    assert AllPatterns(ps);
    JoinThree(ps[0], ps[1], ps[2], ',');
    RoundTrip(ps);
  }

  lemma ThreeSpacedItems()
    ensures Padded(["pattern1", "pattern2", "pattern3"], [" ", " ", " "], [" ", " ", " "])
         == [" pattern1 ", " pattern2 ", " pattern3 "]
  {
    var ps := ["pattern1", "pattern2", "pattern3"];
    var pads := [" ", " ", " "];
    assert ps[1..] == ["pattern2", "pattern3"] && ps[1..][1..] == ["pattern3"];
    assert pads[1..] == [" ", " "] && pads[1..][1..] == [" "];
    assert " " + "pattern1" + " " == " pattern1 ";
    assert " " + "pattern2" + " " == " pattern2 ";
    assert " " + "pattern3" + " " == " pattern3 ";
    assert Padded(["pattern3"], [" "], [" "]) == [" pattern3 "];
    assert Padded(["pattern2", "pattern3"], [" ", " "], [" ", " "]) == [" pattern2 ", " pattern3 "];
  }

  /** Three patterns padded with single spaces are trimmed. */
  lemma ThreeSpacedPatterns()
    ensures ParsePatterns(" pattern1 " + "," + " pattern2 " + "," + " pattern3 ") == ["pattern1", "pattern2", "pattern3"]
  {
    var ps := ["pattern1", "pattern2", "pattern3"];
    var pads := [" ", " ", " "];
    assert AllPatterns(ps) && AllPadding(pads);
    ThreeSpacedItems();
    JoinThree(" pattern1 ", " pattern2 ", " pattern3 ", ',');
    PaddedRoundTrip(ps, pads, pads);
  }
}
