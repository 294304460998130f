/** The Go primitives this model uses, with Go's semantics:
    `unicode.IsSpace`, `strings.TrimSpace`, `strings.Split` and `strings.Join`
    on one separator character, and decimal digit strings. */
module Text {

  /** Go's `unicode.IsSpace`: the ASCII white space characters, NEL, NBSP and
      the other characters with the Unicode White_Space property. */
  predicate IsSpace(c: char) {
    || c == ' ' || c == '\t' || c == '\n' || c == '\r'
    || c == '\U{000B}' || c == '\U{000C}' || c == '\U{0085}' || c == '\U{00A0}'
    || c == '\U{1680}' || ('\U{2000}' <= c <= '\U{200A}')
    || c == '\U{2028}' || c == '\U{2029}' || c == '\U{202F}' || c == '\U{205F}'
    || c == '\U{3000}'
  }

  predicate AllSpace(s: string) {
    forall i :: 0 <= i < |s| ==> IsSpace(s[i])
  }

  /** Neither end of `s` is white space. */
  predicate Trimmed(s: string) {
    s == [] || (!IsSpace(s[0]) && !IsSpace(s[|s| - 1]))
  }

  /** `s` without its leading white space. */
  function TrimLeft(s: string): (r: string)
    ensures |r| <= |s| && r == s[|s| - |r|..]
    ensures AllSpace(s[..|s| - |r|])
    ensures r == [] || !IsSpace(r[0])
  {
    if s == [] || !IsSpace(s[0]) then s else TrimLeft(s[1..])
  }

  /** `s` without its trailing white space. */
  function TrimRight(s: string): (r: string)
    ensures |r| <= |s| && r == s[..|r|]
    ensures AllSpace(s[|r|..])
    ensures r == [] || !IsSpace(r[|r| - 1])
  {
    if s == [] || !IsSpace(s[|s| - 1]) then s
    else
      var r := TrimRight(s[..|s| - 1]);
      SpaceSnoc(s, |r|);
      r
  }

  /** White space after position `k` of all but the last character, and a
      last character of white space, is white space after `k` of all of it. */
  lemma SpaceSnoc(s: string, k: nat)
    requires 0 < |s| && k <= |s| - 1
    requires AllSpace(s[..|s| - 1][k..]) && IsSpace(s[|s| - 1])
    ensures AllSpace(s[k..]) && s[..|s| - 1][..k] == s[..k]
  {
    forall i | 0 <= i < |s| - k ensures IsSpace(s[k..][i]) {
      if i < |s| - 1 - k {
        assert s[k..][i] == s[..|s| - 1][k..][i];
      }
    }
  }

  /** Go's `strings.TrimSpace`. */
  function TrimSpace(s: string): (r: string)
    ensures Trimmed(r)
  {
    TrimRight(TrimLeft(s))
  }

  lemma {:induction false} TrimLeftPadded(pad: string, t: string)
    requires AllSpace(pad)
    requires t == [] || !IsSpace(t[0])
    ensures TrimLeft(pad + t) == t
  {
    if pad != [] {
      assert (pad + t)[1..] == pad[1..] + t;
      TrimLeftPadded(pad[1..], t);
    } else {
      assert pad + t == t;
    }
  }

  lemma {:induction false} TrimRightPadded(t: string, pad: string)
    requires AllSpace(pad)
    requires t == [] || !IsSpace(t[|t| - 1])
    ensures TrimRight(t + pad) == t
  {
    if pad != [] {
      assert (t + pad)[..|t + pad| - 1] == t + pad[..|pad| - 1];
      TrimRightPadded(t, pad[..|pad| - 1]);
    } else {
      assert t + pad == t;
    }
  }

  /** Trimming removes exactly the white space around a trimmed core. */
  lemma TrimSpacePadded(left: string, core: string, right: string)
    requires AllSpace(left) && AllSpace(right) && Trimmed(core)
    ensures TrimSpace(left + core + right) == core
  {
    if core == [] {
      assert left + core + right == left + right;
      assert AllSpace(left + right);
      TrimLeftPadded(left + right, []);
      assert left + right + [] == left + right;
    } else {
      assert left + core + right == left + (core + right);
      TrimLeftPadded(left, core + right);
      TrimRightPadded(core, right);
    }
  }

  /** Trimming never introduces a character. */
  lemma TrimSpaceExcludes(s: string, c: char)
    requires c !in s
    ensures c !in TrimSpace(s)
  {
  }

  /** A string trims to nothing exactly when it is all white space. */
  lemma TrimSpaceEmpty(s: string)
    ensures TrimSpace(s) == [] <==> AllSpace(s)
  {
    if AllSpace(s) {
      assert s == s + [] + [];
      TrimSpacePadded(s, [], []);
    }
  }

  /** Go's `strings.Split(s, string(sep))`: the pieces between the
      separators; there is always at least one. */
  function Split(s: string, sep: char): (parts: seq<string>)
    ensures |parts| >= 1
    ensures forall i :: 0 <= i < |parts| ==> sep !in parts[i]
  {
    if s == [] then [""]
    else
      var rest := Split(s[1..], sep);
      if s[0] == sep then [""] + rest
      else [[s[0]] + rest[0]] + rest[1..]
  }

  /** Go's `strings.Join(parts, string(sep))`. */
  function Join(parts: seq<string>, sep: char): string {
    if |parts| == 0 then ""
    else if |parts| == 1 then parts[0]
    else parts[0] + [sep] + Join(parts[1..], sep)
  }

  /** Three pieces joined. */
  lemma JoinThree(a: string, b: string, c: string, sep: char)
    ensures Join([a, b, c], sep) == a + [sep] + b + [sep] + c
  {
    var parts := [a, b, c];
    assert parts[1..] == [b, c] && parts[1..][1..] == [c];
    assert Join(parts[1..], sep) == b + [sep] + c;
    assert a + [sep] + (b + [sep] + c) == a + [sep] + b + [sep] + c;
  }

  /** Joining the pieces of a split gives back the original text. */
  lemma {:induction false} JoinSplit(s: string, sep: char)
    ensures Join(Split(s, sep), sep) == s
  {
    if s != [] {
      var rest := Split(s[1..], sep);
      JoinSplit(s[1..], sep);
      assert Join(rest, sep) == s[1..];
      if s[0] == sep {
        var parts := [""] + rest;
        assert Split(s, sep) == parts;
        assert parts[1..] == rest;
        assert Join(parts, sep) == "" + [sep] + Join(rest, sep);
        assert s == [s[0]] + s[1..];
      } else {
        var parts := [[s[0]] + rest[0]] + rest[1..];
        assert Split(s, sep) == parts;
        assert parts[1..] == rest[1..];
        if |rest| == 1 {
          assert Join(parts, sep) == [s[0]] + rest[0];
        } else {
          assert Join(rest, sep) == rest[0] + [sep] + Join(rest[1..], sep);
          assert Join(parts, sep) == [s[0]] + rest[0] + [sep] + Join(rest[1..], sep);
        }
        assert s == [s[0]] + s[1..];
      }
    }
  }

  lemma {:induction false} SplitPrefix(a: string, t: string, sep: char)
    requires sep !in a
    ensures Split(a + t, sep) == [a + Split(t, sep)[0]] + Split(t, sep)[1..]
  {
    if a == [] {
      var parts := Split(t, sep);
      assert a + t == t;
      assert a + parts[0] == parts[0];
      assert parts == [parts[0]] + parts[1..];
    } else {
      assert (a + t)[0] == a[0];
      assert (a + t)[1..] == a[1..] + t;
      SplitPrefix(a[1..], t, sep);
      assert [a[0]] + (a[1..] + Split(t, sep)[0]) == a + Split(t, sep)[0];
    }
  }

  /** A text without the separator is a single piece. */
  lemma SplitNone(s: string, sep: char)
    requires sep !in s
    ensures Split(s, sep) == [s]
  {
    SplitPrefix(s, [], sep);
    assert s + [] == s;
    assert Split([], sep) == [""];
    assert s + "" == s;
  }

  /** A leading separator splits off an empty first piece. */
  lemma SplitSep(t: string, sep: char)
    ensures Split([sep] + t, sep) == [""] + Split(t, sep)
  {
    assert ([sep] + t)[1..] == t;
  }

  /** Any other leading character joins the first piece. */
  lemma SplitOther(c: char, t: string, sep: char)
    requires c != sep
    ensures Split([c] + t, sep) == [[c] + Split(t, sep)[0]] + Split(t, sep)[1..]
  {
    assert ([c] + t)[0] == c && ([c] + t)[1..] == t;
  }

  lemma Regroup<T>(a: seq<T>, b: seq<T>, c: seq<T>, d: seq<T>)
    ensures a + b + c + d == a + (b + c + d)
  {
  }

  lemma ConcatStepSep(r: string, y: string, sep: char)
    requires Split(r + [sep] + y, sep) == Split(r, sep) + Split(y, sep)
    ensures Split([sep] + r + [sep] + y, sep) == Split([sep] + r, sep) + Split(y, sep)
  {
    Regroup([sep], r, [sep], y);
    SplitSep(r + [sep] + y, sep);
    SplitSep(r, sep);
    Regroup([""], Split(r, sep), [], Split(y, sep));
  }

  /** Extending the first piece of a concatenation of splits. */
  lemma ExtendFirst(c: char, sx: seq<string>, sy: seq<string>)
    requires sx != []
    ensures [[c] + (sx + sy)[0]] + (sx + sy)[1..] == [[c] + sx[0]] + sx[1..] + sy
  {
    assert (sx + sy)[0] == sx[0];
    assert (sx + sy)[1..] == sx[1..] + sy;
  }

  lemma ConcatStepOther(c: char, r: string, y: string, sep: char)
    requires c != sep
    requires Split(r + [sep] + y, sep) == Split(r, sep) + Split(y, sep)
    ensures Split([c] + r + [sep] + y, sep) == Split([c] + r, sep) + Split(y, sep)
  {
    assert [c] + r + [sep] + y == [c] + (r + [sep] + y);
    SplitOther(c, r + [sep] + y, sep);
    SplitOther(c, r, sep);
    ExtendFirst(c, Split(r, sep), Split(y, sep));
  }

  /** Splitting at a separator splits the pieces on either side of it. */
  /** Splitting white space gives pieces of white space only. */
  lemma {:induction false} SplitAllSpace(s: string, sep: char)
    requires AllSpace(s)
    ensures forall i :: 0 <= i < |Split(s, sep)| ==> AllSpace(Split(s, sep)[i])
  {
    if s != [] {
      var rest := Split(s[1..], sep);
      assert AllSpace(s[1..]) by {
        forall i | 0 <= i < |s| - 1 ensures IsSpace(s[1..][i]) {
          assert s[1..][i] == s[i + 1];
        }
      }
      SplitAllSpace(s[1..], sep);
      var parts := Split(s, sep);
      if s[0] == sep {
        assert parts == [""] + rest;
        forall i | 0 < i < |parts| ensures AllSpace(parts[i]) {
          assert parts[i] == rest[i - 1];
        }
      } else {
        var first := [s[0]] + rest[0];
        assert parts == [first] + rest[1..];
        assert AllSpace(first) by {
          forall j | 0 < j < |first| ensures IsSpace(first[j]) {
            assert first[j] == rest[0][j - 1];
          }
        }
        forall i | 0 < i < |parts| ensures AllSpace(parts[i]) {
          assert parts[i] == rest[i];
        }
      }
    }
  }

  lemma {:induction false} SplitConcat(x: string, y: string, sep: char)
    ensures Split(x + [sep] + y, sep) == Split(x, sep) + Split(y, sep)
  {
    if x == [] {
      assert x + [sep] + y == [sep] + y;
      SplitSep(y, sep);
    } else {
      SplitConcat(x[1..], y, sep);
      assert x == [x[0]] + x[1..];
      if x[0] == sep {
        ConcatStepSep(x[1..], y, sep);
      } else {
        ConcatStepOther(x[0], x[1..], y, sep);
      }
    }
  }

  /** Splitting a join gives back the pieces, when none holds the separator. */
  lemma {:induction false} SplitJoin(parts: seq<string>, sep: char)
    requires |parts| >= 1
    requires forall i :: 0 <= i < |parts| ==> sep !in parts[i]
    ensures Split(Join(parts, sep), sep) == parts
  {
    if |parts| == 1 {
      SplitNone(parts[0], sep);
    } else {
      var tail := parts[1..];
      var j := Join(tail, sep);
      assert forall i :: 0 <= i < |tail| ==> sep !in tail[i] by {
        forall i | 0 <= i < |tail| ensures sep !in tail[i] {
          assert tail[i] == parts[i + 1];
        }
      }
      SplitJoin(tail, sep);
      assert Join(parts, sep) == parts[0] + ([sep] + j);
      SplitPrefix(parts[0], [sep] + j, sep);
      SplitSep(j, sep);
      var sj := Split([sep] + j, sep);
      assert sj[0] == "" && sj[1..] == tail;
      assert parts[0] + sj[0] == parts[0];
      assert parts == [parts[0]] + tail;
    }
  }

  predicate IsDigit(c: char) {
    '0' <= c <= '9'
  }

  predicate AllDigits(s: string) {
    forall i :: 0 <= i < |s| ==> IsDigit(s[i])
  }

  /** The number of leading decimal digits of `s`. */
  function LeadingDigits(s: string): (n: nat)
    ensures n <= |s|
    ensures AllDigits(s[..n])
    ensures n < |s| ==> !IsDigit(s[n])
  {
    if s == [] || !IsDigit(s[0]) then 0
    else
      var k := LeadingDigits(s[1..]);
      assert s[..k + 1] == [s[0]] + s[1..][..k];
      k + 1
  }

  /** The digits of a digit string followed by a non-digit are exactly its own. */
  lemma {:induction false} LeadingDigitsOf(ds: string, t: string)
    requires AllDigits(ds)
    requires t == [] || !IsDigit(t[0])
    ensures LeadingDigits(ds + t) == |ds|
  {
    if ds == [] {
      assert ds + t == t;
    } else {
      assert (ds + t)[1..] == ds[1..] + t;
      LeadingDigitsOf(ds[1..], t);
    }
  }

  function DigitValue(c: char): (v: nat)
    requires IsDigit(c)
    ensures v < 10
  {
    (c as int) - ('0' as int)
  }

  function DigitChar(v: nat): (c: char)
    requires v < 10
    ensures IsDigit(c) && DigitValue(c) == v
  {
    ('0' as int + v) as char
  }

  /** The value of a decimal digit string (Go's `strconv.Atoi` on digits). */
  function DecimalValue(ds: string): nat
    requires AllDigits(ds)
  {
    if ds == [] then 0 else 10 * DecimalValue(ds[..|ds| - 1]) + DigitValue(ds[|ds| - 1])
  }

  /** The shortest decimal digit string of `n` (Go's `strconv.Itoa`): only
      zero itself starts with the digit zero. */
  function DecimalDigits(n: nat): (ds: string)
    ensures ds != [] && AllDigits(ds)
    ensures ds[0] == '0' ==> n == 0
  {
    if n < 10 then [DigitChar(n)] else DecimalDigits(n / 10) + [DigitChar(n % 10)]
  }

  /** Reading back the digits of `n` gives `n`. */
  lemma {:induction false} DecimalRoundTrip(n: nat)
    ensures DecimalValue(DecimalDigits(n)) == n
  {
    if n >= 10 {
      var ds := DecimalDigits(n);
      assert ds[..|ds| - 1] == DecimalDigits(n / 10);
      DecimalRoundTrip(n / 10);
    }
  }
}
