/** Optional values: a JavaScript key that may be absent, or a call that may fail. */
module Wrappers {
  datatype Option<+T> = None | Some(value: T) {
    function GetOr(default: T): T {
      match this
      case Some(v) => v
      case None => default
    }
  }
}

/** Number helpers shared by the coordinate and layout arithmetic. */
module Numeric {
  function Min(a: real, b: real): real { if a <= b then a else b }
  function Max(a: real, b: real): real { if a >= b then a else b }

  /** `Math.max(lo, Math.min(hi, x))`. */
  function Clamp(lo: real, hi: real, x: real): (r: real)
    requires lo <= hi
    ensures lo <= r <= hi
    ensures lo <= x <= hi ==> r == x
    ensures x < lo ==> r == lo
    ensures x > hi ==> r == hi
  {
    Max(lo, Min(hi, x))
  }

  /** JavaScript's `Math.round`: the nearest integer, halves rounded towards +infinity. */
  function Round(x: real): (r: int)
    ensures x - 0.5 < r as real <= x + 0.5
  {
    (x + 0.5).Floor
  }

  /** Round is determined by the interval its result lies in. */
  lemma RoundIs(x: real, n: int)
    requires n as real - 0.5 <= x < n as real + 0.5
    ensures Round(x) == n
  {
  }

  lemma RoundMonotone(a: real, b: real)
    requires a <= b
    ensures Round(a) <= Round(b)
  {
  }

  lemma ClampMonotone(lo: real, hi: real, a: real, b: real)
    requires lo <= hi && a <= b
    ensures Clamp(lo, hi, a) <= Clamp(lo, hi, b)
  {
  }

  /** JavaScript's `Math.floor`. */
  function Floor(x: real): (r: int)
    ensures r as real <= x < r as real + 1.0
  {
    x.Floor
  }
}

/** The string operations of JavaScript that the pipeline relies on. */
module Strings {
  /** A character of JavaScript's `\s` class, which is also the set `trim()` removes. */
  predicate IsSpace(c: char) {
    var n := c as int;
    n == 0x20 || (0x09 <= n <= 0x0D) || n == 0xA0 || n == 0x1680
    || (0x2000 <= n <= 0x200A) || n == 0x2028 || n == 0x2029 || n == 0x202F
    || n == 0x205F || n == 0x3000 || n == 0xFEFF
  }

  predicate AllSpace(s: string) {
    forall i :: 0 <= i < |s| ==> IsSpace(s[i])
  }

  /** The characters of `s` that are not whitespace, in order. */
  function NonWhite(s: string): (r: string)
    ensures |r| <= |s|
    ensures forall i :: 0 <= i < |r| ==> !IsSpace(r[i])
  {
    if s == [] then []
    else if IsSpace(s[0]) then NonWhite(s[1..])
    else [s[0]] + NonWhite(s[1..])
  }

  /** The concatenation of a sequence of strings. */
  function Flatten(xs: seq<string>): string {
    if xs == [] then [] else xs[0] + Flatten(xs[1..])
  }

  lemma {:induction false} NonWhiteAppend(a: string, b: string)
    ensures NonWhite(a + b) == NonWhite(a) + NonWhite(b)
  {
    if a == [] {
      assert a + b == b;
    } else {
      assert (a + b)[1..] == a[1..] + b;
      NonWhiteAppend(a[1..], b);
    }
  }

  lemma {:induction false} NonWhiteAllSpace(s: string)
    ensures AllSpace(s) <==> NonWhite(s) == []
  {
    if s != [] {
      NonWhiteAllSpace(s[1..]);
      if AllSpace(s[1..]) && IsSpace(s[0]) {
        assert AllSpace(s);
      }
    }
  }

  lemma {:induction false} FlattenAppend(a: seq<string>, b: seq<string>)
    ensures Flatten(a + b) == Flatten(a) + Flatten(b)
  {
    if a == [] {
      assert a + b == b;
    } else {
      assert (a + b)[1..] == a[1..] + b;
      FlattenAppend(a[1..], b);
    }
  }

  /** `NonWhite` applied to each string and the results flattened. */
  function NonWhiteAll(xs: seq<string>): string {
    if xs == [] then [] else NonWhite(xs[0]) + NonWhiteAll(xs[1..])
  }

  lemma {:induction false} NonWhiteFlatten(xs: seq<string>)
    ensures NonWhite(Flatten(xs)) == NonWhiteAll(xs)
  {
    if xs != [] {
      NonWhiteAppend(xs[0], Flatten(xs[1..]));
      NonWhiteFlatten(xs[1..]);
    }
  }

  lemma {:induction false} NonWhiteAllAppend(a: seq<string>, b: seq<string>)
    ensures NonWhiteAll(a + b) == NonWhiteAll(a) + NonWhiteAll(b)
  {
    if a == [] {
      assert a + b == b;
    } else {
      assert (a + b)[1..] == a[1..] + b;
      NonWhiteAllAppend(a[1..], b);
    }
  }

  lemma NonWhiteAllSnoc(xs: seq<string>, w: string)
    ensures NonWhiteAll(xs + [w]) == NonWhiteAll(xs) + NonWhite(w)
  {
    NonWhiteAllAppend(xs, [w]);
    assert NonWhiteAll([w]) == NonWhite(w) + NonWhiteAll([]);
  }

  /** Joining two strings with a space adds no visible character. */
  lemma NonWhiteSpaced(a: string, b: string)
    ensures NonWhite(a + " " + b) == NonWhite(a) + NonWhite(b)
  {
    NonWhiteAppend(a + " ", b);
    NonWhiteAppend(a, " ");
    assert NonWhite(" ") == NonWhite(" "[1..]);
  }

  // ---------------------------------------------------------------- trim

  /** `s` with its leading whitespace removed. */
  function TrimStart(s: string): (r: string)
    ensures |r| <= |s|
  {
    if s == [] || !IsSpace(s[0]) then s else TrimStart(s[1..])
  }

  /** TrimStart removes a run of whitespace from the front and stops at a visible character. */
  lemma {:induction false} TrimStartSpec(s: string)
    ensures TrimStart(s) == s[|s| - |TrimStart(s)|..]
    ensures AllSpace(s[..|s| - |TrimStart(s)|])
    ensures TrimStart(s) != [] ==> !IsSpace(TrimStart(s)[0])
  {
    if s != [] && IsSpace(s[0]) {
      TrimStartSpec(s[1..]);
      var r := TrimStart(s);
      assert s[..|s| - |r|] == [s[0]] + s[1..][..|s| - 1 - |r|];
    }
  }

  /** `s` with its trailing whitespace removed. */
  function TrimEnd(s: string): (r: string)
    ensures |r| <= |s|
  {
    if s == [] || !IsSpace(s[|s| - 1]) then s else TrimEnd(s[..|s| - 1])
  }

  /** TrimEnd removes a run of whitespace from the back and stops at a visible character. */
  lemma {:induction false} TrimEndSpec(s: string)
    ensures TrimEnd(s) == s[..|TrimEnd(s)|]
    ensures AllSpace(s[|TrimEnd(s)|..])
    ensures TrimEnd(s) != [] ==> !IsSpace(TrimEnd(s)[|TrimEnd(s)| - 1])
  {
    if s != [] && IsSpace(s[|s| - 1]) {
      var t := TrimEnd(s[..|s| - 1]);
      TrimEndSpec(s[..|s| - 1]);
      assert s[..|s| - 1][..|t|] == s[..|t|];
      assert s[|t|..] == s[..|s| - 1][|t|..] + [s[|s| - 1]];
    }
  }

  /** JavaScript's `String.prototype.trim`. */
  function Trim(s: string): (r: string) {
    TrimEnd(TrimStart(s))
  }

  /** Trim keeps the contiguous block `s[a..b]` of `s` and removes only whitespace around it. */
  lemma TrimBlock(s: string) returns (a: int, b: int)
    ensures 0 <= a <= b <= |s| && Trim(s) == s[a..b]
    ensures AllSpace(s[..a]) && AllSpace(s[b..])
  {
    var t := TrimStart(s);
    TrimStartSpec(s);
    a := |s| - |t|;
    var r := TrimEnd(t);
    TrimEndSpec(t);
    b := a + |r|;
    assert r == s[a..b];
    assert s[b..] == t[|r|..];
  }

  lemma TrimNonWhite(s: string)
    ensures NonWhite(Trim(s)) == NonWhite(s)
  {
    var t := TrimStart(s);
    var r := TrimEnd(t);
    TrimEndSpec(t);
    TrimStartNonWhite(s);
    assert t == r + t[|r|..];
    NonWhiteAppend(r, t[|r|..]);
    NonWhiteAllSpace(t[|r|..]);
  }

  lemma TrimEnds(s: string)
    ensures Trim(s) != [] ==> !IsSpace(Trim(s)[0]) && !IsSpace(Trim(s)[|Trim(s)| - 1])
  {
    var t := TrimStart(s);
    var r := TrimEnd(t);
    TrimStartSpec(s);
    TrimEndSpec(t);
    if r != [] {
      assert r[0] == t[0];
    }
  }

  lemma TrimEmpty(s: string)
    ensures Trim(s) == [] <==> AllSpace(s)
  {
    TrimEnds(s);
    TrimNonWhite(s);
    NonWhiteAllSpace(s);
    NonWhiteAllSpace(Trim(s));
  }

  /** Trim leaves no whitespace at either end, keeps every visible character, and is empty
      exactly for all-whitespace input. */
  lemma TrimSpec(s: string)
    ensures Trim(s) != [] ==> !IsSpace(Trim(s)[0]) && !IsSpace(Trim(s)[|Trim(s)| - 1])
    ensures NonWhite(Trim(s)) == NonWhite(s)
    ensures Trim(s) == [] <==> AllSpace(s)
  {
    TrimEnds(s);
    TrimNonWhite(s);
    TrimEmpty(s);
  }

  lemma TrimStartNonWhite(s: string)
    ensures NonWhite(TrimStart(s)) == NonWhite(s)
  {
    var t := TrimStart(s);
    TrimStartSpec(s);
    assert s == s[..|s| - |t|] + t;
    NonWhiteAppend(s[..|s| - |t|], t);
    NonWhiteAllSpace(s[..|s| - |t|]);
  }

  // ---------------------------------------------------------------- whitespace collapsing

  /** Every whitespace character is a plain space and no two whitespace characters are adjacent. */
  predicate Collapsed(s: string) {
    forall i :: 0 <= i < |s| && IsSpace(s[i]) ==> s[i] == ' ' && (i + 1 < |s| ==> !IsSpace(s[i + 1]))
  }

  /** `s.replace(/\s+/g, ' ')`: each maximal run of whitespace becomes one space. */
  function Collapse(s: string): string
    decreases |s|
  {
    if s == [] then []
    else if IsSpace(s[0]) then [' '] + Collapse(TrimStart(s[1..]))
    else [s[0]] + Collapse(s[1..])
  }

  lemma {:induction false} CollapseSpec(s: string)
    ensures Collapsed(Collapse(s))
    ensures NonWhite(Collapse(s)) == NonWhite(s)
    ensures Collapse(s) != [] && IsSpace(Collapse(s)[0]) ==> IsSpace(s[0])
    decreases |s|
  {
    if s != [] {
      if IsSpace(s[0]) {
        var rest := TrimStart(s[1..]);
        TrimStartSpec(s[1..]);
        CollapseSpec(rest);
        TrimStartNonWhite(s[1..]);
        NonWhiteAppend(" ", Collapse(rest));
        assert s == [s[0]] + s[1..];
        NonWhiteAppend([s[0]], s[1..]);
      } else {
        CollapseSpec(s[1..]);
        NonWhiteAppend([s[0]], Collapse(s[1..]));
        assert s == [s[0]] + s[1..];
        NonWhiteAppend([s[0]], s[1..]);
      }
    }
  }

  lemma CollapsedSlice(s: string, a: int, b: int)
    requires 0 <= a <= b <= |s| && Collapsed(s)
    ensures Collapsed(s[a..b])
  {
    var t := s[a..b];
    forall i | 0 <= i < |t| && IsSpace(t[i])
      ensures t[i] == ' ' && (i + 1 < |t| ==> !IsSpace(t[i + 1]))
    {
      assert t[i] == s[a + i];
      if i + 1 < |t| { assert t[i + 1] == s[a + i + 1]; }
    }
  }

  /** `s.replace(/\s+/g, ' ').trim()`. */
  function Normalize(s: string): (r: string) {
    Trim(Collapse(s))
  }

  /** A normalized string keeps every visible character of its input, in order, has no
      whitespace at either end, and separates words by exactly one plain space. */
  lemma NormalizeEmpty(s: string)
    ensures Normalize(s) == [] <==> NonWhite(s) == []
  {
    CollapseSpec(s);
    TrimNonWhite(Collapse(s));
    NonWhiteAllSpace(Normalize(s));
  }

  lemma NormalizeSpec(s: string)
    ensures Collapsed(Normalize(s))
    ensures NonWhite(Normalize(s)) == NonWhite(s)
    ensures Normalize(s) != [] ==> !IsSpace(Normalize(s)[0]) && !IsSpace(Normalize(s)[|Normalize(s)| - 1])
    ensures Normalize(s) == [] <==> NonWhite(s) == []
  {
    var c := Collapse(s);
    CollapseSpec(s);
    TrimEnds(c);
    TrimNonWhite(c);
    var a, b := TrimBlock(c);
    CollapsedSlice(c, a, b);
    NormalizeEmpty(s);
  }

  // ---------------------------------------------------------------- join and split

  /** JavaScript's `Array.prototype.join(sep)`. */
  function Join(xs: seq<string>, sep: string): (r: string) {
    if xs == [] then []
    else if |xs| == 1 then xs[0]
    else xs[0] + sep + Join(xs[1..], sep)
  }

  lemma {:induction false} NonWhiteJoin(xs: seq<string>)
    ensures NonWhite(Join(xs, " ")) == NonWhiteAll(xs)
  {
    if |xs| == 1 {
      assert NonWhiteAll(xs) == NonWhite(xs[0]) + NonWhiteAll([]);
    } else if |xs| > 1 {
      NonWhiteJoin(xs[1..]);
      NonWhiteAppend(xs[0] + " ", Join(xs[1..], " "));
      NonWhiteAppend(xs[0], " ");
      assert NonWhite(" ") == [];
    }
  }

  /** JavaScript's `s.split(c)` for a one-character separator. */
  function Split(s: string, c: char): (r: seq<string>)
    ensures |r| >= 1
    ensures forall i :: 0 <= i < |r| ==> c !in r[i]
  {
    if s == [] then [[]]
    else
      var rest := Split(s[1..], c);
      if s[0] == c then [[]] + rest
      else [[s[0]] + rest[0]] + rest[1..]
  }

  /** Splitting and joining again with the same separator gives back the string. */
  lemma {:induction false} JoinSplit(s: string, c: char)
    ensures Join(Split(s, c), [c]) == s
  {
    if s != [] {
      var rest := Split(s[1..], c);
      JoinSplit(s[1..], c);
      if s[0] == c {
        assert Split(s, c) == [[]] + rest;
        assert ([[]] + rest)[1..] == rest;
      } else {
        var r := Split(s, c);
        assert r == [[s[0]] + rest[0]] + rest[1..];
        if |rest| == 1 {
          assert Join(rest, [c]) == rest[0];
        } else {
          assert r[1..] == rest[1..];
          assert Join(rest, [c]) == rest[0] + [c] + Join(rest[1..], [c]);
        }
      }
    }
  }

  /** Every character of every piece comes from the string split. */
  lemma {:induction false} SplitPieces(s: string, c: char)
    ensures forall i, k :: 0 <= i < |Split(s, c)| && 0 <= k < |Split(s, c)[i]| ==> Split(s, c)[i][k] in s
  {
    if s != [] {
      SplitPieces(s[1..], c);
      var rest := Split(s[1..], c);
      var r := Split(s, c);
      forall i, k | 0 <= i < |r| && 0 <= k < |r[i]| ensures r[i][k] in s {
        if s[0] == c {
          assert r[i] == rest[i - 1];
          assert rest[i - 1][k] in s[1..];
        } else if i == 0 && k == 0 {
          assert r[0][0] == s[0];
        } else if i == 0 {
          assert r[0][k] == rest[0][k - 1];
          assert rest[0][k - 1] in s[1..];
        } else {
          assert r[i] == rest[i];
          assert rest[i][k] in s[1..];
        }
      }
    }
  }

  /** The first piece of a split is a prefix of the string. */
  lemma {:induction false} SplitFirstPrefix(s: string, c: char)
    ensures Split(s, c)[0] <= s
  {
    if s != [] && s[0] != c {
      SplitFirstPrefix(s[1..], c);
      assert s == [s[0]] + s[1..];
    }
  }

  /** A string without the separator splits into itself alone. */
  lemma {:induction false} SplitWithout(s: string, c: char)
    requires c !in s
    ensures Split(s, c) == [s]
  {
    if s != [] {
      SplitWithout(s[1..], c);
      assert s == [s[0]] + s[1..];
    }
  }

  /** The last piece of `a + c + b`, for `b` free of the separator, is `b`. */
  lemma {:induction false} SplitLast(a: string, b: string, c: char)
    requires c !in b
    ensures var r := Split(a + [c] + b, c); |r| >= 2 && r[|r| - 1] == b
  {
    var s := a + [c] + b;
    if a == [] {
      assert s[1..] == b;
      SplitWithout(b, c);
    } else {
      assert s[1..] == a[1..] + [c] + b;
      SplitLast(a[1..], b, c);
    }
  }

  /** The visible characters of a string are those of the pieces `split(' ')` cuts it into. */
  lemma SplitNonWhite(s: string)
    ensures NonWhiteAll(Split(s, ' ')) == NonWhite(s)
  {
    JoinSplit(s, ' ');
    NonWhiteJoin(Split(s, ' '));
  }

  // ---------------------------------------------------------------- words

  /** The leading run of non-whitespace characters of `s`. */
  function TakeWord(s: string): (r: string)
    ensures r <= s
    ensures forall i :: 0 <= i < |r| ==> !IsSpace(r[i])
    ensures |r| < |s| ==> IsSpace(s[|r|])
  {
    if s == [] || IsSpace(s[0]) then [] else [s[0]] + TakeWord(s[1..])
  }

  predicate IsWord(w: string) {
    w != [] && forall i :: 0 <= i < |w| ==> !IsSpace(w[i])
  }

  lemma {:induction false} NonWhiteOfWord(w: string)
    requires forall i :: 0 <= i < |w| ==> !IsSpace(w[i])
    ensures NonWhite(w) == w
  {
    if w != [] { NonWhiteOfWord(w[1..]); }
  }

  /** `s.split(/\s+/).filter(w => w.length > 0)`: the maximal runs of non-whitespace characters. */
  function Words(s: string): seq<string>
    decreases |s|
  {
    var t := TrimStart(s);
    TrimStartSpec(s);
    if t == [] then []
    else
      var w := TakeWord(t);
      assert w != [];
      [w] + Words(t[|w|..])
  }

  lemma {:induction false} WordsAreWords(s: string)
    ensures forall i :: 0 <= i < |Words(s)| ==> IsWord(Words(s)[i])
    decreases |s|
  {
    var t := TrimStart(s);
    TrimStartSpec(s);
    if t != [] {
      var w := TakeWord(t);
      WordsAreWords(t[|w|..]);
    }
  }

  lemma {:induction false} WordsFlatten(s: string)
    ensures Flatten(Words(s)) == NonWhite(s)
    decreases |s|
  {
    var t := TrimStart(s);
    TrimStartNonWhite(s);
    if t != [] {
      var w := TakeWord(t);
      assert t == w + t[|w|..];
      NonWhiteAppend(w, t[|w|..]);
      NonWhiteOfWord(w);
      WordsFlatten(t[|w|..]);
    }
  }

  /** The words are non-empty, hold no whitespace, and together are the visible characters of `s`. */
  lemma WordsSpec(s: string)
    ensures forall i :: 0 <= i < |Words(s)| ==> IsWord(Words(s)[i])
    ensures Flatten(Words(s)) == NonWhite(s)
  {
    WordsAreWords(s);
    WordsFlatten(s);
  }

  /** For whitespace-free pieces, their visible characters are their concatenation, which is
      at least as long as the number of pieces and empty only when there are none. */
  lemma {:induction false} FlattenOfWords(ws: seq<string>)
    requires forall i :: 0 <= i < |ws| ==> IsWord(ws[i])
    ensures NonWhiteAll(ws) == Flatten(ws)
    ensures |ws| <= |Flatten(ws)|
    ensures ws == [] <==> Flatten(ws) == []
  {
    if ws != [] {
      FlattenOfWords(ws[1..]);
      NonWhiteOfWord(ws[0]);
    }
  }

  /** The words of a string are its visible characters cut into pieces: there are no more of
      them than visible characters, and none exactly when the string is all whitespace. */
  lemma WordsCount(s: string)
    ensures NonWhiteAll(Words(s)) == NonWhite(s)
    ensures |Words(s)| <= |NonWhite(s)| <= |s|
    ensures Words(s) == [] <==> AllSpace(s)
  {
    WordsSpec(s);
    FlattenOfWords(Words(s));
    NonWhiteAllSpace(s);
  }

  // ---------------------------------------------------------------- numbers and case

  function DigitChar(d: int): (c: char)
    requires 0 <= d < 10
    ensures '0' <= c <= '9'
  {
    ('0' as int + d) as char
  }

  /** The decimal representation of `n`, as JavaScript prints an integer in a template string. */
  function NatToString(n: nat): (r: string)
    ensures r != []
    ensures n >= 10 ==> |r| >= 2
    ensures r[|r| - 1] == DigitChar(n % 10)
  {
    if n < 10 then [DigitChar(n)] else NatToString(n / 10) + [DigitChar(n % 10)]
  }

  /** A printed number consists of decimal digits only. */
  lemma {:induction false} NatToStringDigits(n: nat)
    ensures forall k :: 0 <= k < |NatToString(n)| ==> '0' <= NatToString(n)[k] <= '9'
  {
    if n >= 10 {
      NatToStringDigits(n / 10);
    }
  }

  /** Distinct numbers print differently. */
  lemma {:induction false} NatToStringInjective(a: nat, b: nat)
    requires NatToString(a) == NatToString(b)
    ensures a == b
  {
    var s := NatToString(a);
    assert a % 10 == b % 10 by {
      assert DigitChar(a % 10) as int - '0' as int == DigitChar(b % 10) as int - '0' as int;
    }
    if a >= 10 && b >= 10 {
      assert NatToString(a / 10) == s[..|s| - 1] == NatToString(b / 10);
      NatToStringInjective(a / 10, b / 10);
    }
  }

  /** `toLowerCase` on the ASCII letters. */
  function LowerChar(c: char): char {
    if 'A' <= c <= 'Z' then (c as int + 32) as char else c
  }

  function Lower(s: string): (r: string)
    ensures |r| == |s|
    ensures forall i :: 0 <= i < |s| ==> r[i] == LowerChar(s[i])
  {
    if s == [] then [] else [LowerChar(s[0])] + Lower(s[1..])
  }

  /** JavaScript's `s.includes(sub)`. */
  predicate Contains(s: string, sub: string)
    decreases |s|
  {
    sub <= s || (s != [] && Contains(s[1..], sub))
  }
}
