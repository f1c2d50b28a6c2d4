/** The JavaScript string operations the notes app relies on:
    `String.prototype.trim` and `String.prototype.split` with a one-character
    separator, with `Array.prototype.join` as the partner of split.
    JavaScript's `length`, `substring` and indexing count UTF-16 code
    units; the model counts one `char` per code unit, which is faithful for
    text inside the Basic Multilingual Plane. */
module JsString {

  /** The WhiteSpace and LineTerminator code points of ECMAScript, which
      `trim` removes from both ends of a string. */
  predicate IsWhitespace(c: char) {
    || c == ' ' || c == '\t' || c == '\n' || c == '\r'
    || c == '\U{000B}' || c == '\U{000C}' || c == '\U{00A0}' || c == '\U{1680}'
    || ('\U{2000}' <= c && c <= '\U{200A}')
    || c == '\U{2028}' || c == '\U{2029}' || c == '\U{202F}' || c == '\U{205F}'
    || c == '\U{3000}' || c == '\U{FEFF}'
  }

  /** Every character of `s` is whitespace (vacuously true of ""). */
  predicate Blank(s: string) {
    forall i :: 0 <= i < |s| ==> IsWhitespace(s[i])
  }

  /** The first index at or after `i` that holds no whitespace, or `|s|`. */
  function SkipForward(s: string, i: nat): (r: nat)
    requires i <= |s|
    ensures i <= r <= |s|
    ensures forall j :: i <= j < r ==> IsWhitespace(s[j])
    ensures r < |s| ==> !IsWhitespace(s[r])
    decreases |s| - i
  {
    if i < |s| && IsWhitespace(s[i]) then SkipForward(s, i + 1) else i
  }

  /** The end of `s[lo..hi]` once its trailing whitespace is dropped. */
  function SkipBackward(s: string, lo: nat, hi: nat): (r: nat)
    requires lo <= hi <= |s|
    ensures lo <= r <= hi
    ensures forall j :: r <= j < hi ==> IsWhitespace(s[j])
    ensures r > lo ==> !IsWhitespace(s[r - 1])
    decreases hi
  {
    if hi > lo && IsWhitespace(s[hi - 1]) then SkipBackward(s, lo, hi - 1) else hi
  }

  /** `s.trim()`: `s` with the whitespace at both ends removed. It is
      empty exactly when `s` is blank; TrimShape says what else it is. */
  function Trim(s: string): (r: string)
    ensures |r| <= |s|
    ensures r == [] <==> Blank(s)
  {
    var start := SkipForward(s, 0);
    var end := SkipBackward(s, start, |s|);
    assert start < end ==> !IsWhitespace(s[start]);
    s[start..end]
  }

  /** The trimmed string is the slice of `s` between its leading and its
      trailing whitespace: only whitespace lies outside it, and it neither
      starts nor ends with whitespace. */
  lemma TrimShape(s: string)
    ensures var start := SkipForward(s, 0); var end := SkipBackward(s, start, |s|);
      && Trim(s) == s[start..end]
      && (forall j :: 0 <= j < start ==> IsWhitespace(s[j]))
      && (forall j :: end <= j < |s| ==> IsWhitespace(s[j]))
      && (start < end ==> !IsWhitespace(s[start]) && !IsWhitespace(s[end - 1]))
  {
  }

  /** `s.split([sep])`: the pieces of `s` between separators. Splitting ""
      gives one empty piece; there is always one more piece than there are
      separators, and no piece contains the separator. */
  function Split(s: string, sep: char): (r: seq<string>)
    ensures |r| == multiset(s)[sep] + 1
    ensures forall i :: 0 <= i < |r| ==> sep !in r[i]
    decreases |s|
  {
    if s == [] then
      [[]]
    else
      var rest := Split(s[1..], sep);
      assert s == [s[0]] + s[1..];
      assert multiset(s) == multiset{s[0]} + multiset(s[1..]);
      if s[0] == sep then
        [[]] + rest
      else
        var r := [[s[0]] + rest[0]] + rest[1..];
        assert forall i :: 1 <= i < |r| ==> r[i] == rest[i];
        r
  }

  /** `ps.join(sep)`: the pieces with one separator between neighbours. */
  function Join(ps: seq<string>, sep: char): (r: string)
    ensures |ps| > 0 && (forall i :: 0 <= i < |ps| ==> sep !in ps[i]) ==> multiset(r)[sep] == |ps| - 1
    decreases |ps|
  {
    if |ps| == 0 then []
    else if |ps| == 1 then ps[0]
    else
      var tail := Join(ps[1..], sep);
      assert (forall i :: 0 <= i < |ps| ==> sep !in ps[i]) ==> (forall i :: 0 <= i < |ps[1..]| ==> sep !in ps[1..][i]);
      assert multiset(ps[0] + [sep] + tail) == multiset(ps[0]) + multiset{sep} + multiset(tail);
      ps[0] + [sep] + tail
  }

  /** Joining a piece in front of at least one other piece puts one
      separator between it and the join of the rest. */
  lemma JoinCons(p: string, rest: seq<string>, sep: char)
    requires |rest| > 0
    ensures Join([p] + rest, sep) == p + [sep] + Join(rest, sep)
  {
    assert ([p] + rest)[1..] == rest;
  }

  /** Prepending a character to the first piece prepends it to the join. */
  lemma JoinPrependChar(c: char, rest: seq<string>, sep: char)
    requires |rest| > 0
    ensures Join([[c] + rest[0]] + rest[1..], sep) == [c] + Join(rest, sep)
  {
    if |rest| > 1 {
      JoinCons([c] + rest[0], rest[1..], sep);
      JoinCons(rest[0], rest[1..], sep);
      assert rest == [rest[0]] + rest[1..];
    }
  }

  /** Joining the pieces of a split gives back the original string. */
  lemma {:induction false} JoinSplit(s: string, sep: char)
    ensures Join(Split(s, sep), sep) == s
    decreases |s|
  {
    if s != [] {
      var rest := Split(s[1..], sep);
      JoinSplit(s[1..], sep);
      assert s == [s[0]] + s[1..];
      if s[0] == sep {
        assert Split(s, sep) == [[]] + rest;
        JoinCons([], rest, sep);
      } else {
        assert Split(s, sep) == [[s[0]] + rest[0]] + rest[1..];
        JoinPrependChar(s[0], rest, sep);
      }
    }
  }

  /** A string without the separator splits into itself alone. */
  lemma {:induction false} SplitNoSeparator(a: string, sep: char)
    requires sep !in a
    ensures Split(a, sep) == [a]
    decreases |a|
  {
    if a != [] {
      assert sep !in a[1..];
      SplitNoSeparator(a[1..], sep);
      assert a == [a[0]] + a[1..];
    }
  }

  /** Splitting `a + [sep] + b`, with no separator in `a`, yields `a` then
      the pieces of `b`. */
  lemma {:induction false} SplitAtFirst(a: string, b: string, sep: char)
    requires sep !in a
    ensures Split(a + [sep] + b, sep) == [a] + Split(b, sep)
    decreases |a|
  {
    var s := a + [sep] + b;
    if a == [] {
      assert s[1..] == b;
    } else {
      assert s[1..] == a[1..] + [sep] + b;
      assert sep !in a[1..];
      SplitAtFirst(a[1..], b, sep);
      assert a == [a[0]] + a[1..];
    }
  }

  /** Splitting a join of separator-free pieces gives back the pieces: with
      JoinSplit, split and join are inverse on their domains. */
  lemma {:induction false} SplitJoin(ps: seq<string>, sep: char)
    requires |ps| > 0
    requires forall i :: 0 <= i < |ps| ==> sep !in ps[i]
    ensures Split(Join(ps, sep), sep) == ps
    decreases |ps|
  {
    if |ps| == 1 {
      SplitNoSeparator(ps[0], sep);
    } else {
      assert forall i :: 0 <= i < |ps[1..]| ==> sep !in ps[1..][i];
      SplitJoin(ps[1..], sep);
      SplitAtFirst(ps[0], Join(ps[1..], sep), sep);
      assert ps == [ps[0]] + ps[1..];
    }
  }
}
