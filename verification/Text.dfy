/** The JavaScript string operations the application relies on
    (`trim`, `split`, `join`, global `replace`, `startsWith`, `endsWith`,
    `toLowerCase`, decimal rendering of a number), written out over `string`. */
module Text {

  import opened Wrappers

  /** The characters `String.prototype.trim` removes: the ECMAScript
      WhiteSpace and LineTerminator code points. */
  predicate IsWhitespace(c: char) {
    || c == '\t' || c == '\n' || c == '\U{000B}' || c == '\U{000C}' || c == '\r'
    || c == ' ' || c == '\U{00A0}' || c == '\U{1680}'
    || ('\U{2000}' <= c <= '\U{200A}')
    || c == '\U{2028}' || c == '\U{2029}' || c == '\U{202F}' || c == '\U{205F}'
    || c == '\U{3000}' || c == '\U{FEFF}'
  }

  predicate AllWhitespace(s: string) {
    forall i :: 0 <= i < |s| ==> IsWhitespace(s[i])
  }

  /** Neither end of `s` is whitespace. */
  predicate IsTrimmed(s: string) {
    s == [] || (!IsWhitespace(s[0]) && !IsWhitespace(s[|s| - 1]))
  }

  /** `t` occurs in `s` starting at index `k`. */
  predicate OccursAt(s: string, t: string, k: nat) {
    k + |t| <= |s| && s[k..k + |t|] == t
  }

  /** `s.includes(t)` */
  predicate Contains(s: string, t: string) {
    exists k: nat | k <= |s| :: OccursAt(s, t, k)
  }

  /** `s.startsWith(p)` */
  predicate StartsWith(s: string, p: string) {
    |p| <= |s| && s[..|p|] == p
  }

  /** `s.endsWith(p)` */
  predicate EndsWith(s: string, p: string) {
    |p| <= |s| && s[|s| - |p|..] == p
  }

  /** The index of the first character at or after `i` that is not whitespace
      (`|s|` when there is none). */
  function SkipBlank(s: string, i: nat): (k: nat)
    requires i <= |s|
    ensures i <= k <= |s|
    ensures forall j :: i <= j < k ==> IsWhitespace(s[j])
    ensures k < |s| ==> !IsWhitespace(s[k])
    decreases |s| - i
  {
    if i == |s| || !IsWhitespace(s[i]) then i else SkipBlank(s, i + 1)
  }

  /** The end of `s[lo..j]` once the whitespace at its end is dropped. */
  function SkipBlankBack(s: string, lo: nat, j: nat): (k: nat)
    requires lo <= j <= |s|
    ensures lo <= k <= j
    ensures forall m :: k <= m < j ==> IsWhitespace(s[m])
    ensures k > lo ==> !IsWhitespace(s[k - 1])
    decreases j
  {
    if j == lo || !IsWhitespace(s[j - 1]) then j else SkipBlankBack(s, lo, j - 1)
  }

  /** `s.trim()`: the part of `s` left after removing whitespace at both ends. */
  function Trim(s: string): (r: string)
    ensures IsTrimmed(r)
    ensures r == [] <==> AllWhitespace(s)
    ensures |r| <= |s|
  {
    var a := SkipBlank(s, 0);
    var b := SkipBlankBack(s, a, |s|);
    assert a == b ==> AllWhitespace(s) by {
      if a == b {
        forall i | 0 <= i < |s| ensures IsWhitespace(s[i]) {
          if i >= a {
            assert b <= i < |s|;
          }
        }
      }
    }
    assert a < b ==> !AllWhitespace(s) by {
      if a < b {
        assert !IsWhitespace(s[a]);
      }
    }
    s[a..b]
  }

  /** Whitespace around an already trimmed text is exactly what `trim` removes. */
  lemma TrimPadded(lead: string, x: string, trail: string)
    requires AllWhitespace(lead) && AllWhitespace(trail) && IsTrimmed(x)
    ensures Trim(lead + x + trail) == x
  {
    var u := lead + x + trail;
    if x == [] {
      assert u == lead + trail;
      forall i | 0 <= i < |u| ensures IsWhitespace(u[i]) {
        if i >= |lead| { assert u[i] == trail[i - |lead|]; }
      }
    } else {
      var a := SkipBlank(u, 0);
      var b := SkipBlankBack(u, a, |u|);
      var e := |lead| + |x|;
      assert u[|lead|] == x[0];
      assert forall j :: 0 <= j < |lead| ==> u[j] == lead[j];
      assert a == |lead|;
      assert u[e - 1] == x[|x| - 1];
      assert forall m :: e <= m < |u| ==> u[m] == trail[m - e];
      assert b == e;
      assert u[a..b] == x;
    }
  }

  /** A trimmed text is its own trim, so trimming twice is trimming once. */
  lemma TrimIdempotent(s: string)
    ensures IsTrimmed(s) ==> Trim(s) == s
    ensures Trim(Trim(s)) == Trim(s)
  {
    if IsTrimmed(s) {
      TrimPadded([], s, []);
      assert [] + s + [] == s;
    }
    TrimPadded([], Trim(s), []);
    assert [] + Trim(s) + [] == Trim(s);
  }

  /** A text found in a slice of `s` is found in `s`. */
  lemma ContainsInSlice(s: string, i: nat, j: nat, t: string)
    requires i <= j <= |s| && Contains(s[i..j], t)
    ensures Contains(s, t)
  {
    var k: nat :| k <= |s[i..j]| && OccursAt(s[i..j], t, k);
    var w := s[i..j];
    assert w[k..k + |t|] == t;
    forall m | 0 <= m < |t| ensures s[i + k + m] == t[m] {
      assert w[k + m] == t[m];
    }
    assert s[i + k..i + k + |t|] == t;
    assert OccursAt(s, t, i + k);
  }

  /** A text found in the trim of `s` is found in `s`. */
  lemma TrimContains(s: string, t: string)
    requires Contains(Trim(s), t)
    ensures Contains(s, t)
  {
    var a := SkipBlank(s, 0);
    ContainsInSlice(s, a, SkipBlankBack(s, a, |s|), t);
  }

  /** Containing a one-character text is containing that character. */
  lemma ContainsChar(s: string, c: char)
    ensures Contains(s, [c]) <==> c in s
  {
    if c in s {
      var i :| 0 <= i < |s| && s[i] == c;
      assert s[i..i + 1] == [c];
      assert OccursAt(s, [c], i);
    }
    if Contains(s, [c]) {
      var k: nat :| k <= |s| && OccursAt(s, [c], k);
      assert s[k] == s[k..k + 1][0];
    }
  }

  /** The index of the first occurrence of `c`, if any. */
  function IndexOf(s: string, c: char): (r: Option<nat>)
    ensures r.None? <==> c !in s
    ensures r.Some? ==> r.value < |s| && s[r.value] == c && c !in s[..r.value]
  {
    if s == [] then None
    else if s[0] == c then Some(0)
    else match IndexOf(s[1..], c)
      case None => None
      case Some(i) =>
        assert s[..i + 1] == [s[0]] + s[1..][..i];
        Some(i + 1)
  }

  /** `s.split(sep)` for a non-empty separator: the pieces between the
      leftmost non-overlapping occurrences of `sep`, scanning left to right. */
  function Split(s: string, sep: string): (parts: seq<string>)
    requires sep != []
    ensures |parts| >= 1
    decreases |s|
  {
    if |s| < |sep| then [s]
    else if s[..|sep|] == sep then [""] + Split(s[|sep|..], sep)
    else
      var rest := Split(s[1..], sep);
      [[s[0]] + rest[0]] + rest[1..]
  }

  /** `parts.join(sep)` */
  function Join(parts: seq<string>, sep: string): string {
    if |parts| == 0 then ""
    else if |parts| == 1 then parts[0]
    else parts[0] + sep + Join(parts[1..], sep)
  }

  /** Global textual replacement, as `s.replace(/token/g, value)` does it when
      `value` holds no `$` pattern: leftmost occurrences first, the scan
      resuming after each match, the inserted value never rescanned. */
  function ReplaceAll(s: string, token: string, value: string): string
    requires token != []
    decreases |s|
  {
    if |s| < |token| then s
    else if s[..|token|] == token then value + ReplaceAll(s[|token|..], token, value)
    else [s[0]] + ReplaceAll(s[1..], token, value)
  }

  lemma {:induction false} JoinConsHead(c: char, parts: seq<string>, sep: string)
    requires |parts| >= 1
    ensures Join([[c] + parts[0]] + parts[1..], sep) == [c] + Join(parts, sep)
  {
    var q := [[c] + parts[0]] + parts[1..];
    if |parts| > 1 {
      assert q[1..] == parts[1..];
      assert ([c] + parts[0]) + sep + Join(parts[1..], sep) == [c] + (parts[0] + sep + Join(parts[1..], sep));
    }
  }

  /** Joining the pieces of a split with the same separator gives back the text. */
  lemma {:induction false} JoinSplit(s: string, sep: string)
    requires sep != []
    ensures Join(Split(s, sep), sep) == s
    decreases |s|, 1
  {
    if |s| < |sep| {
    } else if s[..|sep|] == sep {
      JoinSplitAtSeparator(s, sep);
    } else {
      JoinSplitAtChar(s, sep);
    }
  }

  lemma {:induction false} JoinSplitAtSeparator(s: string, sep: string)
    requires sep != [] && |sep| <= |s| && s[..|sep|] == sep
    ensures Join(Split(s, sep), sep) == s
    decreases |s|, 0
  {
    var rest := Split(s[|sep|..], sep);
    JoinSplit(s[|sep|..], sep);
    assert Split(s, sep) == [""] + rest;
    assert ([""] + rest)[1..] == rest;
    assert Join([""] + rest, sep) == "" + sep + Join(rest, sep);
    assert s == sep + s[|sep|..];
  }

  lemma {:induction false} JoinSplitAtChar(s: string, sep: string)
    requires sep != [] && |sep| <= |s| && s[..|sep|] != sep
    ensures Join(Split(s, sep), sep) == s
    decreases |s|, 0
  {
    JoinSplit(s[1..], sep);
    JoinConsHead(s[0], Split(s[1..], sep), sep);
    assert s == [s[0]] + s[1..];
  }

  /** No piece of a split holds the separator, and the first piece is where the text starts. */
  lemma {:induction false} SplitPiecesAvoidSeparator(s: string, sep: string)
    requires sep != []
    ensures forall i :: 0 <= i < |Split(s, sep)| ==> !Contains(Split(s, sep)[i], sep)
    ensures StartsWith(s, Split(s, sep)[0])
    decreases |s|
  {
    var parts := Split(s, sep);
    if |s| < |sep| {
    } else if s[..|sep|] == sep {
      SplitPiecesAvoidSeparator(s[|sep|..], sep);
      var rest := Split(s[|sep|..], sep);
      assert parts == [""] + rest;
      forall i | 0 <= i < |parts| ensures !Contains(parts[i], sep) {
        if i > 0 { assert parts[i] == rest[i - 1]; }
      }
    } else {
      SplitPiecesAvoidSeparator(s[1..], sep);
      var rest := Split(s[1..], sep);
      var head := [s[0]] + rest[0];
      assert parts == [head] + rest[1..];
      assert StartsWith(s, head) by {
        assert s[..|head|] == [s[0]] + s[1..][..|rest[0]|];
      }
      assert !StartsWith(head, sep) by {
        if StartsWith(head, sep) {
          StartsWithTransitive(s, head, sep);
        }
      }
      ConsAvoids(s[0], rest[0], sep);
      forall i | 0 <= i < |parts| ensures !Contains(parts[i], sep) {
        if i > 0 {
          assert parts[i] == rest[i];
        }
      }
    }
  }

  lemma StartsWithTransitive(s: string, p: string, q: string)
    requires StartsWith(s, p) && StartsWith(p, q)
    ensures StartsWith(s, q)
  {
    assert s[..|q|] == p[..|q|];
  }

  /** A character put in front of a text without `sep` brings in `sep` only at the front. */
  lemma ConsAvoids(c: char, w: string, sep: string)
    requires sep != [] && !Contains(w, sep) && !StartsWith([c] + w, sep)
    ensures !Contains([c] + w, sep)
  {
    var v := [c] + w;
    if Contains(v, sep) {
      var k: nat :| k <= |v| && OccursAt(v, sep, k);
      assert k != 0;
      assert v[k..k + |sep|] == w[k - 1..k - 1 + |sep|];
      assert OccursAt(w, sep, k - 1);
    }
  }

  /** A text that never shows the separator's first character is a single piece. */
  lemma {:induction false} SplitWithoutSeparator(x: string, sep: string)
    requires sep != [] && sep[0] !in x
    ensures Split(x, sep) == [x]
    decreases |x|
  {
    if |x| >= |sep| {
      assert x[..|sep|][0] == x[0];
      SplitWithoutSeparator(x[1..], sep);
      assert x == [x[0]] + x[1..];
    }
  }

  lemma {:induction false} SplitAtFirstSeparator(x: string, sep: string, rest: string)
    requires sep != [] && sep[0] !in x
    ensures Split(x + sep + rest, sep) == [x] + Split(rest, sep)
    decreases |x|
  {
    var s := x + sep + rest;
    if x == [] {
      assert s[..|sep|] == sep && s[|sep|..] == rest;
    } else {
      assert s[..|sep|][0] == x[0];
      assert s[1..] == x[1..] + sep + rest;
      SplitAtFirstSeparator(x[1..], sep, rest);
      assert x == [x[0]] + x[1..];
    }
  }

  /** Splitting undoes a join of pieces in which the separator's first character never occurs. */
  lemma {:induction false} SplitJoin(parts: seq<string>, sep: string)
    requires |parts| >= 1 && sep != []
    requires forall i :: 0 <= i < |parts| ==> sep[0] !in parts[i]
    ensures Split(Join(parts, sep), sep) == parts
    decreases |parts|
  {
    if |parts| == 1 {
      SplitWithoutSeparator(parts[0], sep);
    } else {
      SplitJoin(parts[1..], sep);
      SplitAtFirstSeparator(parts[0], sep, Join(parts[1..], sep));
      assert parts == [parts[0]] + parts[1..];
    }
  }

  /** In `p + sep` the first occurrence of `sep` is the one right after `p`, so a
      split of a text continuing with `p + sep` cuts there. */
  predicate SeparatorFollows(p: string, sep: string) {
    forall k :: 0 <= k < |p| ==> !OccursAt(p + sep, sep, k)
  }

  /** A text without the separator is a single piece. */
  lemma {:induction false} SplitWithoutOccurrence(x: string, sep: string)
    requires sep != [] && !Contains(x, sep)
    ensures Split(x, sep) == [x]
    decreases |x|
  {
    if |x| >= |sep| {
      assert !OccursAt(x, sep, 0);
      assert !Contains(x[1..], sep) by {
        forall k: nat | k <= |x[1..]| && OccursAt(x[1..], sep, k) ensures false {
          assert x[k + 1..k + 1 + |sep|] == x[1..][k..k + |sep|];
          assert OccursAt(x, sep, k + 1);
        }
      }
      SplitWithoutOccurrence(x[1..], sep);
      assert x == [x[0]] + x[1..];
    }
  }

  /** A split of `x + sep + rest` cuts right after `x` when `sep` first occurs there. */
  lemma {:induction false} SplitAtFollowingSeparator(x: string, sep: string, rest: string)
    requires sep != [] && SeparatorFollows(x, sep)
    ensures Split(x + sep + rest, sep) == [x] + Split(rest, sep)
    decreases |x|
  {
    var s := x + sep + rest;
    if x == [] {
      assert s[..|sep|] == sep && s[|sep|..] == rest;
    } else {
      assert s[..|sep|] != sep by {
        assert !OccursAt(x + sep, sep, 0);
        assert s[..|sep|] == (x + sep)[..|sep|];
      }
      assert SeparatorFollows(x[1..], sep) by {
        assert x + sep == [x[0]] + (x[1..] + sep);
        forall k | 0 <= k < |x[1..]| ensures !OccursAt(x[1..] + sep, sep, k) {
          assert !OccursAt(x + sep, sep, k + 1);
          SliceAfterHead(x[0], x[1..] + sep, k, k + |sep|);
        }
      }
      assert s[1..] == x[1..] + sep + rest;
      SplitAtFollowingSeparator(x[1..], sep, rest);
      assert x == [x[0]] + x[1..];
    }
  }

  lemma SliceAfterHead(c: char, w: string, i: nat, j: nat)
    requires i <= j <= |w|
    ensures ([c] + w)[i + 1..j + 1] == w[i..j]
  {
    forall m | 0 <= m < j - i ensures ([c] + w)[i + 1..j + 1][m] == w[i..j][m] {
    }
  }

  /** Splitting undoes a join when each piece but the last is followed by the first
      occurrence of the separator, and the last piece holds none. */
  lemma {:induction false} SplitJoinFollowing(parts: seq<string>, sep: string)
    requires |parts| >= 1 && sep != []
    requires forall i :: 0 <= i < |parts| - 1 ==> SeparatorFollows(parts[i], sep)
    requires !Contains(parts[|parts| - 1], sep)
    ensures Split(Join(parts, sep), sep) == parts
    decreases |parts|
  {
    if |parts| == 1 {
      SplitWithoutOccurrence(parts[0], sep);
    } else {
      var tail := parts[1..];
      assert tail[|tail| - 1] == parts[|parts| - 1];
      assert forall i :: 0 <= i < |tail| - 1 ==> SeparatorFollows(tail[i], sep) by {
        forall i | 0 <= i < |tail| - 1 ensures SeparatorFollows(tail[i], sep) {
          assert tail[i] == parts[i + 1];
        }
      }
      SplitJoinFollowing(tail, sep);
      SplitAtFollowingSeparator(parts[0], sep, Join(parts[1..], sep));
      assert parts == [parts[0]] + parts[1..];
    }
  }

  /** Global replacement is split-then-join: every occurrence the scan finds becomes `value`,
      the text between occurrences is kept as it was. */
  lemma {:induction false} ReplaceAllIsSplitJoin(s: string, token: string, value: string)
    requires token != []
    ensures ReplaceAll(s, token, value) == Join(Split(s, token), value)
    decreases |s|
  {
    if |s| < |token| {
    } else if s[..|token|] == token {
      ReplaceAllIsSplitJoin(s[|token|..], token, value);
      var rest := Split(s[|token|..], token);
      assert ([""] + rest)[1..] == rest;
    } else {
      ReplaceAllIsSplitJoin(s[1..], token, value);
      JoinConsHead(s[0], Split(s[1..], token), value);
    }
  }

  /** A text without the token is left as it is. */
  lemma {:induction false} ReplaceAllAbsent(s: string, token: string, value: string)
    requires token != []
    requires !Contains(s, token)
    ensures ReplaceAll(s, token, value) == s
    decreases |s|
  {
    if |s| < |token| {
    } else if s[..|token|] == token {
      assert OccursAt(s, token, 0);
    } else {
      forall k: nat | k <= |s[1..]| && OccursAt(s[1..], token, k) ensures false {
        assert s[1..][k..k + |token|] == s[k + 1..k + 1 + |token|];
        assert OccursAt(s, token, k + 1);
      }
      ReplaceAllAbsent(s[1..], token, value);
      assert s == [s[0]] + s[1..];
    }
  }

  // ---- Placeholder tokens of the form `[NAME]` ----

  predicate TokenChar(c: char) {
    ('A' <= c <= 'Z') || c == '_'
  }

  /** `[`, then upper-case letters and underscores, then `]`. */
  predicate IsBracketToken(t: string) {
    && |t| >= 2 && t[0] == '[' && t[|t| - 1] == ']'
    && forall i :: 1 <= i < |t| - 1 ==> TokenChar(t[i])
  }

  /** What follows the `[` of a token (or any later part of it): name characters, then `]`. */
  predicate TokenTail(w: string) {
    && |w| >= 1 && w[|w| - 1] == ']'
    && forall i :: 0 <= i < |w| - 1 ==> TokenChar(w[i])
  }

  /** A replacement value that cannot complete or start a token: it holds no bracket
      and at least one character that no token name uses (every URL and data URL
      has a `:`). */
  predicate SafeValue(v: string) {
    '[' !in v && ']' !in v && exists c :: c in v && !TokenChar(c)
  }

  lemma {:induction false} ReplacedTextStartingWithTail(y: string, u: string, v: string, w: string)
    requires u != [] && SafeValue(v) && TokenTail(w)
    requires StartsWith(ReplaceAll(y, u, v), w)
    ensures StartsWith(y, w)
    decreases |y|
  {
    if |y| < |u| {
    } else if y[..|u|] == u {
      var r := ReplaceAll(y, u, v);
      assert r == v + ReplaceAll(y[|u|..], u, v);
      if |v| >= |w| {
        assert false;
      } else {
        var c :| c in v && !TokenChar(c);
        var i :| 0 <= i < |v| && v[i] == c;
        PrefixChar(r, w, i);
        ConcatChar(v, ReplaceAll(y[|u|..], u, v), i);
        assert false;
      }
    } else {
      var r := ReplaceAll(y, u, v);
      assert r == [y[0]] + ReplaceAll(y[1..], u, v);
      assert r[0] == w[0];
      if |w| > 1 {
        assert StartsWith(ReplaceAll(y[1..], u, v), w[1..]) by {
          assert ReplaceAll(y[1..], u, v)[..|w| - 1] == r[1..|w|];
        }
        ReplacedTextStartingWithTail(y[1..], u, v, w[1..]);
        assert y[..|w|] == [y[0]] + y[1..][..|w| - 1];
      }
    }
  }

  lemma SuffixContains(y: string, n: nat, t: string)
    requires n <= |y| && Contains(y[n..], t)
    ensures Contains(y, t)
  {
    var k: nat :| k <= |y[n..]| && OccursAt(y[n..], t, k);
    assert y[n..][k..k + |t|] == y[n + k..n + k + |t|];
    assert OccursAt(y, t, n + k);
  }

  lemma PrefixChar(r: string, w: string, i: nat)
    ensures StartsWith(r, w) && i < |w| ==> r[i] == w[i]
  {
  }

  lemma ConcatChar(v: string, x: string, i: nat)
    ensures i < |v| ==> (v + x)[i] == v[i]
  {
  }

  lemma OccursChar(y: string, t: string, k: nat, j: nat)
    ensures OccursAt(y, t, k) && j < |t| ==> y[k + j] == t[j]
  {
  }

  lemma ContainsAfterChar(c: char, r: string, t: string)
    requires t != [] && Contains([c] + r, t) && !OccursAt([c] + r, t, 0)
    ensures Contains(r, t)
  {
    var k: nat :| k <= |[c] + r| && OccursAt([c] + r, t, k);
    assert ([c] + r)[k..k + |t|] == r[k - 1..k - 1 + |t|];
    assert OccursAt(r, t, k - 1);
  }

  lemma ContainsAfterValue(v: string, r: string, t: string)
    requires t != [] && t[0] !in v && Contains(v + r, t)
    ensures Contains(r, t)
  {
    var k: nat :| k <= |v + r| && OccursAt(v + r, t, k);
    if k < |v| {
      assert false;
    }
    assert (v + r)[k..k + |t|] == r[k - |v|..k - |v| + |t|];
    assert OccursAt(r, t, k - |v|);
  }

  lemma ContainsExtended(p: string, r: string, t: string)
    requires Contains(r, t)
    ensures Contains(p + r, t)
  {
    var k: nat :| k <= |r| && OccursAt(r, t, k);
    assert (p + r)[|p| + k..|p| + k + |t|] == r[k..k + |t|];
    assert OccursAt(p + r, t, |p| + k);
  }

  /** After replacing `u` by a safe value, the result holds no `u`, and holds no other
      token `t` that the text did not already hold. */
  lemma {:induction false} ReplaceAllLeavesNoToken(y: string, u: string, v: string, t: string)
    requires u != [] && SafeValue(v) && IsBracketToken(t)
    requires t == u || !Contains(y, t)
    ensures !Contains(ReplaceAll(y, u, v), t)
    decreases |y|
  {
    if |y| < |u| {
    } else if y[..|u|] == u {
      var rest := y[|u|..];
      if t != u && Contains(rest, t) { SuffixContains(y, |u|, t); }
      ReplaceAllLeavesNoToken(rest, u, v, t);
      if Contains(v + ReplaceAll(rest, u, v), t) {
        ContainsAfterValue(v, ReplaceAll(rest, u, v), t);
      }
    } else {
      var y1 := y[1..];
      if t != u && Contains(y1, t) { SuffixContains(y, 1, t); }
      ReplaceAllLeavesNoToken(y1, u, v, t);
      var r1 := ReplaceAll(y1, u, v);
      if OccursAt([y[0]] + r1, t, 0) {
        NoTokenAtStart(y, u, v, t);
      } else if Contains([y[0]] + r1, t) {
        ContainsAfterChar(y[0], r1, t);
      }
    }
  }

  /** The scan did not match `u` at the start of `y`, so a token the result starts with
      was already at the start of `y`. */
  lemma NoTokenAtStart(y: string, u: string, v: string, t: string)
    requires u != [] && SafeValue(v) && IsBracketToken(t)
    requires |y| >= |u| && y[..|u|] != u
    requires OccursAt([y[0]] + ReplaceAll(y[1..], u, v), t, 0)
    ensures OccursAt(y, t, 0) && t != u
  {
    var r := [y[0]] + ReplaceAll(y[1..], u, v);
    assert StartsWith(ReplaceAll(y[1..], u, v), t[1..]) by {
      assert ReplaceAll(y[1..], u, v)[..|t| - 1] == r[1..|t|];
    }
    ReplacedTextStartingWithTail(y[1..], u, v, t[1..]);
    assert y[..|t|] == [y[0]] + y[1..][..|t| - 1];
    assert t == [t[0]] + t[1..];
  }

  lemma {:induction false} ReplaceAllKeepsPrefix(y: string, u: string, v: string, w: string)
    requires IsBracketToken(u) && w != [] && '[' !in w
    requires StartsWith(y, w)
    ensures StartsWith(ReplaceAll(y, u, v), w)
    decreases |y|
  {
    if |y| < |u| {
    } else if y[..|u|] == u {
      assert false;
    } else {
      var r := ReplaceAll(y, u, v);
      assert r == [y[0]] + ReplaceAll(y[1..], u, v);
      if |w| > 1 {
        assert StartsWith(y[1..], w[1..]) by { assert y[1..][..|w| - 1] == y[1..|w|]; }
        ReplaceAllKeepsPrefix(y[1..], u, v, w[1..]);
        assert r[..|w|] == [y[0]] + ReplaceAll(y[1..], u, v)[..|w| - 1];
        assert w == [w[0]] + w[1..];
      }
    }
  }

  /** Two different tokens never start at the same place. */
  lemma DistinctTokensNotBothPrefixes(y: string, t: string, u: string)
    requires IsBracketToken(t) && IsBracketToken(u) && t != u
    ensures !(StartsWith(y, t) && StartsWith(y, u))
  {
    if StartsWith(y, t) && StartsWith(y, u) {
      assert false;
    }
  }

  /** A token occurrence cannot begin strictly inside an occurrence of another token. */
  lemma TokensDoNotOverlap(y: string, t: string, u: string, k: nat)
    requires IsBracketToken(t) && IsBracketToken(u) && 0 < k < |u|
    ensures !(StartsWith(y, u) && OccursAt(y, t, k))
  {
    if StartsWith(y, u) && OccursAt(y, t, k) {
      OccursChar(y, t, k, 0);
      PrefixChar(y, u, k);
      assert false;
    }
  }

  /** Replacing one token keeps an occurrence of a different token: a text that contains
      the other token still contains it afterwards. */
  lemma {:induction false} ReplaceAllKeepsOtherToken(y: string, u: string, v: string, t: string)
    requires IsBracketToken(u) && IsBracketToken(t) && t != u
    requires Contains(y, t)
    ensures Contains(ReplaceAll(y, u, v), t)
    decreases |y|
  {
    var k: nat :| k <= |y| && OccursAt(y, t, k);
    if |y| < |u| {
    } else if y[..|u|] == u {
      if k == 0 {
        DistinctTokensNotBothPrefixes(y, t, u);
        assert false;
      } else if k < |u| {
        TokensDoNotOverlap(y, t, u, k);
        assert false;
      } else {
        var rest := y[|u|..];
        assert OccursAt(rest, t, k - |u|) by {
          assert rest[k - |u|..k - |u| + |t|] == y[k..k + |t|];
        }
        ReplaceAllKeepsOtherToken(rest, u, v, t);
        ContainsExtended(v, ReplaceAll(rest, u, v), t);
      }
    } else {
      var y1 := y[1..];
      var r1 := ReplaceAll(y1, u, v);
      if k == 0 {
        TokenKeptAtStart(y, u, v, t);
      } else {
        assert OccursAt(y1, t, k - 1) by {
          assert y1[k - 1..k - 1 + |t|] == y[k..k + |t|];
        }
        ReplaceAllKeepsOtherToken(y1, u, v, t);
        ContainsExtended([y[0]], r1, t);
      }
    }
  }

  lemma TokenKeptAtStart(y: string, u: string, v: string, t: string)
    requires IsBracketToken(u) && IsBracketToken(t)
    requires |y| >= 1 && OccursAt(y, t, 0)
    ensures OccursAt([y[0]] + ReplaceAll(y[1..], u, v), t, 0)
  {
    var y1 := y[1..];
    var r1 := ReplaceAll(y1, u, v);
    assert '[' !in t[1..] by {
      forall i | 0 <= i < |t[1..]| ensures t[1..][i] != '[' {
        assert t[1..][i] == t[i + 1];
      }
    }
    assert StartsWith(y1, t[1..]) by { assert y1[..|t| - 1] == y[1..|t|]; }
    ReplaceAllKeepsPrefix(y1, u, v, t[1..]);
    assert ([y[0]] + r1)[..|t|] == [y[0]] + r1[..|t| - 1];
    assert t == [t[0]] + t[1..];
  }

  /** `c.toLowerCase()` on the ASCII letters. */
  function ToLowerChar(c: char): char {
    if 'A' <= c <= 'Z' then (c as int + 32) as char else c
  }

  /** `s.toLowerCase()`, restricted to ASCII letters. */
  function ToLower(s: string): (r: string)
    ensures |r| == |s|
    ensures forall i :: 0 <= i < |s| ==> r[i] == ToLowerChar(s[i])
  {
    if s == [] then [] else [ToLowerChar(s[0])] + ToLower(s[1..])
  }

  predicate IsDigit(c: char) {
    '0' <= c <= '9'
  }

  function DigitChar(d: nat): (c: char)
    requires d < 10
    ensures IsDigit(c) && c as int - '0' as int == d
  {
    ('0' as int + d) as char
  }

  /** The decimal text `${n}` of a non-negative integer. */
  function NatToString(n: nat): (r: string)
    ensures r != []
    ensures forall i :: 0 <= i < |r| ==> IsDigit(r[i])
  {
    if n < 10 then [DigitChar(n)] else NatToString(n / 10) + [DigitChar(n % 10)]
  }

  /** The value of a text of decimal digits. */
  function ParseNat(s: string): nat
    requires forall i :: 0 <= i < |s| ==> IsDigit(s[i])
  {
    if s == [] then 0
    else assert IsDigit(s[|s| - 1]); ParseNat(s[..|s| - 1]) * 10 + (s[|s| - 1] as int - '0' as int)
  }

  lemma {:induction false} ParseNatToString(n: nat)
    ensures ParseNat(NatToString(n)) == n
  {
    if n >= 10 {
      var r := NatToString(n);
      assert r[..|r| - 1] == NatToString(n / 10);
      ParseNatToString(n / 10);
    }
  }
}
