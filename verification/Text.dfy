/** The string operations that index names, dates and paths are built with. */
module Text {
  import opened Documents

  predicate OccursAt(s: string, pat: string, i: nat) {
    i + |pat| <= |s| && s[i..i + |pat|] == pat
  }

  ghost predicate Contains(s: string, pat: string) {
    exists i: nat :: OccursAt(s, pat, i)
  }

  lemma OccursChar(s: string, pat: string, i: nat, j: nat)
    requires OccursAt(s, pat, i) && j < |pat|
    ensures s[i + j] == pat[j] && pat[j] in s
  {
    assert s[i + j] == s[i..i + |pat|][j];
  }

  function ContainsFrom(s: string, pat: string, i: nat): (b: bool)
    requires i <= |s|
    ensures b <==> exists j: nat :: i <= j && OccursAt(s, pat, j)
    decreases |s| - i
  {
    OccursAt(s, pat, i) || (i < |s| && ContainsFrom(s, pat, i + 1))
  }

  // ----- splitting and joining on one separator

  function IndexOf(s: string, c: char): (i: nat)
    requires c in s
    ensures i < |s| && s[i] == c && c !in s[..i]
  {
    if s[0] == c then 0 else IndexOf(s[1..], c) + 1
  }

  function Split(s: string, c: char): (parts: seq<string>)
    ensures |parts| >= 1 && forall p <- parts :: c !in p
  {
    if c !in s then [s] else [s[..IndexOf(s, c)]] + Split(s[IndexOf(s, c) + 1..], c)
  }

  function Join(parts: seq<string>, c: char): string
    requires |parts| >= 1
  {
    if |parts| == 1 then parts[0] else parts[0] + [c] + Join(parts[1..], c)
  }

  lemma {:induction false} JoinSplit(s: string, c: char)
    ensures Join(Split(s, c), c) == s
  {
    if c in s {
      var i := IndexOf(s, c);
      JoinSplit(s[i + 1..], c);
      JoinHead(s[..i], Split(s[i + 1..], c), c);
      assert s == s[..i] + [c] + s[i + 1..];
    }
  }

  lemma JoinHead(a: string, rest: seq<string>, c: char)
    requires |rest| >= 1
    ensures Join([a] + rest, c) == a + [c] + Join(rest, c)
  {
    assert ([a] + rest)[1..] == rest;
  }

  lemma {:induction false} IndexOfPrefix(p: string, c: char, t: string)
    requires c !in p
    ensures c in p + [c] + t && IndexOf(p + [c] + t, c) == |p|
  {
    var s := p + [c] + t;
    assert s[|p|] == c;
    if p != "" {
      IndexOfPrefix(p[1..], c, t);
      assert s[1..] == p[1..] + [c] + t && s[0] == p[0];
    }
  }

  lemma {:induction false} SplitJoin(parts: seq<string>, c: char)
    requires |parts| >= 1 && forall p <- parts :: c !in p
    ensures Split(Join(parts, c), c) == parts
  {
    if |parts| > 1 {
      var t := Join(parts[1..], c);
      assert parts[0] in parts && forall p <- parts[1..] :: p in parts;
      SplitJoin(parts[1..], c);
      assert Join(parts, c) == parts[0] + [c] + t;
      SplitFirst(parts[0], c, t);
      assert parts == [parts[0]] + parts[1..];
    }
  }

  lemma SplitFirst(a: string, c: char, t: string)
    requires c !in a
    ensures Split(a + [c] + t, c) == [a] + Split(t, c)
  {
    var s := a + [c] + t;
    IndexOfPrefix(a, c, t);
    assert s[..|a|] == a && s[|a| + 1..] == t;
  }

  /** The parts of a prefix are the parts of the whole, but for the last one, which starts its counterpart. */
  lemma {:induction false} SplitOfPrefix(a: string, b: string, c: char)
    requires a <= b
    ensures var p, q := Split(a, c), Split(b, c);
            var last := |p| - 1;
            |p| <= |q| && p[..last] == q[..last] && p[last] <= q[last]
    decreases |a|
  {
    hide Split;
    if c in a {
      var i := IndexOf(a, c);
      var x, u, v := a[..i], a[i + 1..], b[i + 1..];
      assert a == x + [c] + u && b == x + [c] + v;
      hide IndexOf;
      assert u <= v;
      SplitFirst(x, c, u);
      SplitFirst(x, c, v);
      SplitOfPrefix(u, v, c);
      LongerFront(x, Split(u, c), Split(v, c));
    } else {
      hide IndexOf;
      UncutPrefix(a, b, c);
    }
  }

  lemma UncutPrefix(a: string, b: string, c: char)
    requires a <= b && c !in a
    ensures Split(a, c) == [a] && a <= Split(b, c)[0]
  {
    if c in b {
      var i := IndexOf(b, c);
      assert i >= |a| by { assert forall k :: 0 <= k < |a| ==> b[k] == a[k]; }
      assert Split(b, c)[0] == b[..i];
    }
  }

  lemma LongerFront(x: string, p: seq<string>, q: seq<string>)
    requires 1 <= |p| <= |q| && p[..|p| - 1] == q[..|p| - 1]
    ensures ([x] + p)[..|p|] == ([x] + q)[..|p|]
  {
    assert ([x] + p)[..|p|] == [x] + p[..|p| - 1] && ([x] + q)[..|p|] == [x] + q[..|p| - 1];
  }

  lemma {:induction false} SplitAdds(a: string, c: char, t: string)
    ensures |Split(a + [c] + t, c)| == |Split(a, c)| + |Split(t, c)|
    decreases |a|
  {
    if c !in a {
      SplitFirst(a, c, t);
    } else {
      var i := IndexOf(a, c);
      var x, y := a[..i], a[i + 1..];
      assert a == x + [c] + y;
      assert a + [c] + t == x + [c] + (y + [c] + t);
      SplitFirst(x, c, y);
      SplitFirst(x, c, y + [c] + t);
      SplitAdds(y, c, t);
    }
  }

  /** Splitting gives back as many parts as were joined exactly when no part holds the separator, and more otherwise. */
  lemma {:induction false} SplitCount(parts: seq<string>, c: char)
    requires |parts| >= 1
    ensures |Split(Join(parts, c), c)| >= |parts|
    ensures |Split(Join(parts, c), c)| == |parts| <==> forall p <- parts :: c !in p
  {
    hide Split, Join;
    if |parts| == 1 {
      assert parts == [parts[0]];
      SplitOne(parts[0], c);
    } else {
      var rest := parts[1..];
      assert parts == [parts[0]] + rest;
      SplitCount(rest, c);
      JoinHead(parts[0], rest, c);
      SplitAdds(parts[0], c, Join(rest, c));
      SplitOne(parts[0], c);
    }
  }

  lemma SplitOne(s: string, c: char)
    ensures Join([s], c) == s && (|Split(s, c)| == 1 <==> c !in s)
  {
  }

  /** A separator inside a part can be moved to the part's neighbour without changing the joined text. */
  lemma {:induction false} MoveSeparator(pre: seq<string>, x: string, y: string, z: string, post: seq<string>, c: char)
    ensures Join(pre + [x + [c] + y, z] + post, c) == Join(pre + [x, y + [c] + z] + post, c)
  {
    var a, b := pre + [x + [c] + y, z] + post, pre + [x, y + [c] + z] + post;
    if pre == [] {
      if post == [] {
        assert a == [x + [c] + y] + [z] && b == [x] + [y + [c] + z];
        JoinHead(x + [c] + y, [z], c);
        JoinHead(x, [y + [c] + z], c);
      } else {
        assert a == [x + [c] + y] + ([z] + post) && b == [x] + ([y + [c] + z] + post);
        JoinHead(z, post, c);
        JoinHead(x + [c] + y, [z] + post, c);
        JoinHead(y + [c] + z, post, c);
        JoinHead(x, [y + [c] + z] + post, c);
        SameText(x, y, z, Join(post, c), c);
      }
    } else {
      MoveSeparator(pre[1..], x, y, z, post, c);
      assert a == [pre[0]] + (pre[1..] + [x + [c] + y, z] + post);
      assert b == [pre[0]] + (pre[1..] + [x, y + [c] + z] + post);
      JoinHead(pre[0], pre[1..] + [x + [c] + y, z] + post, c);
      JoinHead(pre[0], pre[1..] + [x, y + [c] + z] + post, c);
    }
  }

  lemma SameText(x: string, y: string, z: string, t: string, c: char)
    ensures x + [c] + y + [c] + (z + [c] + t) == x + [c] + (y + [c] + z + [c] + t)
  {
  }

  /** Where one of several parts holds the separator, other parts have the same text. */
  lemma SeparatorMoves(parts: seq<string>, c: char, last: string) returns (other: seq<string>)
    requires |parts| >= 2 && exists p <- parts :: c in p
    ensures |other| == |parts| && other != parts && Join(other + [last], c) == Join(parts + [last], c)
  {
    hide Join;
    var i :| 0 <= i < |parts| && c in parts[i];
    var n := IndexOf(parts[i], c);
    var x, y := parts[i][..n], parts[i][n + 1..];
    assert parts[i] == x + [c] + y;
    if i + 1 < |parts| {
      var pre, post := parts[..i], parts[i + 2..];
      other := pre + [x, y + [c] + parts[i + 1]] + post;
      MoveSeparator(pre, x, y, parts[i + 1], post + [last], c);
      assert parts + [last] == pre + [x + [c] + y, parts[i + 1]] + (post + [last]);
      assert other + [last] == pre + [x, y + [c] + parts[i + 1]] + (post + [last]);
    } else {
      var pre := parts[..i - 1];
      other := pre + [parts[i - 1] + [c] + x, y];
      MoveSeparator(pre, parts[i - 1], x, y, [last], c);
      assert parts + [last] == pre + [parts[i - 1], x + [c] + y] + [last];
      assert other + [last] == pre + [parts[i - 1] + [c] + x, y] + [last];
    }
    assert |other[i]| < |parts[i]|;
  }

  /** A joined string starts with `a` and a separator exactly when its first part is `a` and another follows. */
  lemma JoinStartsWith(parts: seq<string>, c: char, a: string)
    requires |parts| >= 1 && (forall p <- parts :: c !in p) && c !in a
    ensures a + [c] <= Join(parts, c) <==> |parts| > 1 && parts[0] == a
  {
    var s := Join(parts, c);
    assert parts[0] in parts;
    if a + [c] <= s {
      assert s == a + [c] + s[|a| + 1..];
      IndexOfPrefix(a, c, s[|a| + 1..]);
      if |parts| > 1 {
        IndexOfPrefix(parts[0], c, Join(parts[1..], c));
        assert s[..|a|] == a && s[..|parts[0]|] == parts[0];
      }
    }
  }

  /** A joined string contains a separated word exactly when that word is one of its inner parts. */
  lemma {:induction false} JoinContains(parts: seq<string>, c: char, a: string)
    requires |parts| >= 1 && (forall p <- parts :: c !in p) && c !in a
    ensures Contains(Join(parts, c), [c] + a + [c]) <==> exists i :: 0 < i < |parts| - 1 && parts[i] == a
  {
    var pat := [c] + a + [c];
    assert parts[0] in parts;
    if |parts| == 1 {
      forall i: nat ensures !OccursAt(parts[0], pat, i) {
        if OccursAt(parts[0], pat, i) {
          OccursChar(parts[0], pat, i, 0);
        }
      }
    } else {
      var t := Join(parts[1..], c);
      JoinContains(parts[1..], c, a);
      JoinStartsWith(parts[1..], c, a);
      WordOccurrence(parts[0], c, t, a);
      InnerParts(parts, a);
    }
  }

  lemma HeadHasNone(p: string, c: char, t: string)
    requires c !in p
    ensures forall i :: 0 <= i < |p| ==> (p + [c] + t)[i] != c
  {
    assert forall i :: 0 <= i < |p| ==> (p + [c] + t)[i] == p[i];
  }

  /** A separated word occurs right after the first part or later in the rest. */
  lemma WordOccurrence(p: string, c: char, t: string, a: string)
    requires c !in p
    ensures var s, pat := p + [c] + t, [c] + a + [c];
            Contains(s, pat) <==> a + [c] <= t || Contains(t, pat)
  {
    var s, pat, n := p + [c] + t, [c] + a + [c], |p|;
    forall i: nat | OccursAt(s, pat, i) ensures i >= n {
      OccursChar(s, pat, i, 0);
      HeadHasNone(p, c, t);
    }
    assert s[n + 1..] == t && pat[1..] == a + [c];
    assert OccursAt(s, pat, n) <==> a + [c] <= t by {
      if |pat| - 1 <= |t| {
        assert s[n..n + |pat|] == [c] + t[..|pat| - 1];
        assert s[n..n + |pat|][1..] == t[..|pat| - 1];
      }
    }
    forall j: nat ensures OccursAt(s, pat, n + 1 + j) <==> OccursAt(t, pat, j) {
      if j + |pat| <= |t| {
        assert s[n + 1 + j..n + 1 + j + |pat|] == t[j..j + |pat|];
      }
    }
    InnerOccurrence(s, t, pat, n);
  }

  lemma InnerOccurrence(s: string, t: string, pat: string, n: nat)
    requires forall i: nat | OccursAt(s, pat, i) :: i >= n
    requires forall j: nat :: OccursAt(s, pat, n + 1 + j) <==> OccursAt(t, pat, j)
    ensures Contains(s, pat) <==> OccursAt(s, pat, n) || Contains(t, pat)
  {
    if i: nat :| OccursAt(s, pat, i) && i != n {
      assert OccursAt(s, pat, n + 1 + (i - n - 1)) && OccursAt(t, pat, i - n - 1);
    }
    if j: nat :| OccursAt(t, pat, j) {
      assert OccursAt(s, pat, n + 1 + j);
    }
  }

  lemma InnerParts(parts: seq<string>, a: string)
    requires |parts| > 1
    ensures (exists i :: 0 < i < |parts| - 1 && parts[i] == a) <==>
            (|parts| > 2 && parts[1] == a) || (exists i :: 0 < i < |parts[1..]| - 1 && parts[1..][i] == a)
  {
    if i :| 0 < i < |parts| - 1 && parts[i] == a && i > 1 {
      assert parts[1..][i - 1] == a;
    }
    if i :| 0 < i < |parts[1..]| - 1 && parts[1..][i] == a {
      assert parts[i + 1] == a;
    }
  }

  /** An occurrence of two separated words puts them at the end of one part and the start of the next. */
  lemma {:induction false} JoinContainsPair(parts: seq<string>, c: char, u: string, v: string)
    requires |parts| >= 1 && (forall p <- parts :: c !in p) && c !in u && c !in v && v != ""
    requires forall i :: 0 <= i < |parts| - 1 ==>
      !EndsWith(parts[i], u) || parts[i + 1] == "" || parts[i + 1][0] != v[0]
    ensures !Contains(Join(parts, c), u + [c] + v)
  {
    var s, pat := Join(parts, c), u + [c] + v;
    assert parts[0] in parts;
    if |parts| == 1 {
      forall i: nat ensures !OccursAt(s, pat, i) {
        if OccursAt(s, pat, i) {
          OccursChar(s, pat, i, |u|);
        }
      }
    } else {
      var t := Join(parts[1..], c);
      var n := |parts[0]|;
      assert forall i :: 0 <= i < |parts[1..]| ==> parts[1..][i] == parts[i + 1];
      JoinContainsPair(parts[1..], c, u, v);
      assert s == parts[0] + [c] + t;
      JoinFirst(parts[1..], c);
      forall i: nat ensures !OccursAt(s, pat, i) {
        if i + |pat| <= |s| && s[i..i + |pat|] == pat {
          PairPosition(parts[0], c, t, u, v, i);
          assert false;
        }
      }
    }
  }

  predicate EndsWith(s: string, u: string) {
    |u| <= |s| && s[|s| - |u|..] == u
  }

  /** The first character of a joined string is its first part's, or the separator. */
  lemma JoinFirst(parts: seq<string>, c: char)
    requires |parts| >= 1
    ensures Join(parts, c) == "" || Join(parts, c)[0] == c || (parts[0] != "" && Join(parts, c)[0] == parts[0][0])
  {
  }

  lemma PairPosition(p: string, c: char, t: string, u: string, v: string, i: nat)
    requires c !in p && c !in u && c !in v && v != ""
    requires OccursAt(p + [c] + t, u + [c] + v, i)
    ensures (EndsWith(p, u) && t != "" && t[0] == v[0]) || Contains(t, u + [c] + v)
  {
    var s, pat, n := p + [c] + t, u + [c] + v, |p|;
    HeadHasNone(p, c, t);
    OccursChar(s, pat, i, |u|);
    OccursChar(s, pat, i, |u| + 1);
    if i + |u| == n {
      PairAtSeparator(p, c, t, u, v);
    } else {
      if i <= n { OccursChar(s, pat, i, n - i); }
      PairInTail(p, c, t, pat, i);
    }
  }

  lemma PairAtSeparator(p: string, c: char, t: string, u: string, v: string)
    requires v != "" && |u| <= |p| && OccursAt(p + [c] + t, u + [c] + v, |p| - |u|)
    ensures EndsWith(p, u) && t != "" && t[0] == v[0]
  {
    var s, pat, i := p + [c] + t, u + [c] + v, |p| - |u|;
    OccursChar(s, pat, i, |u| + 1);
    forall j | 0 <= j < |u| ensures p[i + j] == u[j] { OccursChar(s, pat, i, j); }
    assert p[i..] == u;
  }

  lemma PairInTail(p: string, c: char, t: string, pat: string, i: nat)
    requires OccursAt(p + [c] + t, pat, i) && i > |p|
    ensures Contains(t, pat)
  {
    var s, k := p + [c] + t, i - |p| - 1;
    assert t[k..k + |pat|] == s[i..i + |pat|];
    assert OccursAt(t, pat, k);
  }

  // ----- separated words

  function Dash(a: string, t: string): string {
    a + "_" + t
  }

  lemma SplitCons(a: string, t: string)
    requires '_' !in a
    ensures Split(Dash(a, t), '_') == [a] + Split(t, '_')
  {
    SplitFirst(a, '_', t);
  }

  lemma JoinCons(a: string, rest: seq<string>)
    requires |rest| >= 1
    ensures Join([a] + rest, '_') == Dash(a, Join(rest, '_'))
  {
    assert ([a] + rest)[1..] == rest;
  }

  /** `s_rest` is a prefix of `b_t` exactly when the words agree and `rest` is a prefix of `t`. */
  lemma DashStarts(b: string, t: string, s: string, rest: string)
    requires '_' !in b && '_' !in s
    ensures Dash(s, rest) <= Dash(b, t) <==> b == s && rest <= t
  {
    if Dash(s, rest) <= Dash(b, t) {
      var whole := Dash(b, t);
      assert whole == Dash(s, rest) + whole[|Dash(s, rest)|..] == s + ['_'] + (rest + whole[|Dash(s, rest)|..]);
      IndexOfPrefix(s, '_', rest + whole[|Dash(s, rest)|..]);
      IndexOfPrefix(b, '_', t);
      assert whole[..|b|] == b && whole[..|s|] == s;
      assert whole[|b| + 1..] == t;
    }
  }

  // ----- replacing

  /** strings.ReplaceAll: leftmost occurrences that do not overlap. */
  function ReplaceAll(s: string, old_: string, new_: string): string
    requires |old_| > 0
  {
    if |s| < |old_| then s
    else if old_ <= s then new_ + ReplaceAll(s[|old_|..], old_, new_)
    else [s[0]] + ReplaceAll(s[1..], old_, new_)
  }

  /** Text in front without the first character of the pattern is copied. */
  lemma {:induction false} ReplaceSkips(p: string, t: string, old_: string, new_: string)
    requires |old_| > 0 && old_[0] !in p
    ensures ReplaceAll(p + t, old_, new_) == p + ReplaceAll(t, old_, new_)
  {
    var s := p + t;
    if p == "" {
      assert s == t;
    } else if |s| < |old_| {
      ReplaceShort(s, old_, new_);
      ReplaceShort(t, old_, new_);
    } else {
      assert s[0] == p[0] != old_[0];
      assert s[1..] == p[1..] + t;
      ReplaceSkips(p[1..], t, old_, new_);
      var r := ReplaceAll(t, old_, new_);
      assert ReplaceAll(s, old_, new_) == [s[0]] + ReplaceAll(s[1..], old_, new_);
      assert [p[0]] + (p[1..] + r) == p + r;
    }
  }

  lemma ReplaceShort(t: string, old_: string, new_: string)
    requires |old_| > 0 && |t| < |old_|
    ensures ReplaceAll(t, old_, new_) == t
  {
  }

  lemma {:induction false} ReplaceAbsent(s: string, old_: string, new_: string)
    requires |old_| > 0 && !Contains(s, old_)
    ensures ReplaceAll(s, old_, new_) == s
  {
    if |s| >= |old_| {
      assert !OccursAt(s, old_, 0);
      assert s[..|old_|] != old_;
      forall i: nat ensures !OccursAt(s[1..], old_, i) {
        assert !OccursAt(s, old_, i + 1);
        if i + |old_| <= |s| - 1 {
          assert s[1..][i..i + |old_|] == s[i + 1..i + 1 + |old_|];
        }
      }
      ReplaceAbsent(s[1..], old_, new_);
    }
  }

  /** A word and separator that do not start an occurrence are copied. */
  lemma ReplaceDash(a: string, t: string, old_: string, new_: string)
    requires |old_| > 0 && old_[0] == '_' && '_' !in a && !(old_ <= "_" + t)
    ensures ReplaceAll(Dash(a, t), old_, new_) == Dash(a, ReplaceAll(t, old_, new_))
  {
    assert Dash(a, t) == a + ("_" + t);
    ReplaceSkips(a, "_" + t, old_, new_);
    assert ("_" + t)[1..] == t;
    if |"_" + t| < |old_| {
      ReplaceShort(t, old_, new_);
    }
    assert ReplaceAll("_" + t, old_, new_) == "_" + ReplaceAll(t, old_, new_);
  }

  lemma ReplaceHit(a: string, t: string, old_: string, new_: string)
    requires |old_| > 0 && old_[0] !in a
    ensures ReplaceAll(a + old_ + t, old_, new_) == a + new_ + ReplaceAll(t, old_, new_)
  {
    assert a + old_ + t == a + (old_ + t);
    ReplaceSkips(a, old_ + t, old_, new_);
    assert (old_ + t)[|old_|..] == t;
  }

  // ----- decimal numbers

  const MAX_INT := 0x7FFF_FFFF_FFFF_FFFF

  predicate IsDigit(c: char) {
    '0' <= c <= '9'
  }

  function DigitChar(d: nat): (c: char)
    requires d < 10
    ensures IsDigit(c) && DigitValue(c) == d
  {
    '0' + d as char
  }

  function DigitValue(c: char): (d: nat)
    requires IsDigit(c)
    ensures d < 10
  {
    c as int - '0' as int
  }

  function Digits(n: nat): (s: string)
    ensures s != "" && forall c <- s :: IsDigit(c)
  {
    if n < 10 then [DigitChar(n)] else Digits(n / 10) + [DigitChar(n % 10)]
  }

  function Value(s: string): nat
    requires forall c <- s :: IsDigit(c)
  {
    if s == "" then 0 else
      assert s[|s| - 1] in s;
      Value(s[..|s| - 1]) * 10 + DigitValue(s[|s| - 1])
  }

  lemma {:induction false} ValueOfDigits(n: nat)
    ensures Value(Digits(n)) == n
  {
    if n >= 10 {
      ValueOfDigits(n / 10);
      assert Digits(n)[..|Digits(n)| - 1] == Digits(n / 10);
    } else {
      assert Digits(n)[..0] == "";
    }
  }

  function Itoa(n: int): string {
    if n < 0 then "-" + Digits(-n) else Digits(n)
  }

  /** strconv.Atoi on a 64-bit platform. */
  function Atoi(s: string): Option<int> {
    var body := if s != "" && (s[0] == '+' || s[0] == '-') then s[1..] else s;
    if body == "" || exists c <- body :: !IsDigit(c) then None
    else
      var v := (if s[0] == '-' then -1 else 1) * Value(body);
      if -MAX_INT - 1 <= v <= MAX_INT then Some(v) else None
  }

  lemma AtoiItoa(n: int)
    requires -MAX_INT - 1 <= n <= MAX_INT
    ensures Atoi(Itoa(n)) == Some(n) && '_' !in Itoa(n)
  {
    hide Value, Digits;
    var d := Digits(if n < 0 then -n else n);
    ValueOfDigits(if n < 0 then -n else n);
    assert d[0] in d;
    if n < 0 {
      assert ("-" + d)[0] == '-' && ("-" + d)[1..] == d;
    }
  }

  lemma {:induction false} ValueGrows(a: string, b: string)
    requires (forall c <- a :: IsDigit(c)) && forall c <- b :: IsDigit(c)
    ensures forall c <- a + b :: IsDigit(c)
    ensures Value(a + b) >= Value(a) && (b != "" ==> Value(a + b) >= 10 * Value(a))
  {
    if b == "" {
      assert a + b == a;
    } else {
      var n := |b| - 1;
      ValueGrows(a, b[..n]);
      assert (a + b)[..|a + b| - 1] == a + b[..n];
    }
  }

  /** A number whose decimal text starts another's is not its neighbour. */
  lemma DigitsPrefix(m: nat, n: nat)
    requires Digits(m) <= Digits(n) && m != n
    ensures n >= m + 2
  {
    hide Digits, Value;
    ValueOfDigits(m);
    ValueOfDigits(n);
    var rest := Digits(n)[|Digits(m)|..];
    assert Digits(n) == Digits(m) + rest;
    ValueGrows(Digits(m), rest);
    assert rest == "" ==> Digits(m) + rest == Digits(m);
    if m == 0 && n == 1 {
      ZeroAndOne();
    }
  }

  lemma ZeroAndOne()
    ensures !(Digits(0) <= Digits(1))
  {
    assert Digits(0)[0] == '0' && Digits(1)[0] == '1';
  }

  lemma ItoaPrefix(m: int, n: int)
    requires Itoa(m) <= Itoa(n) && m != n
    ensures n >= m + 2 || n <= m - 2
  {
    hide Digits;
    var a, b := Itoa(m), Itoa(n);
    assert a[0] == b[0];
    var d, e := Digits(if m < 0 then -m else m), Digits(if n < 0 then -n else n);
    assert d[0] in d && e[0] in e;
    if m < 0 {
      assert a[1..] == d && b[1..] == e;
    }
    DigitsPrefix(if m < 0 then -m else m, if n < 0 then -n else n);
  }

  // ----- lexicographic order

  /** Go's `<` on strings. */
  predicate StrLess(a: string, b: string) {
    b != "" && (a == "" || a[0] < b[0] || (a[0] == b[0] && StrLess(a[1..], b[1..])))
  }

  predicate StrLe(a: string, b: string) {
    !StrLess(b, a)
  }

  lemma {:induction false} StrLessTotal(a: string, b: string)
    ensures (StrLess(a, b) && !StrLess(b, a) && a != b) || (StrLess(b, a) && !StrLess(a, b) && a != b) ||
            (a == b && !StrLess(a, b))
  {
    if a != "" && b != "" && a[0] == b[0] {
      StrLessTotal(a[1..], b[1..]);
      assert a == [a[0]] + a[1..] && b == [b[0]] + b[1..];
    }
  }

  lemma {:induction false} StrLessTransitive(a: string, b: string, c: string)
    requires StrLess(a, b) && StrLess(b, c)
    ensures StrLess(a, c)
  {
    if a != "" && a[0] == b[0] == c[0] {
      StrLessTransitive(a[1..], b[1..], c[1..]);
    }
  }

  lemma StrLeTransitive(a: string, b: string, c: string)
    requires StrLe(a, b) && StrLe(b, c)
    ensures StrLe(a, c)
  {
    StrLessTotal(a, b);
    StrLessTotal(b, c);
    StrLessTotal(a, c);
    if StrLess(a, b) && StrLess(b, c) {
      StrLessTransitive(a, b, c);
    }
  }

  /** Strings that start with blocks of the same length are ordered by the blocks first. */
  lemma {:induction false} StrLessBlocks(p: string, q: string, s: string, t: string)
    requires |p| == |q|
    ensures StrLess(p + s, q + t) <==> StrLess(p, q) || (p == q && StrLess(s, t))
  {
    if p == "" {
      assert p + s == s && q + t == t;
    } else {
      assert (p + s)[0] == p[0] && (q + t)[0] == q[0];
      assert (p + s)[1..] == p[1..] + s && (q + t)[1..] == q[1..] + t;
      StrLessBlocks(p[1..], q[1..], s, t);
      assert p == [p[0]] + p[1..] && q == [q[0]] + q[1..];
    }
  }

  // ----- dates written as full-date in section 5.6 of RFC 3339

  function TwoDigits(n: nat): (s: string)
    requires n < 100
    ensures |s| == 2
  {
    [DigitChar(n / 10), DigitChar(n % 10)]
  }

  function FormatDate(y: nat, m: nat, d: nat): string
    requires y < 10_000 && m < 100 && d < 100
  {
    TwoDigits(y / 100) + (TwoDigits(y % 100) + ("-" + (TwoDigits(m) + ("-" + TwoDigits(d)))))
  }

  lemma TwoDigitsOrder(a: nat, b: nat)
    requires a < 100 && b < 100
    ensures StrLess(TwoDigits(a), TwoDigits(b)) <==> a < b
    ensures TwoDigits(a) == TwoDigits(b) <==> a == b
  {
    var s, t := TwoDigits(a), TwoDigits(b);
    assert DigitValue(s[0]) == a / 10 && DigitValue(t[0]) == b / 10;
    assert DigitValue(s[1]) == a % 10 && DigitValue(t[1]) == b % 10;
    assert s[1..] == [s[1]] && t[1..] == [t[1]] && s[1..][1..] == "" && t[1..][1..] == "";
    assert StrLess(s[1..], t[1..]) <==> s[1] < t[1];
  }

  lemma DashIsEqual()
    ensures !StrLess("-", "-")
  {
  }

  /** The text order of dates is the calendar order. */
  lemma DateOrder(y: nat, m: nat, d: nat, y': nat, m': nat, d': nat)
    requires y < 10_000 && m < 100 && d < 100 && y' < 10_000 && m' < 100 && d' < 100
    ensures StrLess(FormatDate(y, m, d), FormatDate(y', m', d')) <==>
            y < y' || (y == y' && (m < m' || (m == m' && d < d')))
  {
    hide TwoDigits, StrLess;
    var dd, dd' := TwoDigits(d), TwoDigits(d');
    var mm, mm' := TwoDigits(m), TwoDigits(m');
    var rest, rest' := mm + ("-" + dd), mm' + ("-" + dd');
    StrLessBlocks("-", "-", dd, dd');
    DashIsEqual();
    StrLessBlocks(mm, mm', "-" + dd, "-" + dd');
    StrLessBlocks("-", "-", rest, rest');
    StrLessBlocks(TwoDigits(y % 100), TwoDigits(y' % 100), "-" + rest, "-" + rest');
    StrLessBlocks(TwoDigits(y / 100), TwoDigits(y' / 100), TwoDigits(y % 100) + ("-" + rest),
                  TwoDigits(y' % 100) + ("-" + rest'));
    TwoDigitsOrder(d, d');
    TwoDigitsOrder(m, m');
    TwoDigitsOrder(y / 100, y' / 100);
    TwoDigitsOrder(y % 100, y' % 100);
  }
}
