/** Key patterns: "*" stands for any run of characters, anywhere, any number of times. */
module Glob {

  /** strings.Split(p, "*"). */
  function Parts(p: string): (parts: seq<string>)
    ensures parts != []
    ensures forall k :: 0 <= k < |parts| ==> '*' !in parts[k]
    ensures |parts| == 1 <==> '*' !in p
  {
    if p == "" then [""]
    else
      var rest := Parts(p[1..]);
      if p[0] == '*' then [""] + rest else [[p[0]] + rest[0]] + rest[1..]
  }

  /** The literal parts with one string between each two. */
  function Weave(parts: seq<string>, fills: seq<string>): string
    requires |parts| == |fills| + 1
  {
    if fills == [] then parts[0] else parts[0] + fills[0] + Weave(parts[1..], fills[1..])
  }

  /** What a pattern means: s is the pattern with every "*" replaced by some string. */
  ghost predicate Matches(pattern: string, s: string)
  {
    Woven(Parts(pattern), s)
  }

  ghost predicate Woven(parts: seq<string>, s: string)
    requires parts != []
  {
    exists fills: seq<string> :: |fills| == |parts| - 1 && Weave(parts, fills) == s
  }

  function Stars(k: nat): (fills: seq<string>)
    ensures |fills| == k
  {
    seq(k, _ => "*")
  }

  /** The reading is the right one: filling every gap with "*" gives the pattern back. */
  lemma {:induction false} PatternIsItsOwnWeave(p: string)
    ensures Weave(Parts(p), Stars(|Parts(p)| - 1)) == p
  {
    if p != "" {
      var rest := Parts(p[1..]);
      var k := |rest| - 1;
      PatternIsItsOwnWeave(p[1..]);
      if p[0] == '*' {
        assert Stars(k + 1)[1..] == Stars(k);
        assert Parts(p)[1..] == rest;
        assert Weave(Parts(p), Stars(k + 1)) == "" + "*" + Weave(rest, Stars(k));
      } else {
        WeaveFirst(p[0], rest, Stars(k));
      }
    }
  }

  lemma WeaveFirst(c: char, parts: seq<string>, fills: seq<string>)
    requires |parts| == |fills| + 1
    ensures Weave([[c] + parts[0]] + parts[1..], fills) == [c] + Weave(parts, fills)
  {
    var parts' := [[c] + parts[0]] + parts[1..];
    assert parts'[1..] == parts[1..];
    if fills != [] {
      var more := Weave(parts[1..], fills[1..]);
      assert [c] + parts[0] + fills[0] + more == [c] + (parts[0] + fills[0] + more);
    }
  }

  predicate HasPrefix(s: string, p: string)
  {
    |p| <= |s| && s[..|p|] == p
  }

  predicate HasSuffix(s: string, p: string)
  {
    |p| <= |s| && s[|s| - |p|..] == p
  }

  predicate OccursAt(s: string, sub: string, i: nat)
  {
    i + |sub| <= |s| && s[i..i + |sub|] == sub
  }

  /** strings.Index: the leftmost occurrence, or -1. */
  method Index(s: string, sub: string) returns (idx: int)
    ensures -1 <= idx
    ensures idx >= 0 ==> OccursAt(s, sub, idx)
    ensures forall i: nat :: OccursAt(s, sub, i) ==> 0 <= idx <= i
  {
    idx := 0;
    while idx + |sub| <= |s|
      invariant 0 <= idx
      invariant forall i: nat :: i < idx ==> !OccursAt(s, sub, i)
      decreases |s| - idx
    {
      if s[idx..idx + |sub|] == sub {
        return;
      }
      idx := idx + 1;
    }
    idx := -1;
  }

  /** s is some string, then the first part, then some string, and so on, ending in the last part. */
  ghost predicate Follows(parts: seq<string>, s: string)
  {
    if parts == [] then s == ""
    else if |parts| == 1 then HasSuffix(s, parts[0])
    else exists i: nat :: OccursAt(s, parts[0], i) && Follows(parts[1..], s[i + |parts[0]|..])
  }

  lemma {:induction false} WovenMeansFollows(parts: seq<string>, s: string)
    requires |parts| > 1
    ensures Woven(parts, s) <==> HasPrefix(s, parts[0]) && Follows(parts[1..], s[|parts[0]|..])
  {
    if Woven(parts, s) {
      var fills: seq<string> :| |fills| == |parts| - 1 && Weave(parts, fills) == s;
      WeaveFollows(parts, fills);
    }
    if HasPrefix(s, parts[0]) && Follows(parts[1..], s[|parts[0]|..]) {
      var fills := FollowsWeaves(parts[1..], s[|parts[0]|..]);
      assert parts[0] + s[|parts[0]|..] == s;
      WeaveHead(parts, fills);
    }
  }

  /** The woven string after its first part. */
  function Tail(parts: seq<string>, fills: seq<string>): string
    requires |parts| == |fills| > 0
  {
    fills[0] + Weave(parts, fills[1..])
  }

  lemma WeaveHead(parts: seq<string>, fills: seq<string>)
    requires |parts| == |fills| + 1 > 1
    ensures Weave(parts, fills) == parts[0] + Tail(parts[1..], fills)
  {
    assert parts[0] + fills[0] + Weave(parts[1..], fills[1..]) == parts[0] + (fills[0] + Weave(parts[1..], fills[1..]));
  }

  lemma {:induction false} WeaveFollows(parts: seq<string>, fills: seq<string>)
    requires |parts| == |fills| + 1 > 1
    ensures var s := Weave(parts, fills);
      HasPrefix(s, parts[0]) && Follows(parts[1..], s[|parts[0]|..])
    decreases |parts|
  {
    var rest := parts[1..];
    WeaveHead(parts, fills);
    var s := Tail(rest, fills);
    if |rest| > 1 {
      WeaveFollows(rest, fills[1..]);
      var i := |fills[0]|;
      var woven := Weave(rest, fills[1..]);
      assert s[i..] == woven;
      assert s[i..i + |rest[0]|] == woven[..|rest[0]|];
      assert s[i + |rest[0]|..] == woven[|rest[0]|..];
      assert OccursAt(s, rest[0], i);
    } else {
      assert s == fills[0] + rest[0];
    }
  }

  lemma {:induction false} FollowsWeaves(parts: seq<string>, s: string) returns (fills: seq<string>)
    requires parts != [] && Follows(parts, s)
    ensures |fills| == |parts| && Tail(parts, fills) == s
    decreases |parts|
  {
    if |parts| == 1 {
      fills := [s[..|s| - |parts[0]|]];
    } else {
      var i: nat :| OccursAt(s, parts[0], i) && Follows(parts[1..], s[i + |parts[0]|..]);
      var more := FollowsWeaves(parts[1..], s[i + |parts[0]|..]);
      fills := [s[..i]] + more;
      assert fills[1..] == more;
      WeaveHead(parts, more);
      assert s == s[..i] + (parts[0] + s[i + |parts[0]|..]);
    }
  }

  /** What can follow in a suffix can follow in the whole: the first gap absorbs the difference. */
  lemma FollowsLonger(parts: seq<string>, s: string, k: nat)
    requires parts != [] && k <= |s| && Follows(parts, s[k..])
    ensures Follows(parts, s)
  {
    if |parts| == 1 {
      assert s[k..][|s| - k - |parts[0]|..] == s[|s| - |parts[0]|..];
    } else {
      var i: nat :| OccursAt(s[k..], parts[0], i) && Follows(parts[1..], s[k..][i + |parts[0]|..]);
      assert s[k..][i..i + |parts[0]|] == s[k + i..k + i + |parts[0]|];
      assert s[k..][i + |parts[0]|..] == s[k + i + |parts[0]|..];
      assert OccursAt(s, parts[0], k + i);
    }
  }

  /** So taking the leftmost occurrence of each middle part is never wrong. */
  lemma LeftmostSuffices(parts: seq<string>, s: string, idx: int)
    requires |parts| > 1
    requires idx >= 0 ==> OccursAt(s, parts[0], idx)
    requires forall i: nat :: OccursAt(s, parts[0], i) ==> 0 <= idx <= i
    ensures Follows(parts, s) <==> idx >= 0 && Follows(parts[1..], s[idx + |parts[0]|..])
  {
    if Follows(parts, s) {
      var i: nat :| OccursAt(s, parts[0], i) && Follows(parts[1..], s[i + |parts[0]|..]);
      var rest := s[idx + |parts[0]|..];
      assert rest[i - idx..] == s[i + |parts[0]|..];
      FollowsLonger(parts[1..], rest, i - idx);
    }
  }

  /** globMatch: prefix, leftmost middles, suffix. Greedy, and exactly the pattern's meaning. */
  method GlobMatch(pattern: string, s: string) returns (ok: bool)
    ensures ok <==> Matches(pattern, s)
  {
    if pattern == "*" {
      StarMatchesAll(s);
      return true;
    }
    var parts := Parts(pattern);
    if '*' !in pattern {
      WholeWeave(pattern, s);
      return pattern == s;
    }
    WovenMeansFollows(parts, s);
    if !HasPrefix(s, parts[0]) {
      return false;
    }
    ok := MatchRest(parts[1..], s[|parts[0]|..]);
  }

  /** The loop over the middle parts, each at its leftmost place, and the final suffix test. */
  method MatchRest(parts: seq<string>, s: string) returns (ok: bool)
    requires parts != []
    ensures ok <==> Follows(parts, s)
  {
    ghost var want := Follows(parts, s);
    var rest, k := s, 0;
    assert parts[0..] == parts;
    while k < |parts| - 1
      invariant 0 <= k < |parts|
      invariant Follows(parts[k..], rest) == want
    {
      var idx := Index(rest, parts[k]);
      LeftmostSuffices(parts[k..], rest, idx);
      assert parts[k..][1..] == parts[k + 1..];
      if idx < 0 {
        return false;
      }
      rest := rest[idx + |parts[k]|..];
      k := k + 1;
    }
    assert parts[k..] == [parts[|parts| - 1]];
    ok := HasSuffix(rest, parts[|parts| - 1]);
  }

  lemma StarMatchesAll(s: string)
    ensures Matches("*", s)
  {
    var p := "*";
    assert p[1..] == "";
    assert Parts(p) == ["", ""];
    WovenMeansFollows(Parts(p), s);
  }

  /** Without a star only the pattern itself matches. */
  lemma WholeWeave(pattern: string, s: string)
    requires '*' !in pattern
    ensures Matches(pattern, s) <==> pattern == s
  {
    PatternIsItsOwnWeave(pattern);
    var none: seq<string> := [];
    assert Stars(0) == none;
    assert Weave(Parts(pattern), none) == pattern;
  }
}
