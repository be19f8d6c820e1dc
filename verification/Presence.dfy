/** Presence entries: one store key per channel and connection, found again by pattern. */
module Presence {
  import opened Glob
  import opened EventIds

  const PREFIX := "oni:presence:"

  /** '.', '/' and ' ' become '_'. */
  function Sanitize(channel: string): (r: string)
    ensures |r| == |channel|
  {
    if channel == "" then ""
    else [if channel[0] in "./ " then '_' else channel[0]] + Sanitize(channel[1..])
  }

  function PresenceKey(channel: string, connID: string): string
  {
    PREFIX + Sanitize(channel) + ":" + connID
  }

  /** The pattern LeaveAll scans for. */
  function LeaveAllPattern(connID: string): string
  {
    PREFIX + "*:" + connID
  }

  predicate Plain(connID: string)
  {
    ':' !in connID && '*' !in connID
  }

  /** "conn-%x" */
  function ConnID(n: nat): string
  {
    "conn-" + Hex(n)
  }

  lemma {:induction false} HexIsPlain(n: nat)
    ensures Plain(Hex(n))
  {
    if n >= 16 {
      HexIsPlain(n / 16);
    }
  }

  lemma ConnIDIsPlain(n: nat)
    ensures Plain(ConnID(n))
  {
    HexIsPlain(n);
  }

  lemma {:induction false} PartsOfOneStar(a: string, b: string)
    requires '*' !in a && '*' !in b
    ensures Parts(a + "*" + b) == [a, b]
  {
    var p := a + "*" + b;
    if a == "" {
      assert p[1..] == b;
      PartsOfNone(b);
    } else {
      assert p[1..] == a[1..] + "*" + b;
      PartsOfOneStar(a[1..], b);
      assert [a[0]] + a[1..] == a;
    }
  }

  lemma {:induction false} PartsOfNone(b: string)
    requires '*' !in b
    ensures Parts(b) == [b]
  {
    if b != "" {
      PartsOfNone(b[1..]);
      assert [b[0]] + b[1..] == b;
    }
  }

  /** Two strings ending in ":" and a colon-free ID: one ends like the other only if the IDs agree. */
  lemma SuffixPinsID(before: string, id: string, other: string)
    requires ':' !in id && ':' !in other
    ensures HasSuffix(before + ":" + other, ":" + id) <==> id == other
  {
    var s, e := before + ":" + other, ":" + id;
    AfterColon(before, other);
    if HasSuffix(s, e) {
      var q := |s| - |e|;
      AfterColon(s[..q], id);
      assert s == s[..q] + s[q..];
      assert s[q..] == e;
      assert s[..q] + e == s[..q] + ":" + id;
      LastColon(s, |before|, q);
      assert s[q + 1..] == id;
    } else {
      assert s[|before|..] == ":" + other;
    }
  }

  /** A colon with no other behind it. */
  predicate ColonAt(s: string, p: nat)
  {
    p < |s| && s[p] == ':' && forall j :: p < j < |s| ==> s[j] != ':'
  }

  lemma AfterColon(before: string, id: string)
    requires ':' !in id
    ensures var s := before + ":" + id; ColonAt(s, |before|) && s[|before| + 1..] == id
  {
    var s := before + ":" + id;
    forall j | |before| < j < |s|
      ensures s[j] != ':'
    {
      assert s[j] == id[j - |before| - 1] && id[j - |before| - 1] in id;
    }
  }

  lemma LastColon(s: string, p: nat, q: nat)
    requires ColonAt(s, p) && ColonAt(s, q)
    ensures p == q
  {
  }

  /** LeaveAll's pattern picks exactly the presence keys of that connection, whatever the channel. */
  lemma LeaveAllPatternSelects(connID: string, channel: string, other: string)
    requires Plain(connID) && Plain(other)
    ensures Matches(LeaveAllPattern(connID), PresenceKey(channel, other)) <==> other == connID
  {
    KeySelected(PREFIX, Sanitize(channel), connID, other);
  }

  /** A pattern with one star is a prefix and a suffix that do not overlap. */
  lemma OneStarMatches(a: string, b: string, s: string)
    requires '*' !in a && '*' !in b
    ensures Matches(a + "*" + b, s) <==> HasPrefix(s, a) && HasSuffix(s[|a|..], b)
  {
    PartsOfOneStar(a, b);
    WovenMeansFollows([a, b], s);
    assert [a, b][1..] == [b];
  }

  lemma KeySelected(prefix: string, channel: string, id: string, other: string)
    requires Plain(id) && Plain(other) && '*' !in prefix
    ensures Matches(prefix + "*:" + id, prefix + channel + ":" + other) <==> other == id
  {
    var key, rest := prefix + channel + ":" + other, channel + ":" + other;
    assert prefix + "*:" + id == prefix + "*" + (":" + id);
    OneStarMatches(prefix, ":" + id, key);
    assert key[..|prefix|] == prefix && key[|prefix|..] == rest;
    SuffixPinsID(channel, id, other);
  }

  // ----------------------------------------------------- who is in a channel

  /** The pattern that Members scans for. */
  function MembersPattern(channel: string): string
  {
    PREFIX + Sanitize(channel) + ":*"
  }

  /** Two names that differ at most in which of '.', '/', ' ' and '_' they use. */
  predicate Alike(a: string, b: string)
  {
    |a| == |b| && forall i :: 0 <= i < |a| ==> a[i] == b[i] || (a[i] in "./ _" && b[i] in "./ _")
  }

  lemma {:induction false} SanitizedAt(channel: string)
    ensures forall i :: 0 <= i < |channel| ==>
              Sanitize(channel)[i] == if channel[i] in "./ " then '_' else channel[i]
  {
    if channel != "" {
      SanitizedAt(channel[1..]);
      assert forall i :: 0 < i < |channel| ==> channel[i] == channel[1..][i - 1];
    }
  }

  lemma SanitizedAlike(a: string, b: string)
    ensures Sanitize(a) == Sanitize(b) <==> Alike(a, b)
  {
    SanitizedAt(a);
    SanitizedAt(b);
    if Alike(a, b) {
      forall i | 0 <= i < |a|
        ensures Sanitize(a)[i] == Sanitize(b)[i]
      {
      }
    }
    if Sanitize(a) == Sanitize(b) {
      forall i | 0 <= i < |a|
        ensures a[i] == b[i] || (a[i] in "./ _" && b[i] in "./ _")
      {
        assert Sanitize(a)[i] == Sanitize(b)[i];
      }
    }
  }

  lemma {:induction false} SanitizedPart(b: string, k: nat)
    requires k <= |b|
    ensures Sanitize(b)[..k] == Sanitize(b[..k])
  {
    if k > 0 {
      SanitizedPart(b[1..], k - 1);
      assert b[..k][1..] == b[1..][..k - 1];
    }
  }

  /** The channel itself, up to the confused characters, or one that goes on with a colon after it. */
  predicate Listed(a: string, b: string)
  {
    |a| <= |b| && Alike(a, b[..|a|]) && (|a| < |b| ==> b[|a|] == ':')
  }

  /** What stands in front of a colon, or is all there is. */
  predicate UpToColon(a: string, b: string)
  {
    |a| <= |b| && b[..|a|] == a && (|a| < |b| ==> b[|a|] == ':')
  }

  /** A colon-free ID behind the last colon: the first name ends at some colon of the second, or at its end. */
  lemma PrefixAtColon(a: string, b: string, id: string)
    requires ':' !in id
    ensures HasPrefix(b + ":" + id, a + ":") <==> UpToColon(a, b)
  {
    var s, p := b + ":" + id, a + ":";
    if |a| <= |b| {
      assert s[..|a|] == b[..|a|];
      assert |p| <= |s| ==> s[..|p|] == s[..|a|] + [s[|a|]];
    } else if |p| <= |s| {
      assert s[|a|] == id[|a| - |b| - 1] && s[|a|] in id;
      assert p[|a|] == ':';
    }
  }

  lemma ListedIsUpToColon(a: string, b: string)
    ensures UpToColon(Sanitize(a), Sanitize(b)) <==> Listed(a, b)
  {
    if |a| <= |b| {
      SanitizedPart(b, |a|);
      SanitizedAlike(a, b[..|a|]);
      SanitizedAt(b);
    }
  }

  lemma KeyListed(prefix: string, a: string, b: string, id: string)
    requires '*' !in prefix && '*' !in a && ':' !in id
    ensures Matches(prefix + a + ":*", prefix + b + ":" + id) <==> UpToColon(a, b)
  {
    PrefixAtColon(a, b, id);
    StarredPrefix(prefix, a, b + ":" + id);
    assert prefix + b + ":" + id == prefix + (b + ":" + id);
  }

  /**
   Members of a channel finds exactly the entries of the channels of that name, of
   names that differ only in '.', '/', ' ' and '_', and of names that go on with a colon.
   */
  lemma MembersSelectExactly(a: string, b: string, connID: string)
    requires '*' !in a && Plain(connID)
    ensures Matches(MembersPattern(a), PresenceKey(b, connID)) <==> Listed(a, b)
  {
    NoStarSanitized(a);
    ListedIsUpToColon(a, b);
    KeyListed(PREFIX, Sanitize(a), Sanitize(b), connID);
  }

  lemma NoStarSanitized(channel: string)
    requires '*' !in channel
    ensures '*' !in Sanitize(channel)
  {
    SanitizedAt(channel);
    var s := Sanitize(channel);
    forall i | 0 <= i < |s|
      ensures s[i] != '*'
    {
      assert channel[i] in channel;
    }
  }

  lemma StarredPrefix(prefix: string, a: string, rest: string)
    requires '*' !in prefix && '*' !in a
    ensures Matches(prefix + a + ":*", prefix + rest) <==> HasPrefix(rest, a + ":")
  {
    var key, head := prefix + rest, prefix + a + ":";
    assert prefix + a + ":*" == head + "*" + "";
    OneStarMatches(head, "", key);
    assert |head| == |prefix| + |a + ":"|;
    if |head| <= |key| {
      assert key[..|head|] == prefix + rest[..|a + ":"|];
      assert head == prefix + (a + ":");
      assert key[..|head|][|prefix|..] == rest[..|a + ":"|] && head[|prefix|..] == a + ":";
    }
  }

  /** So a room whose name goes on with a colon is counted into the shorter one. */
  lemma SubroomIsListed(id: string)
    requires Plain(id)
    ensures Matches(MembersPattern("room"), PresenceKey("room:1", id))
  {
    MembersSelectExactly("room", "room:1", id);
  }

  /** The part of the store that presence uses. */
  class Members<V> {
    var data: map<string, V>

    /** All keys matching a pattern, in some order. */
    method Keys(pattern: string) returns (keys: seq<string>)
      ensures forall k :: k in keys <==> k in data && Matches(pattern, k)
    {
      keys := [];
      var todo := data.Keys;
      while todo != {}
        invariant todo <= data.Keys
        invariant forall k :: k in keys <==> k in data.Keys - todo && Matches(pattern, k)
        decreases todo
      {
        var k :| k in todo;
        var hit := GlobMatch(pattern, k);
        if hit {
          keys := keys + [k];
        }
        todo := todo - {k};
      }
    }

    /** Delete what the scan found, one key at a time. */
    method LeaveAll(connID: string)
      modifies this
      ensures data == map k | k in old(data) && !Matches(LeaveAllPattern(connID), k) :: old(data)[k]
    {
      var keys := Keys(LeaveAllPattern(connID));
      var i := 0;
      while i < |keys|
        invariant 0 <= i <= |keys|
        invariant data == map k | k in old(data) && k !in keys[..i] :: old(data)[k]
      {
        assert keys[..i + 1] == keys[..i] + [keys[i]];
        data := data - {keys[i]};
        i := i + 1;
      }
      assert keys[..|keys|] == keys;
    }
  }

  /** So a departing connection loses all its entries and nobody else loses any. */
  lemma LeaveAllIsExact<V>(before: map<string, V>, after: map<string, V>, n: nat, channel: string, m: nat)
    requires after == map k | k in before && !Matches(LeaveAllPattern(ConnID(n)), k) :: before[k]
    ensures var key := PresenceKey(channel, ConnID(m));
      key in after <==> key in before && ConnID(m) != ConnID(n)
  {
    ConnIDIsPlain(n);
    ConnIDIsPlain(m);
    LeaveAllPatternSelects(ConnID(n), channel, ConnID(m));
  }
}
