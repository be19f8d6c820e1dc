/**
 Route patterns as a printer and a parser: URL prints a path from parameters,
 match reads the parameters back.
 */
module Routing {
  import opened Options
  import opened Seqs

  /** As in the program: wild first, then a named parameter, else a literal. */
  datatype Segment = Segment(lit: string, param: string, wild: bool)

  type Params = map<string, string>

  /** strings.Split(s, "/"). */
  function Split(s: string): (parts: seq<string>)
    ensures parts != []
    ensures forall k :: 0 <= k < |parts| ==> '/' !in parts[k]
  {
    if s == "" then [""]
    else
      var rest := Split(s[1..]);
      if s[0] == '/' then [""] + rest else [[s[0]] + rest[0]] + rest[1..]
  }

  /** strings.Join(parts, "/"). */
  function Join(parts: seq<string>): string
  {
    if parts == [] then "" else if |parts| == 1 then parts[0] else parts[0] + "/" + Join(parts[1..])
  }

  predicate EndsInSlash(s: string)
  {
    s != "" && s[|s| - 1] == '/'
  }

  function TrimPrefix(p: string): string
  {
    if p != "" && p[0] == '/' then p[1..] else p
  }

  function TrimSuffix(p: string): string
  {
    if EndsInSlash(p) then p[..|p| - 1] else p
  }

  function SplitPath(path: string): seq<string>
  {
    var p := TrimSuffix(TrimPrefix(path));
    if p == "" then [] else Split(p)
  }

  // ------------------------------------------------------------- patterns

  /** One non-empty component of a pattern. */
  function Component(p: string): Segment
    requires p != ""
  {
    if p[0] == '*' then Segment("", if p[1..] == "" then "*" else p[1..], true)
    else if p[0] == ':' then Segment("", p[1..], false)
    else if p[0] == '{' && p[|p| - 1] == '}' && |p| >= 2 then Segment("", p[1..|p| - 1], false)
    else Segment(p, "", false)
  }

  function Components(parts: seq<string>): seq<Segment>
  {
    if parts == [] then []
    else (if parts[0] == "" then [] else [Component(parts[0])]) + Components(parts[1..])
  }

  method ParsePattern(pattern: string) returns (segs: seq<Segment>)
    ensures segs == Components(SplitPath(pattern))
  {
    var parts := SplitPath(pattern);
    segs := [];
    var i := 0;
    while i < |parts|
      invariant 0 <= i <= |parts|
      invariant segs + Components(parts[i..]) == Components(parts)
    {
      ComponentsStep(segs, parts, i);
      if parts[i] != "" {
        segs := segs + [Component(parts[i])];
      }
      i := i + 1;
    }
    assert parts[i..] == [];
  }

  lemma ComponentsStep(segs: seq<Segment>, parts: seq<string>, i: nat)
    requires i < |parts|
    ensures segs + Components(parts[i..]) ==
            (if parts[i] == "" then segs else segs + [Component(parts[i])]) + Components(parts[i + 1..])
  {
    assert parts[i..][0] == parts[i] && parts[i..][1..] == parts[i + 1..];
    if parts[i] != "" {
      Assoc(segs, [Component(parts[i])], Components(parts[i + 1..]));
    }
  }

  // ------------------------------------------------------------- matching

  /** The rest of a match, with the parameters read so far. */
  function MatchFrom(segs: seq<Segment>, parts: seq<string>, params: Params): Option<Params>
    decreases |segs|
  {
    if segs == [] then if parts == [] then Some(params) else None
    else if segs[0].wild then Some(params[segs[0].param := Join(parts)])
    else if segs[0].param != "" then
      if parts == [] then None else MatchFrom(segs[1..], parts[1..], params[segs[0].param := parts[0]])
    else
      if parts == [] || parts[0] != segs[0].lit then None else MatchFrom(segs[1..], parts[1..], params)
  }

  method Match(segs: seq<Segment>, path: string) returns (r: Option<Params>)
    ensures r == MatchFrom(segs, SplitPath(path), map[])
  {
    var parts := SplitPath(path);
    ghost var goal := MatchFrom(segs, parts, map[]);
    var params: Params := map[];
    var pi, i := 0, 0;
    while i < |segs|
      invariant 0 <= i <= |segs| && 0 <= pi <= |parts|
      invariant MatchFrom(segs[i..], parts[pi..], params) == goal
    {
      var seg := segs[i];
      assert segs[i..][1..] == segs[i + 1..];
      assert pi < |parts| ==> parts[pi..][1..] == parts[pi + 1..] && parts[pi..][0] == parts[pi];
      if seg.wild {
        return Some(params[seg.param := Join(parts[pi..])]);
      } else if seg.param != "" {
        if pi >= |parts| {
          return None;
        }
        params := params[seg.param := parts[pi]];
      } else {
        if pi >= |parts| || parts[pi] != seg.lit {
          return None;
        }
      }
      pi := pi + 1;
      i := i + 1;
    }
    assert segs[i..] == [];
    if pi != |parts| {
      return None;
    }
    assert parts[pi..] == [];
    return Some(params);
  }

  // ------------------------------------------------------------- printing

  /** What a segment prints; None when a named parameter is missing. */
  function Text(seg: Segment, kv: Params): Option<string>
  {
    if seg.wild then Some(if seg.param in kv then kv[seg.param] else "")
    else if seg.param != "" then (if seg.param in kv then Some(kv[seg.param]) else None)
    else Some(seg.lit)
  }

  function Print(segs: seq<Segment>, kv: Params): Option<string>
  {
    if segs == [] then Some("")
    else
      var t, rest := Text(segs[0], kv), Print(segs[1..], kv);
      if t.None? || rest.None? then None else Some("/" + t.value + rest.value)
  }

  /** The key-value list of a call, later pairs winning, an odd tail ignored. */
  function Pairs(params: seq<string>): Params
  {
    Onto(map[], params)
  }

  function Onto(kv: Params, params: seq<string>): Params
    decreases |params|
  {
    if |params| < 2 then kv else Onto(kv[params[0] := params[1]], params[2..])
  }

  method KeyValues(params: seq<string>) returns (kv: Params)
    ensures kv == Pairs(params)
  {
    kv := map[];
    assert params[0..] == params;
    var i := 0;
    while i + 1 < |params|
      invariant 0 <= i <= |params|
      invariant Onto(kv, params[i..]) == Pairs(params)
    {
      assert params[i..][2..] == params[i + 2..];
      kv := kv[params[i] := params[i + 1]];
      i := i + 2;
    }
  }

  function Prefixed(out: string, rest: Option<string>): Option<string>
  {
    if rest.None? then None else Some(out + rest.value)
  }

  method URL(segs: seq<Segment>, params: seq<string>) returns (r: Option<string>)
    ensures r == Print(segs, Pairs(params))
  {
    var kv := KeyValues(params);
    var out := "";
    ghost var goal := Print(segs, kv);
    assert segs[0..] == segs;
    assert goal.Some? ==> "" + goal.value == goal.value;
    var i := 0;
    while i < |segs|
      invariant 0 <= i <= |segs|
      invariant Prefixed(out, Print(segs[i..], kv)) == goal
    {
      assert segs[i..][1..] == segs[i + 1..];
      var t := Text(segs[i], kv);
      if t.None? {
        return None;
      }
      PrintStep(out, segs[i..], kv);
      out := out + "/" + t.value;
      i := i + 1;
    }
    assert segs[i..] == [] && out + "" == out;
    return Some(out);
  }

  lemma PrintStep(out: string, segs: seq<Segment>, kv: Params)
    requires segs != [] && Text(segs[0], kv).Some?
    ensures Prefixed(out, Print(segs, kv)) == Prefixed(out + "/" + Text(segs[0], kv).value, Print(segs[1..], kv))
  {
    var t, rest := Text(segs[0], kv).value, Print(segs[1..], kv);
    if rest.Some? {
      assert Print(segs, kv).value == "/" + t + rest.value;
      Assoc(out, "/" + t, rest.value);
      Assoc(out, "/", t);
    }
  }

  // ----------------------------------------------------------- round trip

  predicate Named(seg: Segment)
  {
    seg.wild || seg.param != ""
  }

  ghost function Names(segs: seq<Segment>): set<string>
  {
    set i | 0 <= i < |segs| && Named(segs[i]) :: segs[i].param
  }

  /** Patterns with distinct non-empty parameter names, any wildcard last, and proper literals. */
  ghost predicate WellFormed(segs: seq<Segment>)
  {
    && (forall i :: 0 <= i < |segs| ==>
         segs[i].param != "" || (!segs[i].wild && segs[i].lit != "" && '/' !in segs[i].lit))
    && (forall i :: 0 <= i < |segs| - 1 ==> !segs[i].wild)
    && (forall i, j :: 0 <= i < j < |segs| && Named(segs[i]) && Named(segs[j]) ==> segs[i].param != segs[j].param)
  }

  /** Every parameter of the pattern is supplied (others may be, too). */
  ghost predicate Supplies(segs: seq<Segment>, kv: Params)
  {
    Names(segs) <= kv.Keys
  }

  ghost function Only(kv: Params, names: set<string>): Params
  {
    map n | n in kv && n in names :: kv[n]
  }

  function TextOf(seg: Segment, kv: Params): string
  {
    if Named(seg) then (if seg.param in kv then kv[seg.param] else "") else seg.lit
  }

  /** The path parts spell the segments: each plain one its own part, a wildcard the rest joined. */
  ghost predicate Fits(segs: seq<Segment>, parts: seq<string>, kv: Params)
    decreases |segs|
  {
    if segs == [] then parts == []
    else if segs[0].wild then Join(parts) == TextOf(segs[0], kv)
    else parts != [] && parts[0] == TextOf(segs[0], kv) && Fits(segs[1..], parts[1..], kv)
  }

  /** Matching returns the supplied parameters exactly when the parts spell the segments. */
  lemma {:induction false} MatchMeansFits(segs: seq<Segment>, parts: seq<string>, params: Params, kv: Params)
    requires WellFormed(segs) && Supplies(segs, kv) && params.Keys !! Names(segs)
    ensures MatchFrom(segs, parts, params) == Some(params + Only(kv, Names(segs))) <==> Fits(segs, parts, kv)
    decreases |segs|
  {
    if segs == [] {
      assert params + Only(kv, {}) == params;
    } else if segs[0].wild {
      WildNames(segs);
      var name := segs[0].param;
      var r, goal := params[name := Join(parts)], params + Only(kv, {name});
      assert r[name] == Join(parts) && goal[name] == kv[name];
      assert Join(parts) == kv[name] ==> r == goal;
    } else {
      NamesTail(segs);
      if parts != [] {
        var name, rest, params' := segs[0].param, segs[1..], params;
        if name != "" {
          params' := params[name := parts[0]];
          MatchKeeps(rest, parts[1..], params', name);
          OnlyMore(params, kv, name, Names(rest));
        }
        MatchMeansFits(rest, parts[1..], params', kv);
      }
    }
  }

  lemma OnlyMore(params: Params, kv: Params, name: string, names: set<string>)
    requires name in kv && name !in names
    ensures params[name := kv[name]] + Only(kv, names) == params + Only(kv, names + {name})
    ensures (params + Only(kv, names + {name}))[name] == kv[name]
  {
  }

  /** Names not in the rest of the pattern keep their values. */
  lemma {:induction false} MatchKeeps(segs: seq<Segment>, parts: seq<string>, params: Params, name: string)
    requires WellFormed(segs) && name in params && name !in Names(segs)
    ensures var r := MatchFrom(segs, parts, params); r.Some? ==> name in r.value && r.value[name] == params[name]
    decreases |segs|
  {
    if segs != [] {
      NamesTail(segs);
      if !segs[0].wild && parts != [] {
        var params' := if segs[0].param != "" then params[segs[0].param := parts[0]] else params;
        MatchKeeps(segs[1..], parts[1..], params', name);
      }
    }
  }

  lemma WildNames(segs: seq<Segment>)
    requires segs != [] && WellFormed(segs) && segs[0].wild
    ensures |segs| == 1 && Names(segs) == {segs[0].param}
  {
    assert Named(segs[0]);
  }

  lemma NamesTail(segs: seq<Segment>)
    requires segs != [] && WellFormed(segs)
    ensures WellFormed(segs[1..])
    ensures Named(segs[0]) ==> segs[0].param !in Names(segs[1..]) && Names(segs) == Names(segs[1..]) + {segs[0].param}
    ensures !Named(segs[0]) ==> Names(segs) == Names(segs[1..])
  {
    var rest := segs[1..];
    forall n
      ensures n in Names(segs) <==> n in Names(rest) || (Named(segs[0]) && n == segs[0].param)
    {
      if n in Names(rest) {
        var i :| 0 <= i < |rest| && Named(rest[i]) && rest[i].param == n;
        assert segs[i + 1] == rest[i];
      }
      if n in Names(segs) {
        var i :| 0 <= i < |segs| && Named(segs[i]) && segs[i].param == n;
        assert i > 0 ==> rest[i - 1] == segs[i];
      }
      if Named(segs[0]) && n == segs[0].param {
        assert segs[0].param in Names(segs);
      }
    }
  }

  // ------------------------------------------------ splitting what was joined

  lemma {:induction false} SplitOf(a: string, rest: string)
    requires '/' !in a
    ensures Split(a + "/" + rest) == [a] + Split(rest)
  {
    var s := a + "/" + rest;
    if a == "" {
      assert s[1..] == rest;
    } else {
      assert s[1..] == a[1..] + "/" + rest;
      SplitOf(a[1..], rest);
      assert [a[0]] + a[1..] == a;
    }
  }

  lemma {:induction false} SplitPlain(a: string)
    requires '/' !in a
    ensures Split(a) == [a]
  {
    if a != "" {
      SplitPlain(a[1..]);
      assert [a[0]] + a[1..] == a;
    }
  }

  lemma {:induction false} JoinSplit(s: string)
    ensures Join(Split(s)) == s
  {
    if s != "" {
      var rest := Split(s[1..]);
      JoinSplit(s[1..]);
      assert s == [s[0]] + s[1..];
      if s[0] == '/' {
        assert ([""] + rest)[1..] == rest;
      } else if |rest| > 1 {
        assert ([[s[0]] + rest[0]] + rest[1..])[1..] == rest[1..];
        assert [s[0]] + rest[0] + "/" + Join(rest[1..]) == [s[0]] + (rest[0] + "/" + Join(rest[1..]));
      }
    }
  }

  /** The texts of the segments, joined: the printed path without its leading slash. */
  ghost function Body(segs: seq<Segment>, kv: Params): string
    requires segs != []
  {
    if |segs| == 1 then TextOf(segs[0], kv) else TextOf(segs[0], kv) + "/" + Body(segs[1..], kv)
  }

  lemma {:induction false} PrintIsBody(segs: seq<Segment>, kv: Params)
    requires segs != [] && WellFormed(segs) && Supplies(segs, kv)
    ensures Print(segs, kv) == Some("/" + Body(segs, kv))
    decreases |segs|
  {
    NamesTail(segs);
    assert Named(segs[0]) ==> segs[0].param in Names(segs);
    var none: Params := map[];
    if |segs| > 1 {
      PrintIsBody(segs[1..], kv);
      var t, rest := TextOf(segs[0], kv), Body(segs[1..], kv);
      assert "/" + t + ("/" + rest) == "/" + (t + "/" + rest);
    } else {
      assert segs[1..] == [];
      assert "/" + TextOf(segs[0], kv) + "" == "/" + TextOf(segs[0], kv);
    }
  }

  /** Every parameter except a wildcard is free of slashes. */
  ghost predicate SlashFree(segs: seq<Segment>, kv: Params)
  {
    forall i :: 0 <= i < |segs| && !segs[i].wild ==> '/' !in TextOf(segs[i], kv)
  }

  /** Without trimming, splitting the body always spells the segments. */
  lemma {:induction false} SplitBodyFits(segs: seq<Segment>, kv: Params)
    requires segs != [] && WellFormed(segs) && SlashFree(segs, kv)
    ensures Fits(segs, Split(Body(segs, kv)), kv)
    decreases |segs|
  {
    var t := TextOf(segs[0], kv);
    NamesTail(segs);
    if segs[0].wild {
      WildNames(segs);
      JoinSplit(t);
    } else if |segs| == 1 {
      SplitPlain(t);
      assert segs[1..] == [];
    } else {
      SplitBodyFits(segs[1..], kv);
      SplitOf(t, Body(segs[1..], kv));
    }
  }

  lemma {:induction false} FitsIsSlashFree(segs: seq<Segment>, parts: seq<string>, kv: Params)
    requires Fits(segs, parts, kv) && WellFormed(segs) && forall k :: 0 <= k < |parts| ==> '/' !in parts[k]
    ensures SlashFree(segs, kv)
    decreases |segs|
  {
    if segs != [] {
      NamesTail(segs);
      if segs[0].wild {
        WildNames(segs);
      } else {
        FitsIsSlashFree(segs[1..], parts[1..], kv);
        forall i | 0 <= i < |segs| && !segs[i].wild
          ensures '/' !in TextOf(segs[i], kv)
        {
          assert i > 0 ==> segs[i] == segs[1..][i - 1];
        }
      }
    }
  }

  lemma {:induction false} BodySnoc(segs: seq<Segment>, kv: Params)
    requires |segs| > 1
    ensures var n := |segs| - 1; Body(segs, kv) == Body(segs[..n], kv) + "/" + TextOf(segs[n], kv)
    decreases |segs|
  {
    var n := |segs| - 1;
    var t, rest := TextOf(segs[0], kv), segs[1..];
    if n == 1 {
      assert rest == [segs[1]];
    } else {
      BodySnoc(rest, kv);
      assert segs[..n][1..] == rest[..n - 1];
      var a, b := Body(rest[..n - 1], kv), TextOf(segs[n], kv);
      assert t + "/" + (a + "/" + b) == t + "/" + a + "/" + b;
    }
  }

  /** Parts that spell the segments join to the body, unless an empty wildcard stands at the end. */
  lemma {:induction false} FitsRebuilds(segs: seq<Segment>, parts: seq<string>, kv: Params)
    requires segs != [] && WellFormed(segs) && Fits(segs, parts, kv)
    requires segs[|segs| - 1].wild ==> TextOf(segs[|segs| - 1], kv) != ""
    ensures parts != [] && Join(parts) == Body(segs, kv)
    decreases |segs|
  {
    NamesTail(segs);
    if segs[0].wild {
      WildNames(segs);
    } else if |segs| > 1 {
      assert segs[1..][|segs| - 2] == segs[|segs| - 1];
      FitsRebuilds(segs[1..], parts[1..], kv);
    }
  }

  lemma {:induction false} FitsWithEmptyWild(segs: seq<Segment>, parts: seq<string>, kv: Params)
    requires segs != [] && WellFormed(segs)
    requires var n := |segs| - 1; segs[n].wild && TextOf(segs[n], kv) == "" && Fits(segs[..n], parts, kv)
    ensures Fits(segs, parts, kv)
    decreases |segs|
  {
    var n := |segs| - 1;
    NamesTail(segs);
    if n > 0 {
      assert segs[1..][..n - 1] == segs[..n][1..] && segs[1..][n - 1] == segs[n];
      FitsWithEmptyWild(segs[1..], parts[1..], kv);
    }
  }

  lemma FrontWellFormed(segs: seq<Segment>, kv: Params)
    requires |segs| > 1 && WellFormed(segs) && SlashFree(segs, kv)
    ensures WellFormed(segs[..|segs| - 1]) && SlashFree(segs[..|segs| - 1], kv)
  {
  }

  /** What a caller can check: which parameters survive printing and matching. */
  ghost predicate Printable(segs: seq<Segment>, kv: Params)
  {
    segs == [] ||
    var last := segs[|segs| - 1];
    && SlashFree(segs, kv)
    && (if last.wild then !EndsInSlash(TextOf(last, kv)) else TextOf(last, kv) != "")
    && !(|segs| == 2 && TextOf(segs[0], kv) == "" && TextOf(last, kv) == "")
  }

  lemma PathOfBody(body: string)
    ensures SplitPath("/" + body) == if TrimSuffix(body) == "" then [] else Split(TrimSuffix(body))
  {
    assert ("/" + body)[1..] == body;
  }

  /** The body does not end in a slash: nothing is trimmed. */
  lemma SpellsUntrimmed(segs: seq<Segment>, kv: Params)
    requires segs != [] && WellFormed(segs) && !EndsInSlash(Body(segs, kv)) && Body(segs, kv) != ""
    ensures Fits(segs, SplitPath("/" + Body(segs, kv)), kv) <==> Printable(segs, kv)
  {
    var body, n := Body(segs, kv), |segs| - 1;
    PathOfBody(body);
    LastOfBody(segs, kv);
    if n > 0 {
      BodySnoc(segs, kv);
    }
    if SlashFree(segs, kv) {
      SplitBodyFits(segs, kv);
    }
    if Fits(segs, Split(body), kv) {
      FitsIsSlashFree(segs, Split(body), kv);
    }
  }

  /** The body ends in the slash of its last text: that slash is lost. */
  lemma SpellsCut(segs: seq<Segment>, kv: Params)
    requires segs != [] && WellFormed(segs) && EndsInSlash(Body(segs, kv))
    requires var last := segs[|segs| - 1]; last.wild ==> TextOf(last, kv) != ""
    ensures !Fits(segs, SplitPath("/" + Body(segs, kv)), kv)
    ensures !Printable(segs, kv)
  {
    var body, n := Body(segs, kv), |segs| - 1;
    var t, parts := TextOf(segs[n], kv), SplitPath("/" + body);
    PathOfBody(body);
    JoinSplit(TrimSuffix(body));
    assert parts != [] ==> Join(parts) != body;
    if Fits(segs, parts, kv) {
      FitsRebuilds(segs, parts, kv);
    }
    LastOfBody(segs, kv);
  }

  /** The last character of the body is that of the last text, or the slash before an empty one. */
  lemma LastOfBody(segs: seq<Segment>, kv: Params)
    requires segs != []
    ensures var body, t := Body(segs, kv), TextOf(segs[|segs| - 1], kv);
      t != "" ==> body != "" && body[|body| - 1] == t[|t| - 1]
  {
    if |segs| > 1 {
      BodySnoc(segs, kv);
    }
  }

  /** An empty wildcard at the end: the slash before it is dropped, and that does no harm. */
  lemma SpellsEmptyWild(segs: seq<Segment>, kv: Params)
    requires |segs| > 1 && WellFormed(segs)
    requires var last := segs[|segs| - 1]; last.wild && TextOf(last, kv) == ""
    ensures Fits(segs, SplitPath("/" + Body(segs, kv)), kv) <==> Printable(segs, kv)
  {
    var body, n := Body(segs, kv), |segs| - 1;
    var front := Body(segs[..n], kv);
    BodySnoc(segs, kv);
    assert body == front + "/" && TrimSuffix(body) == front;
    PathOfBody(body);
    if front == "" {
      EmptyBody(segs[..n], kv);
    } else {
      if SlashFree(segs, kv) {
        FrontWellFormed(segs, kv);
        SplitBodyFits(segs[..n], kv);
        FitsWithEmptyWild(segs, Split(front), kv);
      }
      if Fits(segs, Split(front), kv) {
        FitsIsSlashFree(segs, Split(front), kv);
      }
    }
  }

  lemma EmptyBody(segs: seq<Segment>, kv: Params)
    requires segs != [] && Body(segs, kv) == ""
    ensures |segs| == 1 && TextOf(segs[0], kv) == ""
  {
  }

  /**
   Printer and parser agree: matching the generated URL gives back exactly the
   supplied parameters if and only if the parameters are printable.
   */
  lemma UrlRoundTrip(segs: seq<Segment>, kv: Params)
    requires WellFormed(segs) && Supplies(segs, kv)
    ensures Print(segs, kv).Some?
    ensures MatchFrom(segs, SplitPath(Print(segs, kv).value), map[]) == Some(Only(kv, Names(segs)))
            <==> Printable(segs, kv)
  {
    if segs == [] {
      return;
    }
    PrintIsBody(segs, kv);
    var body, last := Body(segs, kv), segs[|segs| - 1];
    var none: Params := map[];
    MatchMeansFits(segs, SplitPath("/" + body), none, kv);
    assert none + Only(kv, Names(segs)) == Only(kv, Names(segs));
    if body == "" {
      EmptyBody(segs, kv);
      PathOfBody(body);
    } else if !EndsInSlash(body) {
      SpellsUntrimmed(segs, kv);
    } else if last.wild && TextOf(last, kv) == "" {
      if |segs| > 1 {
        SpellsEmptyWild(segs, kv);
      }
    } else {
      SpellsCut(segs, kv);
    }
  }

  /** What a pattern must promise: non-empty distinct names, and nothing after a wildcard. */
  ghost predicate ProperPattern(segs: seq<Segment>)
  {
    && (forall i :: 0 <= i < |segs| ==> segs[i].lit != "" || segs[i].param != "")
    && (forall i :: 0 <= i < |segs| - 1 ==> !segs[i].wild)
    && (forall i, j :: 0 <= i < j < |segs| && Named(segs[i]) && Named(segs[j]) ==> segs[i].param != segs[j].param)
  }

  predicate Parsed(seg: Segment)
  {
    '/' !in seg.lit && (seg.wild ==> seg.param != "")
  }

  lemma {:induction false} ComponentsAreParsed(parts: seq<string>)
    requires forall k :: 0 <= k < |parts| ==> '/' !in parts[k]
    ensures forall i :: 0 <= i < |Components(parts)| ==> Parsed(Components(parts)[i])
  {
    if parts != [] {
      ComponentsAreParsed(parts[1..]);
      assert '/' !in parts[0];
    }
  }

  /** The round trip for patterns as they are registered. */
  lemma PatternRoundTrip(pattern: string, kv: Params)
    requires var segs := Components(SplitPath(pattern)); ProperPattern(segs) && Supplies(segs, kv)
    ensures var segs := Components(SplitPath(pattern)); var url := Print(segs, kv);
      && url.Some?
      && (MatchFrom(segs, SplitPath(url.value), map[]) == Some(Only(kv, Names(segs))) <==> Printable(segs, kv))
  {
    ComponentsAreParsed(SplitPath(pattern));
    UrlRoundTrip(Components(SplitPath(pattern)), kv);
  }

  // ---------------------------------------------------- patterns and pairs

  /** The two ways to write a named parameter. */
  datatype Notation = Colon | Braces

  function Written(seg: Segment, notation: Notation): string
  {
    if seg.wild then "*" + seg.param
    else if seg.param == "" then seg.lit
    else if notation.Colon? then ":" + seg.param
    else "{" + seg.param + "}"
  }

  function WrittenAll(segs: seq<Segment>, notation: Notation): (parts: seq<string>)
    ensures |parts| == |segs|
  {
    seq(|segs|, i requires 0 <= i < |segs| => Written(segs[i], notation))
  }

  /** A segment that a pattern can name: a literal that is not written like a parameter, or a slash-free name. */
  predicate Writable(seg: Segment)
  {
    if seg.wild || seg.param != "" then seg.lit == "" && seg.param != "" && '/' !in seg.param
    else
      && seg.lit != "" && '/' !in seg.lit && seg.lit[0] != '*' && seg.lit[0] != ':'
      && !(seg.lit[0] == '{' && seg.lit[|seg.lit| - 1] == '}')
  }

  ghost predicate AllWritable(segs: seq<Segment>)
  {
    forall i :: 0 <= i < |segs| ==> Writable(segs[i])
  }

  /** A written segment is read as that segment, in both notations. */
  lemma WrittenIsRead(seg: Segment, notation: Notation)
    requires Writable(seg)
    ensures Written(seg, notation) != "" && '/' !in Written(seg, notation)
    ensures Component(Written(seg, notation)) == seg
  {
    var p := Written(seg, notation);
    if seg.wild {
      assert p[1..] == seg.param;
    } else if seg.param != "" {
      if notation.Colon? {
        assert p[1..] == seg.param;
      } else {
        assert p[1..|p| - 1] == seg.param;
      }
    }
  }

  lemma {:induction false} WrittenAreRead(segs: seq<Segment>, notation: Notation)
    requires AllWritable(segs)
    ensures Components(WrittenAll(segs, notation)) == segs
    ensures forall i :: 0 <= i < |segs| ==> WrittenAll(segs, notation)[i] != "" && '/' !in WrittenAll(segs, notation)[i]
  {
    forall i | 0 <= i < |segs|
      ensures WrittenAll(segs, notation)[i] != "" && '/' !in WrittenAll(segs, notation)[i]
    {
      WrittenIsRead(segs[i], notation);
    }
    if segs != [] {
      WrittenIsRead(segs[0], notation);
      assert WrittenAll(segs, notation)[1..] == WrittenAll(segs[1..], notation);
      WrittenAreRead(segs[1..], notation);
      assert segs == [segs[0]] + segs[1..];
    }
  }

  ghost predicate ProperParts(parts: seq<string>)
  {
    forall k :: 0 <= k < |parts| ==> parts[k] != "" && '/' !in parts[k]
  }

  lemma {:induction false} SplitJoin(parts: seq<string>)
    requires parts != [] && ProperParts(parts)
    ensures Split(Join(parts)) == parts
    ensures Join(parts) != "" && !EndsInSlash(Join(parts)) && Join(parts)[0] != '/'
  {
    var a := parts[0];
    if |parts| == 1 {
      SplitPlain(a);
      assert a[|a| - 1] in a && a[0] in a;
    } else {
      var rest := Join(parts[1..]);
      SplitJoin(parts[1..]);
      SplitOf(a, rest);
      JoinEnds(a, rest);
      assert a[0] in a;
    }
  }

  lemma JoinEnds(a: string, rest: string)
    requires a != "" && rest != "" && !EndsInSlash(rest)
    ensures a + "/" + rest != "" && (a + "/" + rest)[0] == a[0] && !EndsInSlash(a + "/" + rest)
  {
  }

  /** A pattern written down from its segments, with a leading slash, compiles to these segments. */
  lemma PatternReadsBack(segs: seq<Segment>, notation: Notation)
    requires AllWritable(segs)
    ensures Components(SplitPath("/" + Join(WrittenAll(segs, notation)))) == segs
  {
    var parts := WrittenAll(segs, notation);
    WrittenAreRead(segs, notation);
    PathOfBody(Join(parts));
    if segs == [] {
      assert parts == [];
    } else {
      SplitJoin(parts);
    }
  }

  /** URL fails exactly when a named parameter of the pattern, other than a wildcard, is missing. */
  lemma {:induction false} PrintFailsExactly(segs: seq<Segment>, kv: Params)
    ensures Print(segs, kv) == None <==>
            exists i :: 0 <= i < |segs| && !segs[i].wild && segs[i].param != "" && segs[i].param !in kv
  {
    if segs != [] {
      var rest := segs[1..];
      PrintFailsExactly(rest, kv);
      if i :| 0 <= i < |rest| && !rest[i].wild && rest[i].param != "" && rest[i].param !in kv {
        assert segs[i + 1] == rest[i];
      }
      if i :| 0 <= i < |segs| && !segs[i].wild && segs[i].param != "" && segs[i].param !in kv {
        assert i > 0 ==> rest[i - 1] == segs[i];
      }
    }
  }

  /** Position i names a key, with its value behind it, and no later position names the same key. */
  ghost predicate LastNamed(params: seq<string>, i: nat)
  {
    && i + 1 < |params| && i % 2 == 0
    && forall j :: i < j && j + 1 < |params| && j % 2 == 0 ==> params[j] != params[i]
  }

  /** Every key keeps the value behind its last mention; nothing else gets in. */
  lemma {:induction false} LastMentionWins(kv: Params, params: seq<string>)
    ensures forall i: nat :: LastNamed(params, i) ==>
              params[i] in Onto(kv, params) && Onto(kv, params)[params[i]] == params[i + 1]
    ensures forall n :: n in Onto(kv, params) <==> n in kv || Mentioned(params, n)
    ensures forall n :: n in kv && !Mentioned(params, n) ==> n in Onto(kv, params) && Onto(kv, params)[n] == kv[n]
    decreases |params|
  {
    if |params| >= 2 {
      var next, rest := kv[params[0] := params[1]], params[2..];
      LastMentionWins(next, rest);
      forall n ensures Mentioned(params, n) <==> n == params[0] || Mentioned(rest, n) {
        MentionedFirst(params, n);
      }
      forall i: nat | LastNamed(params, i)
        ensures params[i] in Onto(kv, params) && Onto(kv, params)[params[i]] == params[i + 1]
      {
        LastNamedRest(params, i);
      }
    }
  }

  /** The names that a call supplies, and which value each of them has. */
  lemma PairsKeepLast(params: seq<string>)
    ensures forall n :: n in Pairs(params) <==> Mentioned(params, n)
    ensures forall i: nat :: LastNamed(params, i) ==>
              params[i] in Pairs(params) && Pairs(params)[params[i]] == params[i + 1]
  {
    LastMentionWins(map[], params);
  }

  ghost predicate Mentioned(params: seq<string>, n: string)
  {
    exists j :: 0 <= j && j + 1 < |params| && j % 2 == 0 && params[j] == n
  }

  lemma MentionedFirst(params: seq<string>, n: string)
    requires |params| >= 2
    ensures Mentioned(params, n) <==> n == params[0] || Mentioned(params[2..], n)
  {
    var rest := params[2..];
    if Mentioned(params, n) {
      var j :| 0 <= j && j + 1 < |params| && j % 2 == 0 && params[j] == n;
      assert j > 0 ==> rest[j - 2] == n;
    }
    if Mentioned(rest, n) {
      var j :| 0 <= j && j + 1 < |rest| && j % 2 == 0 && rest[j] == n;
      assert params[j + 2] == n;
    }
    if n == params[0] {
      assert params[0] == n;
    }
  }

  lemma LastNamedRest(params: seq<string>, i: nat)
    requires |params| >= 2 && LastNamed(params, i)
    ensures if i == 0 then !Mentioned(params[2..], params[0]) else i >= 2 && LastNamed(params[2..], i - 2)
  {
    var rest := params[2..];
    if i == 0 {
      forall j | 0 <= j && j + 1 < |rest| && j % 2 == 0
        ensures rest[j] != params[0]
      {
        assert params[j + 2] != params[i];
      }
    } else {
      forall j | i - 2 < j && j + 1 < |rest| && j % 2 == 0
        ensures rest[j] != rest[i - 2]
      {
        assert params[j + 2] != params[i];
      }
    }
  }
}
