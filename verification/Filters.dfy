/**
 What a bound WHERE text means. A server splits it at the OR and AND words that
 stand outside all parentheses, AND binding tighter, and evaluates the conditions
 in between, arguments included; how it evaluates one condition is left open. The
 builder's text means the soft-delete filter and the AND/OR chain of its conditions.
 */
module Filters {
  import opened Seqs
  import opened Sql

  // ---------------------------------------------------------- SQL reading

  type Pieces = seq<Piece>

  const OR: Pieces := [Ch(' '), Ch('O'), Ch('R'), Ch(' ')]
  const AND: Pieces := [Ch(' '), Ch('A'), Ch('N'), Ch('D'), Ch(' ')]

  /** Text without arguments. */
  function Chars(s: string): (r: Pieces)
    ensures |r| == |s| && forall i :: 0 <= i < |s| ==> r[i] == Ch(s[i])
  {
    seq(|s|, i requires 0 <= i < |s| => Ch(s[i]))
  }

  function Depth(d: int, c: Piece): int
  {
    if c == Ch('(') then d + 1 else if c == Ch(')') then d - 1 else d
  }

  /** First place where sep stands at depth 0, or the length when there is none. */
  function FirstTop(s: Pieces, sep: Pieces, d: int): (i: nat)
    ensures i <= |s|
  {
    if s == [] then 0
    else if d == 0 && sep <= s then 0
    else 1 + FirstTop(s[1..], sep, Depth(d, s[0]))
  }

  predicate EvalAnd(s: Pieces, atom: Pieces -> bool)
    decreases |s|
  {
    var i := FirstTop(s, AND, 0);
    if i + |AND| > |s| then atom(s)
    else atom(s[..i]) && EvalAnd(s[i + |AND|..], atom)
  }

  /** The value of a condition text: alternatives of conjunctions of atoms. */
  predicate EvalOr(s: Pieces, atom: Pieces -> bool)
    decreases |s|
  {
    var i := FirstTop(s, OR, 0);
    if i + |OR| > |s| then EvalAnd(s, atom)
    else EvalAnd(s[..i], atom) || EvalOr(s[i + |OR|..], atom)
  }

  /** Parentheses close in order, d of them being open at the start. */
  predicate Balanced(c: Pieces, d: nat)
  {
    if c == [] then d == 0
    else if c[0] == Ch(')') then d > 0 && Balanced(c[1..], d - 1)
    else Balanced(c[1..], if c[0] == Ch('(') then d + 1 else d)
  }

  ghost predicate AllBalanced(ws: seq<Where>)
  {
    forall i :: 0 <= i < |ws| ==> Balanced(Clause(ws[i]), 0)
  }

  /** One condition with its arguments in place. */
  function Clause(w: Where): Pieces
  {
    Bind(w.clause, w.args)
  }

  // ------------------------------------------------------ the chain itself

  function Group(c: Pieces): Pieces
  {
    [Ch('(')] + c + [Ch(')')]
  }

  /** Condition i opens an alternative. */
  predicate Opens(ws: seq<Where>, i: int)
    requires 0 <= i < |ws|
  {
    i == 0 || ws[i].or
  }

  /** Condition k belongs to the alternative opened at i. */
  ghost predicate SameAlternative(ws: seq<Where>, i: int, k: int)
    requires 0 <= i < |ws|
  {
    i <= k < |ws| && forall j :: i < j <= k ==> !ws[j].or
  }

  ghost predicate AlternativeHolds(ws: seq<Where>, i: int, atom: Pieces -> bool)
    requires 0 <= i < |ws|
  {
    forall k :: SameAlternative(ws, i, k) ==> atom(Group(Clause(ws[k])))
  }

  /** Some alternative has all its conditions. */
  ghost predicate ChainHolds(ws: seq<Where>, atom: Pieces -> bool)
  {
    exists i :: 0 <= i < |ws| && Opens(ws, i) && AlternativeHolds(ws, i, atom)
  }

  /** The first alternative. */
  function First(ws: seq<Where>, atom: Pieces -> bool): bool
    requires ws != []
  {
    atom(Group(Clause(ws[0]))) && (|ws| > 1 && !ws[1].or ==> First(ws[1..], atom))
  }

  /** One of the later alternatives. */
  function Later(ws: seq<Where>, atom: Pieces -> bool): bool
    requires ws != []
  {
    |ws| > 1 && (Later(ws[1..], atom) || (ws[1].or && First(ws[1..], atom)))
  }

  lemma {:induction false} FirstIsAlternative(ws: seq<Where>, i: nat, atom: Pieces -> bool)
    requires i < |ws|
    ensures First(ws[i..], atom) <==> AlternativeHolds(ws, i, atom)
    decreases |ws| - i
  {
    var rest := ws[i..];
    assert SameAlternative(ws, i, i);
    if i + 1 < |ws| {
      assert rest[1..] == ws[i + 1..] && rest[1] == ws[i + 1];
      if !ws[i + 1].or {
        FirstIsAlternative(ws, i + 1, atom);
        forall k | i < k ensures SameAlternative(ws, i, k) <==> SameAlternative(ws, i + 1, k) {
        }
      }
    }
  }

  /** An alternative that opens at or after i holds. */
  ghost predicate FromHolds(ws: seq<Where>, i: int, atom: Pieces -> bool)
  {
    exists j :: i <= j < |ws| && 0 <= j && Opens(ws, j) && AlternativeHolds(ws, j, atom)
  }

  lemma {:induction false} LaterIsAlternative(ws: seq<Where>, i: nat, atom: Pieces -> bool)
    requires i < |ws|
    ensures Later(ws[i..], atom) <==> FromHolds(ws, i + 1, atom)
    decreases |ws| - i
  {
    var rest := ws[i..];
    if i + 1 < |ws| {
      assert rest[1..] == ws[i + 1..] && rest[1] == ws[i + 1];
      LaterIsAlternative(ws, i + 1, atom);
      FirstIsAlternative(ws, i + 1, atom);
      assert Opens(ws, i + 1) <==> ws[i + 1].or;
    }
  }

  lemma ChainIsFirstOrLater(ws: seq<Where>, atom: Pieces -> bool)
    requires ws != []
    ensures ChainHolds(ws, atom) <==> First(ws, atom) || Later(ws, atom)
  {
    assert ws[0..] == ws;
    FirstIsAlternative(ws, 0, atom);
    LaterIsAlternative(ws, 0, atom);
    assert Opens(ws, 0);
  }

  // ------------------------------------------------------------ chain text

  function Sep(or: bool): Pieces
  {
    if or then OR else AND
  }

  function ChainText(ws: seq<Where>): Pieces
    requires ws != []
  {
    if |ws| == 1 then Group(Clause(ws[0]))
    else Group(Clause(ws[0])) + Sep(ws[1].or) + ChainText(ws[1..])
  }

  lemma {:induction false} ChainTextGrows(ws: seq<Where>, w: Where)
    requires ws != []
    ensures ChainText(ws + [w]) == ChainText(ws) + (Sep(w.or) + Group(Clause(w)))
  {
    var more := ws + [w];
    assert more[0] == ws[0];
    if |ws| == 1 {
      assert more[1..] == [w] && more[1] == w;
      Assoc(Group(Clause(ws[0])), Sep(w.or), Group(Clause(w)));
    } else {
      assert more[1..] == ws[1..] + [w] && more[1] == ws[1];
      ChainTextGrows(ws[1..], w);
      Assoc(Group(Clause(ws[0])) + Sep(ws[1].or), ChainText(ws[1..]), Sep(w.or) + Group(Clause(w)));
    }
  }

  // ------------------------------------------------- from text to pieces

  lemma CharsAppend(a: string, b: string)
    ensures Chars(a + b) == Chars(a) + Chars(b)
  {
  }

  /** Text that has no arguments is bound as it stands. */
  lemma {:induction false} BindPlain(s: string)
    ensures Bind(s, []) == Chars(s)
  {
    if s != "" {
      BindPlain(s[1..]);
      assert Chars(s) == [Ch(s[0])] + Chars(s[1..]);
    }
  }

  lemma {:induction false} BoundAppend(a: seq<Frag>, b: seq<Frag>)
    ensures Bound(a + b) == Bound(a) + Bound(b)
  {
    if b == [] {
      assert a + b == a;
    } else {
      var front, last := b[..|b| - 1], b[|b| - 1];
      assert (a + b)[..|a + b| - 1] == a + front;
      BoundAppend(a, front);
      Assoc(Bound(a), Bound(front), Bind(last.text, last.args));
    }
  }

  lemma BoundOne(f: Frag)
    ensures Bound([f]) == Bind(f.text, f.args)
  {
    assert [f][..0] == [];
  }

  lemma BoundOnly(s: string)
    ensures Bound(Only(s)) == Chars(s)
  {
    BoundOne(Frag(s, []));
    BindPlain(s);
  }

  lemma BoundThree(fs: seq<Frag>, a: Frag, b: Frag, c: Frag)
    ensures Bound(fs + [a, b, c]) ==
            Bound(fs) + (Bind(a.text, a.args) + Bind(b.text, b.args) + Bind(c.text, c.args))
  {
    BoundAppend(fs, [a, b, c]);
    BoundAppend([a, b], [c]);
    BoundAppend([a], [b]);
    BoundOne(a);
    BoundOne(b);
    BoundOne(c);
    assert [a, b] == [a] + [b];
    assert [a, b, c] == [a, b] + [c];
  }

  lemma LeadBinds(first: bool, w: Where)
    ensures Bind(Lead(first, w.or), []) + Clause(w) + Bind(")", []) ==
            if first then Group(Clause(w)) else Sep(w.or) + Group(Clause(w))
  {
    BindPlain(Lead(first, w.or));
    BindPlain(")");
    CloseChars();
    LeadChars(first, w.or);
    OpenAndClose(Sep(w.or), Clause(w));
  }

  lemma CloseChars()
    ensures Chars(")") == [Ch(')')]
  {
  }

  lemma LeadChars(first: bool, or: bool)
    ensures Chars(Lead(first, or)) == if first then [Ch('(')] else Sep(or) + [Ch('(')]
  {
    assert Lead(true, or) == "(" && Lead(false, true) == " OR (" && Lead(false, false) == " AND (";
  }

  lemma OpenAndClose(sep: Pieces, c: Pieces)
    ensures sep + [Ch('(')] + c + [Ch(')')] == sep + Group(c)
  {
  }

  lemma BoundWhere(fs: seq<Frag>, first: bool, w: Where)
    ensures Bound(fs + [Frag(Lead(first, w.or), []), Frag(w.clause, w.args), Frag(")", [])]) ==
            Bound(fs) + if first then Group(Clause(w)) else Sep(w.or) + Group(Clause(w))
  {
    BoundThree(fs, Frag(Lead(first, w.or), []), Frag(w.clause, w.args), Frag(")", []));
    LeadBinds(first, w);
  }

  /** The bound text that buildWhere emits. */
  lemma {:induction false} WhereFragsSpellTheChain(ws: seq<Where>)
    requires ws != []
    ensures Bound(WhereFrags(ws)) == ChainText(ws)
  {
    var front, w := ws[..|ws| - 1], ws[|ws| - 1];
    BoundWhere(WhereFrags(front), front == [], w);
    if front != [] {
      WhereFragsSpellTheChain(front);
      ChainTextGrows(front, w);
      assert front + [w] == ws;
    }
  }

  // -------------------------------------------------------------- skipping

  lemma {:induction false} SkipInside(c: Pieces, d: nat, rest: Pieces, sep: Pieces)
    requires Balanced(c, d)
    ensures FirstTop(c + [Ch(')')] + rest, sep, d + 1) == |c| + 1 + FirstTop(rest, sep, 0)
  {
    var s := c + [Ch(')')] + rest;
    if c == [] {
      assert s[0] == Ch(')') && s[1..] == rest;
    } else {
      assert s[0] == c[0] && s[1..] == c[1..] + [Ch(')')] + rest;
      SkipInside(c[1..], if c[0] == Ch('(') then d + 1 else if c[0] == Ch(')') then d - 1 else d, rest, sep);
    }
  }

  lemma SkipGroup(c: Pieces, rest: Pieces, sep: Pieces)
    requires Balanced(c, 0) && sep != [] && sep[0] != Ch('(')
    ensures FirstTop(Group(c) + rest, sep, 0) == |Group(c)| + FirstTop(rest, sep, 0)
  {
    var s := Group(c) + rest;
    assert s[0] == Ch('(') && s[1..] == c + [Ch(')')] + rest;
    SkipInside(c, 0, rest, sep);
  }

  lemma WholeGroup(c: Pieces, sep: Pieces)
    requires Balanced(c, 0) && sep != [] && sep[0] != Ch('(')
    ensures FirstTop(Group(c), sep, 0) == |Group(c)|
  {
    SkipGroup(c, [], sep);
    assert Group(c) + [] == Group(c);
  }

  lemma StartsHere(sep: Pieces, rest: Pieces)
    requires sep != []
    ensures FirstTop(sep + rest, sep, 0) == 0
  {
    assert sep <= sep + rest;
  }

  /** Words of which no blank begins the separator are passed over. */
  lemma {:induction false} SkipWords(s: Pieces, rest: Pieces, sep: Pieces)
    requires |sep| > 1 && sep[0] == Ch(' ')
    requires forall i :: 0 <= i < |s| ==> s[i] != Ch('(') && s[i] != Ch(')')
    requires forall i :: 0 <= i < |s| && s[i] == Ch(' ') ==> i + 1 < |s + rest| && (s + rest)[i + 1] != sep[1]
    ensures FirstTop(s + rest, sep, 0) == |s| + FirstTop(rest, sep, 0)
  {
    if s == [] {
      assert s + rest == rest;
    } else {
      var t := s + rest;
      assert t[0] == s[0] && t[1..] == s[1..] + rest;
      assert s[0] == Ch(' ') ==> t[0 + 1] != sep[1];
      forall i | 0 <= i < |s[1..]| && s[1..][i] == Ch(' ')
        ensures i + 1 < |s[1..] + rest| && (s[1..] + rest)[i + 1] != sep[1]
      {
        assert s[i + 1] == Ch(' ');
        assert t[i + 1 + 1] == (s[1..] + rest)[i + 1];
      }
      SkipWords(s[1..], rest, sep);
    }
  }

  /** An AND before a group is no OR. */
  lemma SkipAnd(rest: Pieces)
    requires rest != [] && rest[0] == Ch('(')
    ensures FirstTop(AND + rest, OR, 0) == |AND| + FirstTop(rest, OR, 0)
  {
    SkipWords(AND, rest, OR);
  }

  // --------------------------------------------------------------- reading

  /** The text up to its first OR. */
  predicate FirstPart(s: Pieces, atom: Pieces -> bool)
  {
    EvalAnd(s[..FirstTop(s, OR, 0)], atom)
  }

  predicate LaterPart(s: Pieces, atom: Pieces -> bool)
  {
    var i := FirstTop(s, OR, 0);
    i + |OR| <= |s| && EvalOr(s[i + |OR|..], atom)
  }

  /** Once found, a separator is really there. */
  lemma {:induction false} FoundOrAbsent(s: Pieces, sep: Pieces, d: int)
    requires sep != []
    ensures FirstTop(s, sep, d) + |sep| > |s| ==> FirstTop(s, sep, d) == |s|
  {
    if s != [] && !(d == 0 && sep <= s) {
      FoundOrAbsent(s[1..], sep, Depth(d, s[0]));
    }
  }

  lemma OrIsFirstOrLater(s: Pieces, atom: Pieces -> bool)
    ensures EvalOr(s, atom) <==> FirstPart(s, atom) || LaterPart(s, atom)
  {
    FoundOrAbsent(s, OR, 0);
    assert s[..|s|] == s;
  }

  lemma AndAt(left: Pieces, right: Pieces, atom: Pieces -> bool)
    requires FirstTop(left + (AND + right), AND, 0) == |left|
    ensures EvalAnd(left + (AND + right), atom) == (atom(left) && EvalAnd(right, atom))
  {
    Cut(left, AND, right, 0);
    var s := left + (AND + right);
    assert s[..|left|] == left;
    assert right[0..] == right;
  }

  lemma Cut(a: Pieces, b: Pieces, t: Pieces, i: nat)
    requires i <= |t|
    ensures (a + (b + t))[..|a| + |b| + i] == a + (b + t[..i])
    ensures (a + (b + t))[|a| + |b| + i..] == t[i..]
  {
  }

  lemma CutTwice(a: Pieces, b: Pieces, t: Pieces, i: nat, k: nat)
    requires i <= |t|
    ensures (a + (b + t))[..|a| + |b| + i] == a + (b + t[..i])
    ensures i + k <= |t| ==> (a + (b + t))[|a| + |b| + i + k..] == t[i + k..]
  {
    Cut(a, b, t, i);
    if i + k <= |t| {
      Cut(a, b, t, i + k);
    }
  }

  lemma AndOfGroup(c: Pieces, u: Pieces, atom: Pieces -> bool)
    requires Balanced(c, 0)
    ensures EvalAnd(Group(c), atom) == atom(Group(c))
    ensures EvalAnd(Group(c) + (AND + u), atom) == (atom(Group(c)) && EvalAnd(u, atom))
  {
    WholeGroup(c, AND);
    SkipGroup(c, AND + u, AND);
    StartsHere(AND, u);
    AndAt(Group(c), u, atom);
  }

  lemma ReadOne(c: Pieces, atom: Pieces -> bool)
    requires Balanced(c, 0)
    ensures FirstPart(Group(c), atom) == atom(Group(c))
    ensures !LaterPart(Group(c), atom)
  {
    WholeGroup(c, OR);
    AndOfGroup(c, [], atom);
    assert Group(c)[..|Group(c)|] == Group(c);
  }

  lemma ReadOr(c: Pieces, t: Pieces, atom: Pieces -> bool)
    requires Balanced(c, 0)
    ensures FirstPart(Group(c) + (OR + t), atom) == atom(Group(c))
    ensures LaterPart(Group(c) + (OR + t), atom) == EvalOr(t, atom)
  {
    SkipGroup(c, OR + t, OR);
    StartsHere(OR, t);
    AndOfGroup(c, [], atom);
    var s := Group(c) + (OR + t);
    assert s[..|Group(c)|] == Group(c);
    assert s[|Group(c)| + |OR|..] == t;
  }

  lemma ReadAnd(c: Pieces, t: Pieces, atom: Pieces -> bool)
    requires Balanced(c, 0) && t != [] && t[0] == Ch('(')
    ensures FirstPart(Group(c) + (AND + t), atom) == (atom(Group(c)) && FirstPart(t, atom))
    ensures LaterPart(Group(c) + (AND + t), atom) == LaterPart(t, atom)
  {
    var s, i, n := Group(c) + (AND + t), FirstTop(t, OR, 0), |Group(c)| + |AND|;
    SkipGroup(c, AND + t, OR);
    SkipAnd(t);
    CutTwice(Group(c), AND, t, i, |OR|);
    AndOfGroup(c, t[..i], atom);
    FirstPartAt(s, n + i, Group(c) + (AND + t[..i]), atom);
    if i + |OR| <= |t| {
      LaterPartAt(s, n + i, t[i + |OR|..], atom);
      LaterPartAt(t, i, t[i + |OR|..], atom);
    }
  }

  lemma FirstPartAt(s: Pieces, i: nat, part: Pieces, atom: Pieces -> bool)
    requires i <= |s| && FirstTop(s, OR, 0) == i && s[..i] == part
    ensures FirstPart(s, atom) == EvalAnd(part, atom)
  {
  }

  lemma LaterPartAt(s: Pieces, i: nat, rest: Pieces, atom: Pieces -> bool)
    requires FirstTop(s, OR, 0) == i && i + |OR| <= |s| && s[i + |OR|..] == rest
    ensures LaterPart(s, atom) == EvalOr(rest, atom)
  {
  }

  lemma ChainTextOpens(ws: seq<Where>)
    requires ws != []
    ensures ChainText(ws) != [] && ChainText(ws)[0] == Ch('(')
  {
  }

  lemma {:induction false} ReadChain(ws: seq<Where>, atom: Pieces -> bool)
    requires ws != [] && AllBalanced(ws)
    ensures FirstPart(ChainText(ws), atom) == First(ws, atom)
    ensures LaterPart(ChainText(ws), atom) == Later(ws, atom)
  {
    var c := Clause(ws[0]);
    assert Balanced(c, 0);
    if |ws| == 1 {
      ReadOne(c, atom);
    } else {
      var rest := ws[1..];
      var t := ChainText(rest);
      ReadChain(rest, atom);
      ChainTextOpens(rest);
      Assoc(Group(c), Sep(ws[1].or), t);
      if ws[1].or {
        ReadOr(c, t, atom);
        OrIsFirstOrLater(t, atom);
      } else {
        ReadAnd(c, t, atom);
      }
    }
  }

  /** The chain's text means the chain, whatever the conditions are. */
  lemma WhereMeansChain(ws: seq<Where>, atom: Pieces -> bool)
    requires ws != [] && AllBalanced(ws)
    ensures EvalOr(Bound(WhereFrags(ws)), atom) <==> ChainHolds(ws, atom)
  {
    WhereFragsSpellTheChain(ws);
    ReadChain(ws, atom);
    OrIsFirstOrLater(ChainText(ws), atom);
    ChainIsFirstOrLater(ws, atom);
  }

  // ----------------------------------------------------------- soft delete

  lemma {:induction false} BalancedThrough(c: Pieces, e: nat, t: Pieces, d: nat)
    requires Balanced(c, e)
    ensures Balanced(c + t, d + e) == Balanced(t, d)
  {
    if c == [] {
      assert c + t == t;
    } else {
      assert (c + t)[0] == c[0] && (c + t)[1..] == c[1..] + t;
      BalancedThrough(c[1..], if c[0] == Ch('(') then e + 1 else if c[0] == Ch(')') then e - 1 else e, t, d);
    }
  }

  lemma GroupBalanced(c: Pieces)
    requires Balanced(c, 0)
    ensures Balanced(Group(c), 0)
  {
    BalancedThrough(c, 0, [Ch(')')], 1);
    assert Group(c)[1..] == c + [Ch(')')];
    assert [Ch(')')][1..] == [];
  }

  lemma {:induction false} NoParenBalanced(s: Pieces)
    requires Ch('(') !in s && Ch(')') !in s
    ensures Balanced(s, 0)
  {
    if s != [] {
      assert s[0] in s;
      NoParenBalanced(s[1..]);
    }
  }

  lemma {:induction false} ChainBalanced(ws: seq<Where>)
    requires ws != [] && AllBalanced(ws)
    ensures Balanced(ChainText(ws), 0)
  {
    var c := Clause(ws[0]);
    GroupBalanced(c);
    if |ws| > 1 {
      var t := ChainText(ws[1..]);
      ChainBalanced(ws[1..]);
      NoParenBalanced(Sep(ws[1].or));
      BalancedThrough(Sep(ws[1].or), 0, t, 0);
      BalancedThrough(Group(c), 0, Sep(ws[1].or) + t, 0);
      Assoc(Group(c), Sep(ws[1].or), t);
    }
  }

  lemma {:induction false} NothingDoubled(s: string, mark: char)
    requires mark !in s
    ensures Doubled(s, mark) == s
  {
    if s != "" {
      assert s[0] in s;
      NothingDoubled(s[1..], mark);
    }
  }

  /** No parenthesis, and no blank that begins an OR or an AND. */
  ghost predicate PlainWords(s: string)
  {
    forall i :: 0 <= i < |s| ==> PlainAt(s, i)
  }

  predicate PlainAt(s: string, i: nat)
    requires i < |s|
  {
    && s[i] != '(' && s[i] != ')'
    && (s[i] == ' ' ==> i + 1 < |s| && s[i + 1] != 'O' && s[i + 1] != 'A')
  }

  lemma WordThenWords(name: string, more: string)
    requires ' ' !in name && '(' !in name && ')' !in name && PlainWords(more)
    ensures PlainWords(name + more)
  {
    var s := name + more;
    forall i | 0 <= i < |s|
      ensures PlainAt(s, i)
    {
      if i < |name| {
        assert s[i] == name[i] && name[i] in name;
      } else {
        var k := i - |name|;
        assert PlainAt(more, k) && s[i] == more[k];
        assert k + 1 < |more| ==> s[i + 1] == more[k + 1];
      }
    }
  }

  lemma IsNullIsPlain()
    ensures PlainWords(" IS NULL")
  {
    var s := " IS NULL";
    assert forall i :: 0 <= i < |s| ==> PlainAt(s, i);
  }

  lemma DeletedNameIsPlain(driver: Driver)
    ensures ' ' !in QuoteIdent(driver, "deleted_at")
    ensures '(' !in QuoteIdent(driver, "deleted_at") && ')' !in QuoteIdent(driver, "deleted_at")
  {
    MarkedIsPlain("deleted_at", if driver.Postgres? then '\"' else '`');
  }

  lemma MarkedIsPlain(s: string, mark: char)
    requires mark !in s && ' ' !in s && '(' !in s && ')' !in s
    requires mark != ' ' && mark != '(' && mark != ')'
    ensures ' ' !in [mark] + Doubled(s, mark) + [mark]
    ensures '(' !in [mark] + Doubled(s, mark) + [mark] && ')' !in [mark] + Doubled(s, mark) + [mark]
  {
    NothingDoubled(s, mark);
  }

  lemma DeletedIsPlain(driver: Driver)
    ensures PlainWords(DeletedFilter(driver))
  {
    DeletedNameIsPlain(driver);
    IsNullIsPlain();
    WordThenWords(QuoteIdent(driver, "deleted_at"), " IS NULL");
  }

  lemma SkipPlain(s: string, rest: Pieces, sep: Pieces)
    requires (sep == OR || sep == AND) && PlainWords(s)
    ensures FirstTop(Chars(s) + rest, sep, 0) == |s| + FirstTop(rest, sep, 0)
  {
    var t := Chars(s) + rest;
    assert OR[0] == AND[0] == Ch(' ') && OR[1] == Ch('O') && AND[1] == Ch('A');
    forall i | 0 <= i < |s| && Chars(s)[i] == Ch(' ')
      ensures i + 1 < |t| && t[i + 1] != sep[1]
    {
      assert PlainAt(s, i);
      assert t[i + 1] == Ch(s[i + 1]);
    }
    forall i | 0 <= i < |s|
      ensures Chars(s)[i] != Ch('(') && Chars(s)[i] != Ch(')')
    {
      assert PlainAt(s, i);
    }
    SkipWords(Chars(s), rest, sep);
  }

  function Deleted(driver: Driver): Pieces
  {
    Chars(DeletedFilter(driver))
  }

  lemma SkipDeleted(driver: Driver, rest: Pieces, sep: Pieces)
    requires sep == OR || sep == AND
    ensures FirstTop(Deleted(driver) + rest, sep, 0) == |Deleted(driver)| + FirstTop(rest, sep, 0)
  {
    DeletedIsPlain(driver);
    SkipPlain(DeletedFilter(driver), rest, sep);
  }

  /** The guard conjoins with the whole parenthesised text, not with its first part. */
  lemma GuardConjoins(driver: Driver, c: Pieces, atom: Pieces -> bool)
    requires Balanced(c, 0)
    ensures EvalOr(Deleted(driver) + (AND + Group(c)), atom) == (atom(Deleted(driver)) && atom(Group(c)))
  {
    SkipDeleted(driver, AND + Group(c), OR);
    SkipAnd(Group(c));
    WholeGroup(c, OR);
    SkipDeleted(driver, AND + Group(c), AND);
    StartsHere(AND, Group(c));
    AndOfGroup(c, [], atom);
    AndAt(Deleted(driver), Group(c), atom);
  }

  lemma GuardAlone(driver: Driver, atom: Pieces -> bool)
    ensures EvalOr(Deleted(driver), atom) == atom(Deleted(driver))
  {
    SkipDeleted(driver, [], OR);
    SkipDeleted(driver, [], AND);
    assert Deleted(driver) + [] == Deleted(driver);
  }

  predicate Live(q: Query)
  {
    q.softDelete && !q.withTrashed
  }

  predicate HasFilter(q: Query)
  {
    q.wheres != [] || Live(q)
  }

  /** The condition of a SELECT: the guard against deleted rows, and the whole chain in parentheses. */
  function Condition(q: Query): Pieces
    requires HasFilter(q)
  {
    if q.wheres == [] then Deleted(q.driver)
    else if Live(q) then Deleted(q.driver) + (AND + Group(ChainText(q.wheres)))
    else ChainText(q.wheres)
  }

  /** What buildSelect writes between FROM and GROUP BY. */
  lemma FilterSpells(q: Query)
    ensures Bound(FilterFrags(q)) == if HasFilter(q) then Chars(" WHERE ") + Condition(q) else []
  {
    var sd, fs := DeletedFilter(q.driver), WhereFrags(q.wheres);
    BoundOnly(sd);
    BoundOnly(" WHERE ");
    if q.wheres == [] {
      BoundAppend(Only(" WHERE "), Only(sd));
    } else {
      WhereFragsSpellTheChain(q.wheres);
      if Live(q) {
        GuardFrags(Only(" WHERE "), Only(sd), Only(" AND ("), fs, Only(")"));
        GuardSpells(sd, fs);
        BoundAppend(Only(" WHERE "), Only(sd) + (Only(" AND (") + (fs + Only(")"))));
      } else {
        BoundAppend(Only(" WHERE "), fs);
      }
    }
  }

  lemma GuardFrags(w: seq<Frag>, a: seq<Frag>, b: seq<Frag>, c: seq<Frag>, d: seq<Frag>)
    ensures w + a + b + c + d == w + (a + (b + (c + d)))
  {
  }

  lemma GuardSpells(sd: string, fs: seq<Frag>)
    ensures Bound(Only(sd) + (Only(" AND (") + (fs + Only(")")))) == Chars(sd) + (AND + Group(Bound(fs)))
  {
    BoundOnly(sd);
    BoundOnly(" AND (");
    BoundOnly(")");
    BoundAppend(fs, Only(")"));
    BoundAppend(Only(" AND ("), fs + Only(")"));
    BoundAppend(Only(sd), Only(" AND (") + (fs + Only(")")));
    assert Chars(" AND (") == AND + [Ch('(')] && Chars(")") == [Ch(')')];
    RegroupFour(AND, [Ch('(')], Bound(fs), [Ch(')')]);
  }

  lemma RegroupFour<T>(a: seq<T>, b: seq<T>, c: seq<T>, d: seq<T>)
    ensures (a + b) + (c + d) == a + (b + c + d)
  {
  }

  /** A parenthesised chain is read as the chain. */
  predicate ReadsParentheses(ws: seq<Where>, atom: Pieces -> bool)
  {
    ws != [] ==> atom(Group(ChainText(ws))) == EvalOr(ChainText(ws), atom)
  }

  lemma GuardedChain(driver: Driver, ws: seq<Where>, t: Pieces, atom: Pieces -> bool)
    requires ws != [] && AllBalanced(ws) && t == ChainText(ws) && ReadsParentheses(ws, atom)
    ensures EvalOr(Deleted(driver) + (AND + Group(t)), atom) <==> atom(Deleted(driver)) && ChainHolds(ws, atom)
  {
    ChainMeans(ws, atom);
    ChainBalanced(ws);
    GuardConjoins(driver, t, atom);
  }

  lemma ChainMeans(ws: seq<Where>, atom: Pieces -> bool)
    requires ws != [] && AllBalanced(ws)
    ensures EvalOr(ChainText(ws), atom) <==> ChainHolds(ws, atom)
  {
    WhereFragsSpellTheChain(ws);
    WhereMeansChain(ws, atom);
  }

  /**
   The rows a SELECT keeps: those not deleted (unless trashed rows are asked for)
   for which some alternative of the chain holds, each condition with its own arguments.
   */
  lemma FilterMeansLiveAndChain(q: Query, atom: Pieces -> bool)
    requires HasFilter(q) && AllBalanced(q.wheres) && (Live(q) ==> ReadsParentheses(q.wheres, atom))
    ensures EvalOr(Condition(q), atom) <==>
            (Live(q) ==> atom(Deleted(q.driver))) && (q.wheres != [] ==> ChainHolds(q.wheres, atom))
  {
    if q.wheres == [] {
      GuardAlone(q.driver, atom);
    } else if Live(q) {
      GuardedChain(q.driver, q.wheres, ChainText(q.wheres), atom);
    } else {
      ChainMeans(q.wheres, atom);
    }
  }
}
