/**
 How a server takes a bound statement apart: it finds the reserved words that stand
 outside all parentheses, and reads the clauses between them. What is written for a
 query reads back as the clauses that the query stands for.
 */
module Reading {
  import opened Options
  import opened Seqs
  import opened Sql
  import opened Filters

  // --------------------------------------------------------- reserved words

  const BLANK: Pieces := [Ch(' ')]

  datatype Keyword = FROM | WHERE | GROUP | HAVING | ORDER | LIMIT | OFFSET | SET

  function Spelling(k: Keyword): string
  {
    match k
    case FROM => "FROM"
    case WHERE => "WHERE"
    case GROUP => "GROUP"
    case HAVING => "HAVING"
    case ORDER => "ORDER"
    case LIMIT => "LIMIT"
    case OFFSET => "OFFSET"
    case SET => "SET"
  }

  /** A text without blanks and parentheses. */
  predicate IsToken(v: string)
  {
    v != "" && forall i :: 0 <= i < |v| ==> v[i] != ' ' && v[i] != '(' && v[i] != ')'
  }

  lemma KeywordsAreTokens(k: Keyword)
    ensures IsToken(Spelling(k))
  {
  }

  lemma SpelledDifferently(j: Keyword, k: Keyword)
    requires Spelling(j) == Spelling(k)
    ensures j == k
  {
    assert Spelling(j)[0] == Spelling(k)[0] && |Spelling(j)| == |Spelling(k)|;
  }

  /** A keyword with the blanks around it. */
  function Word(k: Keyword): (r: Pieces)
    ensures |r| == |Spelling(k)| + 2
  {
    BLANK + Chars(Spelling(k)) + BLANK
  }

  lemma BlanksOfWord(k: Keyword)
    ensures |Word(k)| > 2 && Word(k)[0] == Ch(' ') == Word(k)[|Word(k)| - 1]
    ensures forall i :: 0 < i < |Word(k)| - 1 ==> Word(k)[i] != Ch(' ') && Word(k)[i] != Ch('(')
  {
    KeywordsAreTokens(k);
    var v := Spelling(k);
    forall i | 0 < i < |Word(k)| - 1
      ensures Word(k)[i] == Ch(v[i - 1])
    {
    }
  }

  datatype Parted = Parted(before: Pieces, after: Option<Pieces>)

  /** Take a text apart at the first occurrence of a keyword outside all parentheses. */
  function PartAt(s: Pieces, k: Keyword): Parted
  {
    var i := FirstTop(s, Word(k), 0);
    if i + |Word(k)| > |s| then Parted(s, None) else Parted(s[..i], Some(s[i + |Word(k)|..]))
  }

  /** A part before, the keyword, and a part after; or only the part before. */
  function Add(before: Pieces, k: Keyword, after: Option<Pieces>): Pieces
  {
    match after
    case None => before
    case Some(t) => before + (Word(k) + t)
  }

  /** Parentheses pair up, and the keyword does not occur outside them, between blanks. */
  ghost predicate Inert(t: Pieces, k: Keyword)
  {
    Balanced(t, 0) && FirstTop(BLANK + t + BLANK, Word(k), 0) == |t| + 2
  }

  predicate BlankOrEnd(s: Pieces)
  {
    s == [] || s[0] == Ch(' ')
  }

  /** An occurrence that begins in u does not reach further than the blank behind it. */
  lemma StaysInside(u: Pieces, rest: Pieces, k: Keyword)
    requires u != [] && BlankOrEnd(rest) && Word(k) <= u + rest
    ensures Word(k) <= u + BLANK
  {
    BlanksOfWord(k);
    var s := u + rest;
    assert rest != [] ==> s[|u|] == Ch(' ');
    assert |Word(k)| <= |u| + 1;
    assert s[..|Word(k)|] == (u + BLANK)[..|Word(k)|];
  }

  lemma NotHere(s: Pieces, sep: Pieces, d: int)
    requires s != [] && FirstTop(s, sep, d) > 0
    ensures !(d == 0 && sep <= s)
    ensures FirstTop(s, sep, d) == 1 + FirstTop(s[1..], sep, Depth(d, s[0]))
  {
  }

  /** What has no occurrence before a blank is passed over. */
  lemma {:induction false} PassOver(u: Pieces, d: nat, rest: Pieces, k: Keyword)
    requires Balanced(u, d) && BlankOrEnd(rest)
    requires FirstTop(u + BLANK, Word(k), d) == |u| + 1
    ensures FirstTop(u + rest, Word(k), d) == |u| + FirstTop(rest, Word(k), 0)
  {
    if u == [] {
      assert u + rest == rest;
    } else {
      assert (u + rest)[0] == u[0] && (u + rest)[1..] == u[1..] + rest;
      assert (u + BLANK)[0] == u[0] && (u + BLANK)[1..] == u[1..] + BLANK;
      NotHere(u + BLANK, Word(k), d);
      if d == 0 && Word(k) <= u + rest {
        StaysInside(u, rest, k);
      }
      var e := if u[0] == Ch('(') then d + 1 else if u[0] == Ch(')') then d - 1 else d;
      PassOver(u[1..], e, rest, k);
    }
  }

  lemma BlankFirst(t: Pieces, k: Keyword)
    requires Inert(t, k)
    ensures FirstTop(t + BLANK, Word(k), 0) == |t| + 1
  {
    var s := BLANK + t + BLANK;
    NotHere(s, Word(k), 0);
    assert s[0] == Ch(' ') && s[1..] == t + BLANK;
  }

  lemma BlankBalanced(t: Pieces)
    requires Balanced(t, 0)
    ensures Balanced(BLANK + t, 0)
  {
    assert (BLANK + t)[0] == Ch(' ') && (BLANK + t)[1..] == t;
  }

  /** An inert text at the start. */
  lemma PassText(t: Pieces, rest: Pieces, k: Keyword)
    requires Inert(t, k) && BlankOrEnd(rest)
    ensures FirstTop(t + rest, Word(k), 0) == |t| + FirstTop(rest, Word(k), 0)
  {
    BlankFirst(t, k);
    PassOver(t, 0, rest, k);
  }

  /** An inert text after a blank. */
  lemma PassBlankText(t: Pieces, rest: Pieces, k: Keyword)
    requires Inert(t, k) && BlankOrEnd(rest)
    ensures FirstTop(BLANK + t + rest, Word(k), 0) == 1 + |t| + FirstTop(rest, Word(k), 0)
  {
    BlankBalanced(t);
    PassOver(BLANK + t, 0, rest, k);
  }

  lemma JoinedAround(a: Pieces, b: Pieces)
    ensures BLANK + (a + BLANK + b) + BLANK == BLANK + a + (BLANK + b + BLANK)
    ensures a + BLANK + b == a + (BLANK + b)
  {
  }

  /** Two inert texts with a blank between them. */
  lemma InertJoin(a: Pieces, b: Pieces, k: Keyword)
    requires Inert(a, k) && Inert(b, k)
    ensures Inert(a + BLANK + b, k)
  {
    JoinedAround(a, b);
    PassBlankText(a, BLANK + b + BLANK, k);
    BlankBalanced(b);
    BalancedThrough(a, 0, BLANK + b, 0);
  }

  /** Only the keyword itself stands between two blanks without being longer. */
  lemma TokenIsKeyword(t: Pieces, k: Keyword)
    requires Ch(' ') !in t && Word(k) <= BLANK + t + BLANK
    ensures t == Chars(Spelling(k))
  {
    BlanksOfWord(k);
    var s, n := BLANK + t + BLANK, |Word(k)|;
    assert forall i :: 0 < i <= |t| ==> s[i] == t[i - 1] && t[i - 1] in t;
    assert s[n - 1] == Word(k)[n - 1];
    assert n == |s|;
    assert t == s[1..n - 1] == Word(k)[1..n - 1] == Chars(Spelling(k));
  }

  lemma {:induction false} NoBlankNoWord(t: Pieces, d: int, k: Keyword)
    requires Ch(' ') !in t
    ensures FirstTop(t + BLANK, Word(k), d) == |t| + 1
  {
    var s := t + BLANK;
    BlanksOfWord(k);
    if t == [] {
      assert s == BLANK && s[1..] == [];
    } else {
      assert s[0] == t[0] && t[0] in t && s[1..] == t[1..] + BLANK;
      NoBlankNoWord(t[1..], Depth(d, t[0]), k);
    }
  }

  /** A text without blanks that is not the keyword itself. */
  lemma InertToken(t: Pieces, k: Keyword)
    requires Balanced(t, 0) && Ch(' ') !in t && t != Chars(Spelling(k))
    ensures Inert(t, k)
  {
    var s := BLANK + t + BLANK;
    assert s[0] == Ch(' ') && s[1..] == t + BLANK;
    if Word(k) <= s {
      TokenIsKeyword(t, k);
    }
    NoBlankNoWord(t, 0, k);
  }

  lemma InertGroup(c: Pieces, k: Keyword)
    requires Balanced(c, 0)
    ensures Inert(Group(c), k)
  {
    BlanksOfWord(k);
    var s := BLANK + Group(c) + BLANK;
    assert s[0] == Ch(' ') && s[1] == Ch('(') && s[1..] == Group(c) + BLANK;
    SkipGroup(c, BLANK, Word(k));
    NoBlankNoWord([], 0, k);
    GroupBalanced(c);
    assert [] + BLANK == BLANK;
  }

  lemma InertPlain(v: string, k: Keyword)
    requires IsToken(v) && v != Spelling(k)
    ensures Inert(Chars(v), k)
  {
    NoParenBalanced(Chars(v));
    if Chars(v) == Chars(Spelling(k)) {
      SameChars(v, Spelling(k));
    }
    InertToken(Chars(v), k);
  }

  lemma SameChars(a: string, b: string)
    requires Chars(a) == Chars(b)
    ensures a == b
  {
    forall i | 0 <= i < |a|
      ensures a[i] == b[i]
    {
      assert Chars(a)[i] == Chars(b)[i];
    }
  }

  // ------------------------------------------------------ adding and parting

  lemma AddIsJoin(before: Pieces, k: Keyword, t: Pieces)
    ensures before + (Word(k) + t) == before + BLANK + (Chars(Spelling(k)) + BLANK + t)
  {
  }

  /** Adding a part for one keyword leaves a text inert for another. */
  lemma AddInert(before: Pieces, j: Keyword, after: Option<Pieces>, k: Keyword)
    requires j != k && Inert(before, k) && (after.Some? ==> Inert(after.value, k))
    ensures Inert(Add(before, j, after), k)
  {
    if after.Some? {
      var t, v := after.value, Chars(Spelling(j));
      KeywordsAreTokens(j);
      if Spelling(j) == Spelling(k) {
        SpelledDifferently(j, k);
      }
      InertPlain(Spelling(j), k);
      InertJoin(v, t, k);
      InertJoin(before, v + BLANK + t, k);
      AddIsJoin(before, j, t);
    }
  }

  /** A text parts where the keyword was added. */
  lemma AddParts(before: Pieces, k: Keyword, after: Option<Pieces>)
    requires Inert(before, k)
    ensures PartAt(Add(before, k, after), k) == Parted(before, after)
  {
    match after
    case None =>
      PassText(before, [], k);
      assert before + [] == before;
    case Some(t) =>
      PassText(before, Word(k) + t, k);
      StartsHere(Word(k), t);
      PartsThere(before, Word(k), t);
  }

  lemma PartsThere(a: Pieces, sep: Pieces, t: Pieces)
    ensures (a + (sep + t))[..|a|] == a && (a + (sep + t))[|a| + |sep|..] == t
  {
  }

  // ---------------------------------------------------------------- SELECT

  /** The clauses of a SELECT, each with its arguments in place. */
  datatype Clauses = Clauses(
    columns: Pieces,
    source: Pieces,
    where: Option<Pieces>,
    group: Option<Pieces>,
    having: Option<Pieces>,
    order: Option<Pieces>,
    limit: Option<nat>,
    offset: Option<nat>)

  /** Without the first n pieces. */
  function Drop(s: Pieces, n: nat): Pieces
  {
    if n <= |s| then s[n..] else []
  }

  /** What follows BY. */
  function AfterBy(s: Option<Pieces>): Option<Pieces>
  {
    match s
    case None => None
    case Some(t) => Some(Drop(t, |"BY "|))
  }

  function WithBy(s: Option<Pieces>): Option<Pieces>
  {
    match s
    case None => None
    case Some(t) => Some(Chars("BY") + BLANK + t)
  }

  function DigitOf(c: Piece): nat
  {
    if c.Ch? && '0' <= c.c <= '9' then (c.c - '0') as nat else 0
  }

  /** The value of a decimal number. */
  function Numeral(s: Pieces): nat
  {
    if s == [] then 0 else 10 * Numeral(s[..|s| - 1]) + DigitOf(s[|s| - 1])
  }

  function ReadNumber(s: Option<Pieces>): Option<nat>
  {
    match s
    case None => None
    case Some(t) => Some(Numeral(t))
  }

  function WriteNumber(n: Option<nat>): Option<Pieces>
  {
    match n
    case None => None
    case Some(k) => Some(Chars(Decimal(k)))
  }

  /** The clauses of a statement: the last clause is split off first. */
  function Read(s: Pieces): Clauses
  {
    var offset := PartAt(s, OFFSET);
    var limit := PartAt(offset.before, LIMIT);
    var order := PartAt(limit.before, ORDER);
    var having := PartAt(order.before, HAVING);
    var group := PartAt(having.before, GROUP);
    var where := PartAt(group.before, WHERE);
    var from := PartAt(where.before, FROM);
    Clauses(
      Drop(from.before, |"SELECT "|),
      if from.after.Some? then from.after.value else [],
      where.after,
      AfterBy(group.after),
      having.after,
      AfterBy(order.after),
      ReadNumber(limit.after),
      ReadNumber(offset.after))
  }

  function UpToFrom(c: Clauses): Pieces
  {
    Add(Chars("SELECT") + BLANK + c.columns, FROM, Some(c.source))
  }

  function UpToGroup(c: Clauses): Pieces
  {
    Add(Add(UpToFrom(c), WHERE, c.where), GROUP, WithBy(c.group))
  }

  function UpToOrder(c: Clauses): Pieces
  {
    Add(Add(UpToGroup(c), HAVING, c.having), ORDER, WithBy(c.order))
  }

  /** A statement with these clauses. */
  function Write(c: Clauses): Pieces
  {
    Add(Add(UpToOrder(c), LIMIT, WriteNumber(c.limit)), OFFSET, WriteNumber(c.offset))
  }

  /** Parentheses pair up in a text, and it has no keyword of a SELECT outside them. */
  ghost predicate Legible(t: Pieces)
  {
    forall k :: k != SET ==> Inert(t, k)
  }

  ghost predicate LegiblePart(t: Option<Pieces>)
  {
    t.Some? ==> Legible(t.value)
  }

  ghost predicate AllLegible(c: Clauses)
  {
    && Legible(c.columns) && Legible(c.source)
    && LegiblePart(c.where) && LegiblePart(c.group) && LegiblePart(c.having) && LegiblePart(c.order)
  }

  lemma InertAfter(v: string, t: Pieces, k: Keyword)
    requires v == "SELECT" || v == "BY"
    requires Inert(t, k)
    ensures Inert(Chars(v) + BLANK + t, k)
  {
    assert |v| == |Spelling(k)| ==> v[0] != Spelling(k)[0];
    InertPlain(v, k);
    InertJoin(Chars(v), t, k);
  }

  lemma InertBy(t: Option<Pieces>, k: Keyword)
    requires t.Some? ==> Inert(t.value, k)
    ensures WithBy(t).Some? ==> Inert(WithBy(t).value, k)
  {
    if t.Some? {
      InertAfter("BY", t.value, k);
    }
  }

  lemma InertNumber(n: Option<nat>, k: Keyword)
    ensures WriteNumber(n).Some? ==> Inert(WriteNumber(n).value, k)
  {
    if n.Some? {
      var v := Decimal(n.value);
      assert v[0] in v && Spelling(k)[0] > '9';
      assert forall i :: 0 <= i < |v| ==> v[i] in v;
      InertPlain(v, k);
    }
  }

  lemma {:induction false} NumeralOfDecimal(n: nat)
    ensures Numeral(Chars(Decimal(n))) == n
  {
    var s := Decimal(n);
    var front := s[..|s| - 1];
    assert Chars(s)[..|s| - 1] == Chars(front);
    if n < 10 {
      assert Chars(front) == [];
    } else {
      assert front == Decimal(n / 10);
      NumeralOfDecimal(n / 10);
    }
  }

  lemma NumberReadsBack(n: Option<nat>)
    ensures ReadNumber(WriteNumber(n)) == n
  {
    if n.Some? {
      NumeralOfDecimal(n.value);
    }
  }

  lemma ByReadsBack(t: Option<Pieces>)
    ensures AfterBy(WithBy(t)) == t
  {
    if t.Some? {
      assert |"BY "| == 3 && |Chars("BY") + BLANK| == 3;
      assert (Chars("BY") + BLANK + t.value)[3..] == t.value;
    }
  }

  lemma ColumnsReadBack(t: Pieces)
    ensures Drop(Chars("SELECT") + BLANK + t, |"SELECT "|) == t
  {
    assert |"SELECT "| == 7 && |Chars("SELECT") + BLANK| == 7;
  }

  lemma UpToFromInert(c: Clauses, k: Keyword)
    requires AllLegible(c) && k != SET
    ensures Inert(Chars("SELECT") + BLANK + c.columns, k)
    ensures k != FROM ==> Inert(UpToFrom(c), k)
  {
    InertAfter("SELECT", c.columns, k);
    if k != FROM {
      AddInert(Chars("SELECT") + BLANK + c.columns, FROM, Some(c.source), k);
    }
  }

  lemma UpToGroupInert(c: Clauses, k: Keyword)
    requires AllLegible(c) && k != SET && k != FROM && k != WHERE
    ensures Inert(Add(UpToFrom(c), WHERE, c.where), k)
    ensures k != GROUP ==> Inert(UpToGroup(c), k)
  {
    UpToFromInert(c, k);
    AddInert(UpToFrom(c), WHERE, c.where, k);
    if k != GROUP {
      InertBy(c.group, k);
      AddInert(Add(UpToFrom(c), WHERE, c.where), GROUP, WithBy(c.group), k);
    }
  }

  lemma UpToOrderInert(c: Clauses, k: Keyword)
    requires AllLegible(c) && (k == ORDER || k == LIMIT || k == OFFSET)
    ensures Inert(Add(UpToGroup(c), HAVING, c.having), k)
    ensures k != ORDER ==> Inert(UpToOrder(c), k)
  {
    UpToGroupInert(c, k);
    AddInert(UpToGroup(c), HAVING, c.having, k);
    if k != ORDER {
      InertBy(c.order, k);
      AddInert(Add(UpToGroup(c), HAVING, c.having), ORDER, WithBy(c.order), k);
    }
  }

  lemma PageParts(c: Clauses)
    requires AllLegible(c)
    ensures PartAt(Write(c), OFFSET) ==
            Parted(Add(UpToOrder(c), LIMIT, WriteNumber(c.limit)), WriteNumber(c.offset))
    ensures PartAt(Add(UpToOrder(c), LIMIT, WriteNumber(c.limit)), LIMIT) ==
            Parted(UpToOrder(c), WriteNumber(c.limit))
  {
    UpToOrderInert(c, LIMIT);
    AddParts(UpToOrder(c), LIMIT, WriteNumber(c.limit));
    UpToOrderInert(c, OFFSET);
    InertNumber(c.limit, OFFSET);
    AddInert(UpToOrder(c), LIMIT, WriteNumber(c.limit), OFFSET);
    AddParts(Add(UpToOrder(c), LIMIT, WriteNumber(c.limit)), OFFSET, WriteNumber(c.offset));
  }

  lemma OrderParts(c: Clauses)
    requires AllLegible(c)
    ensures PartAt(UpToOrder(c), ORDER) == Parted(Add(UpToGroup(c), HAVING, c.having), WithBy(c.order))
    ensures PartAt(Add(UpToGroup(c), HAVING, c.having), HAVING) == Parted(UpToGroup(c), c.having)
  {
    UpToOrderInert(c, ORDER);
    AddParts(Add(UpToGroup(c), HAVING, c.having), ORDER, WithBy(c.order));
    UpToGroupInert(c, HAVING);
    AddParts(UpToGroup(c), HAVING, c.having);
  }

  lemma GroupParts(c: Clauses)
    requires AllLegible(c)
    ensures PartAt(UpToGroup(c), GROUP) == Parted(Add(UpToFrom(c), WHERE, c.where), WithBy(c.group))
    ensures PartAt(Add(UpToFrom(c), WHERE, c.where), WHERE) == Parted(UpToFrom(c), c.where)
    ensures PartAt(UpToFrom(c), FROM) == Parted(Chars("SELECT") + BLANK + c.columns, Some(c.source))
  {
    UpToGroupInert(c, GROUP);
    AddParts(Add(UpToFrom(c), WHERE, c.where), GROUP, WithBy(c.group));
    UpToFromInert(c, WHERE);
    AddParts(UpToFrom(c), WHERE, c.where);
    UpToFromInert(c, FROM);
    AddParts(Chars("SELECT") + BLANK + c.columns, FROM, Some(c.source));
  }

  /** A statement of legible clauses reads back as these clauses. */
  lemma ReadsBack(c: Clauses)
    requires AllLegible(c)
    ensures Read(Write(c)) == c
  {
    PageParts(c);
    OrderParts(c);
    GroupParts(c);
    NumberReadsBack(c.limit);
    NumberReadsBack(c.offset);
    ByReadsBack(c.group);
    ByReadsBack(c.order);
    ColumnsReadBack(c.columns);
  }
}
