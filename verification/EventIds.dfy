/**
 Event IDs: a millisecond clock and a counter printed as "%013x%08x". Clients
 compare them as strings; within the printed widths that is the order of the
 (millis, counter) pairs.
 */
module EventIds {
  import opened Text

  const WIDTH_MS := 13
  const WIDTH_N := 8

  function Pow16(k: nat): (p: nat)
    ensures p > 0
  {
    if k == 0 then 1 else 16 * Pow16(k - 1)
  }

  function HexDigit(d: nat): (c: char)
    requires d < 16
    ensures '0' <= c <= '9' || 'a' <= c <= 'f'
  {
    if d < 10 then '0' + d as char else 'a' + (d - 10) as char
  }

  lemma HexDigitOrder(d: nat, e: nat)
    requires d < 16 && e < 16
    ensures HexDigit(d) < HexDigit(e) <==> d < e
    ensures HexDigit(d) == HexDigit(e) <==> d == e
  {
  }

  /** "%x": no leading zeros. */
  function Hex(n: nat): (s: string)
    ensures s != ""
  {
    if n < 16 then [HexDigit(n)] else Hex(n / 16) + [HexDigit(n % 16)]
  }

  function Zeros(k: int): string
  {
    if k <= 0 then "" else ['0'] + Zeros(k - 1)
  }

  /** "%0wx": padded to at least w digits, longer when n needs more. */
  function PadHex(n: nat, w: nat): string
  {
    Zeros(w - |Hex(n)|) + Hex(n)
  }

  /** Exactly w digits, least significant last. */
  function Fixed(n: nat, w: nat): (s: string)
    ensures |s| == w
    decreases w
  {
    if w == 0 then "" else Fixed(n / 16, w - 1) + [HexDigit(n % 16)]
  }

  lemma {:induction false} FixedZero(w: nat)
    ensures Fixed(0, w) == Zeros(w)
  {
    if w > 0 {
      FixedZero(w - 1);
      ZerosAppend(w - 1);
    }
  }

  lemma {:induction false} ZerosAppend(k: nat)
    ensures Zeros(k) + ['0'] == Zeros(k + 1)
  {
    if k > 0 {
      ZerosAppend(k - 1);
      assert Zeros(k) + ['0'] == ['0'] + (Zeros(k - 1) + ['0']);
    }
  }

  /** Within the width, padding gives exactly w digits. */
  lemma {:induction false} PadIsFixed(n: nat, w: nat)
    requires n < Pow16(w)
    ensures |Hex(n)| <= w || w == 0
    ensures w > 0 ==> PadHex(n, w) == Fixed(n, w)
    decreases w
  {
    if w == 0 {
    } else if n < 16 {
      FixedZero(w - 1);
      assert n / 16 == 0 && n % 16 == n;
    } else {
      assert w > 1;
      PadIsFixed(n / 16, w - 1);
      assert PadHex(n, w) == PadHex(n / 16, w - 1) + [HexDigit(n % 16)];
    }
  }

  /** String order of equally long prefixes decides; the rest only breaks ties. */
  lemma {:induction false} LessByPrefix(p: string, q: string, x: string, y: string)
    requires |p| == |q|
    ensures Less(p + x, q + y) <==> Less(p, q) || (p == q && Less(x, y))
  {
    if p == "" {
      assert p + x == x && q + y == y;
    } else {
      assert (p + x)[1..] == p[1..] + x && (q + y)[1..] == q[1..] + y;
      LessByPrefix(p[1..], q[1..], x, y);
      if p[0] == q[0] {
        assert p[1..] == q[1..] ==> p == [p[0]] + p[1..] == q;
      }
    }
  }

  lemma {:induction false} FixedOrder(m: nat, n: nat, w: nat)
    requires m < Pow16(w) && n < Pow16(w)
    ensures Less(Fixed(m, w), Fixed(n, w)) <==> m < n
    ensures Fixed(m, w) == Fixed(n, w) <==> m == n
    decreases w
  {
    if w > 0 {
      FixedOrder(m / 16, n / 16, w - 1);
      HexDigitOrder(m % 16, n % 16);
      LessByPrefix(Fixed(m / 16, w - 1), Fixed(n / 16, w - 1), [HexDigit(m % 16)], [HexDigit(n % 16)]);
      var a, b := Fixed(m / 16, w - 1), Fixed(n / 16, w - 1);
      assert Fixed(m, w)[..w - 1] == a && Fixed(n, w)[..w - 1] == b;
      assert Fixed(m, w)[w - 1] == HexDigit(m % 16) && Fixed(n, w)[w - 1] == HexDigit(n % 16);
    }
  }

  function EventId(millis: nat, n: nat): string
  {
    PadHex(millis, WIDTH_MS) + PadHex(n, WIDTH_N)
  }

  predicate InWidth(millis: nat, n: nat)
  {
    millis < Pow16(WIDTH_MS) && n < Pow16(WIDTH_N)
  }

  /** The order in which the server hands out (millis, counter) pairs. */
  predicate Earlier(m1: nat, n1: nat, m2: nat, n2: nat)
  {
    m1 < m2 || (m1 == m2 && n1 < n2)
  }

  /** Within the widths, string comparison of event IDs is the order of their pairs, and IDs are distinct. */
  lemma IdsSortAsPairs(m1: nat, n1: nat, m2: nat, n2: nat)
    requires InWidth(m1, n1) && InWidth(m2, n2)
    ensures Less(EventId(m1, n1), EventId(m2, n2)) <==> Earlier(m1, n1, m2, n2)
    ensures EventId(m1, n1) == EventId(m2, n2) <==> m1 == m2 && n1 == n2
  {
    PadIsFixed(m1, WIDTH_MS);
    PadIsFixed(m2, WIDTH_MS);
    PadIsFixed(n1, WIDTH_N);
    PadIsFixed(n2, WIDTH_N);
    var p, q, x, y := Fixed(m1, WIDTH_MS), Fixed(m2, WIDTH_MS), Fixed(n1, WIDTH_N), Fixed(n2, WIDTH_N);
    LessByPrefix(p, q, x, y);
    FixedOrder(m1, m2, WIDTH_MS);
    FixedOrder(n1, n2, WIDTH_N);
    assert (p + x)[..WIDTH_MS] == p && (q + y)[..WIDTH_MS] == q;
    assert (p + x)[WIDTH_MS..] == x && (q + y)[WIDTH_MS..] == y;
  }

  predicate SortsRight(m1: nat, n1: nat, m2: nat, n2: nat)
  {
    Less(EventId(m1, n1), EventId(m2, n2)) <==> Earlier(m1, n1, m2, n2)
  }

  ghost predicate AllSortUpTo(millis: nat, n: nat)
  {
    forall m1: nat, n1: nat, m2: nat, n2: nat :: m1 <= millis && m2 <= millis && n1 <= n && n2 <= n ==>
      SortsRight(m1, n1, m2, n2)
  }

  /** IDs up to a given clock and counter all sort right exactly when both fit the printed widths. */
  lemma IdsSortExactlyInWidth(millis: nat, n: nat)
    ensures AllSortUpTo(millis, n) <==> InWidth(millis, n)
  {
    if InWidth(millis, n) {
      forall m1: nat, n1: nat, m2: nat, n2: nat | m1 <= millis && m2 <= millis && n1 <= n && n2 <= n
        ensures SortsRight(m1, n1, m2, n2)
      {
        IdsSortAsPairs(m1, n1, m2, n2);
      }
    } else if n >= Pow16(WIDTH_N) {
      CounterSortsWrong();
    } else {
      ClockSortsWrong();
    }
  }

  lemma CounterSortsWrong()
    ensures !SortsRight(0, Pow16(WIDTH_N) - 1, 0, Pow16(WIDTH_N))
  {
    CounterOverflowBreaksOrder(0, Pow16(WIDTH_N) - 1);
    LessAsymmetric(EventId(0, Pow16(WIDTH_N)), EventId(0, Pow16(WIDTH_N) - 1));
  }

  lemma ClockSortsWrong()
    ensures !SortsRight(Pow16(WIDTH_MS) - 1, 0, Pow16(WIDTH_MS), 0)
  {
    ClockOverflowBreaksOrder(Pow16(WIDTH_MS) - 1, 0, 0);
    LessAsymmetric(EventId(Pow16(WIDTH_MS), 0), EventId(Pow16(WIDTH_MS) - 1, 0));
  }

  /** The first ID past the counter width sorts before the full-width IDs of its millisecond. */
  lemma CounterOverflowBreaksOrder(millis: nat, n: nat)
    requires Pow16(WIDTH_N - 1) < n < Pow16(WIDTH_N)
    ensures Less(EventId(millis, Pow16(WIDTH_N)), EventId(millis, n))
  {
    var ms := PadHex(millis, WIDTH_MS);
    OverflowSortsFirst(WIDTH_N, n, "", "");
    assert PadHex(Pow16(WIDTH_N), WIDTH_N) + "" == PadHex(Pow16(WIDTH_N), WIDTH_N);
    assert PadHex(n, WIDTH_N) + "" == PadHex(n, WIDTH_N);
    LessByPrefix(ms, ms, PadHex(Pow16(WIDTH_N), WIDTH_N), PadHex(n, WIDTH_N));
  }

  /** So does the first ID past the width of the clock. */
  lemma ClockOverflowBreaksOrder(millis: nat, n1: nat, n2: nat)
    requires Pow16(WIDTH_MS - 1) < millis < Pow16(WIDTH_MS)
    ensures Less(EventId(Pow16(WIDTH_MS), n1), EventId(millis, n2))
  {
    OverflowSortsFirst(WIDTH_MS, millis, PadHex(n1, WIDTH_N), PadHex(n2, WIDTH_N));
  }

  /** A number one digit too long has a smaller prefix than a number that fills the width. */
  lemma OverflowSortsFirst(w: nat, k: nat, x: string, y: string)
    requires w > 0 && Pow16(w - 1) < k < Pow16(w)
    ensures Less(PadHex(Pow16(w), w) + x, PadHex(k, w) + y)
  {
    var top, part := Pow16(w), Pow16(w - 1);
    PowerDigits(w - 1);
    PowerDigits(w);
    assert top / 16 == part && top % 16 == 0;
    assert PadHex(top, w) == Fixed(part, w) + "0";
    PadIsFixed(k, w);
    FixedOrder(part, k, w);
    LessByPrefix(Fixed(part, w), Fixed(k, w), "0" + x, y);
    assert Fixed(part, w) + ("0" + x) == Fixed(part, w) + "0" + x;
  }

  lemma {:induction false} PowerDigits(k: nat)
    ensures Hex(Pow16(k)) == Fixed(Pow16(k), k + 1)
    decreases k
  {
    if k == 0 {
      assert Fixed(1, 1) == Fixed(0, 0) + [HexDigit(1)];
    } else {
      PowerDigits(k - 1);
      assert Pow16(k) / 16 == Pow16(k - 1) && Pow16(k) % 16 == 0;
    }
  }

  /** The global counter behind newEventID. */
  class IdSource {
    var counter: nat

    constructor ()
      ensures counter == 0
    {
      counter := 0;
    }

    method NewEventID(now: nat) returns (id: string)
      modifies this
      ensures counter == old(counter) + 1
      ensures id == EventId(now, counter)
    {
      counter := counter + 1;
      id := PadHex(now, WIDTH_MS) + PadHex(counter, WIDTH_N);
    }
  }
}
