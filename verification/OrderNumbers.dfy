/** The order-number allocator: an advisory lock held from the reservation to the end of the
    transaction, the greatest number of the day by string comparison, and its successor. */
module OrderNumbers {
  import opened Wrappers
  import opened Text

  type Tx = int

  /** A day as the eight digits of its UTC date. */
  predicate IsDay(day: string) {
    |day| == 8 && forall k :: 0 <= k < 8 ==> IsDigit(day[k])
  }

  type Day = d: string | IsDay(d) witness "20260101"

  const FIRST := 1001
  const CAPACITY := 9000

  function Prefix(day: Day): (p: string)
    ensures |p| == 12
  {
    "NB-" + day + "-"
  }

  function Number(day: Day, seqNo: nat): string {
    Prefix(day) + Padded(seqNo, 4)
  }

  // ---- the reservation ----

  /** Byte-order comparison of strings. */
  predicate LexLe(a: string, b: string) {
    a == [] || (b != [] && (a[0] < b[0] || (a[0] == b[0] && LexLe(a[1..], b[1..]))))
  }

  ghost predicate IsLast(day: Day, committed: set<string>, last: string) {
    && last in committed && Prefix(day) <= last
    && forall t :: t in committed && Prefix(day) <= t ==> LexLe(t, last)
  }

  /** The part after the last hyphen. */
  function AfterLastHyphen(s: string): string {
    if s == [] || s[|s| - 1] == '-' then [] else AfterLastHyphen(s[..|s| - 1]) + [s[|s| - 1]]
  }

  /** The sequence number that follows the day's last number; text that is no numeral restarts the day. */
  function NextSeq(last: Option<string>): nat {
    match last
    case None => FIRST
    case Some(s) =>
      match ParseDigits(AfterLastHyphen(s))
      case Some(n) => n + 1
      case None => FIRST
  }

  /** `next` is what the query and the arithmetic on it give over the committed numbers. */
  ghost predicate Reserves(day: Day, committed: set<string>, next: string) {
    || (next == Number(day, NextSeq(None)) && forall t :: t in committed ==> !(Prefix(day) <= t))
    || exists last :: IsLast(day, committed, last) && next == Number(day, NextSeq(Some(last)))
  }

  // ---- string order and numeric order ----

  lemma {:induction false} LexCommonPrefix(p: string, a: string, b: string)
    ensures LexLe(p + a, p + b) <==> LexLe(a, b)
  {
    if p == [] {
      assert p + a == a && p + b == b;
    } else {
      LexCommonPrefix(p[1..], a, b);
      assert (p + a)[1..] == p[1..] + a && (p + b)[1..] == p[1..] + b;
    }
  }

  lemma {:induction false} LexTotalOnEqualLength(a: string, b: string)
    requires |a| == |b|
    ensures LexLe(a, b) || LexLe(b, a)
    ensures LexLe(a, b) && LexLe(b, a) ==> a == b
  {
    if a != [] {
      LexTotalOnEqualLength(a[1..], b[1..]);
      assert a == [a[0]] + a[1..] && b == [b[0]] + b[1..];
    }
  }

  lemma {:induction false} DigitsAreRead(a: string)
    requires a != [] && AllDigits(a)
    ensures ParseDigits(a).Some?
    ensures |a| > 1 ==> ParseDigits(a[..|a| - 1]).Some?
    ensures |a| > 1 ==> ParseDigits(a).value == 10 * ParseDigits(a[..|a| - 1]).value + DigitValue(a[|a| - 1])
  {
    if |a| > 1 {
      DigitsAreRead(a[..|a| - 1]);
    }
  }

  lemma {:induction false} LexLastChar(a: string, b: string, x: char, y: char)
    requires |a| == |b|
    ensures LexLe(a + [x], b + [y]) <==> if a == b then x <= y else LexLe(a, b)
  {
    if a == [] {
      assert a + [x] == [x] && b + [y] == [y] && [x][1..] == [] && [y][1..] == [];
    } else {
      LexLastChar(a[1..], b[1..], x, y);
      assert (a + [x])[1..] == a[1..] + [x] && (b + [y])[1..] == b[1..] + [y];
      assert a == [a[0]] + a[1..] && b == [b[0]] + b[1..];
    }
  }

  /** On numerals of equal length the two orders agree. */
  lemma {:induction false} LexIsNumeric(a: string, b: string)
    requires |a| == |b| && a != [] && AllDigits(a) && AllDigits(b)
    ensures ParseDigits(a).Some? && ParseDigits(b).Some?
    ensures LexLe(a, b) <==> ParseDigits(a).value <= ParseDigits(b).value
    decreases |a|
  {
    DigitsAreRead(a);
    DigitsAreRead(b);
    if |a| > 1 {
      var a', b' := a[..|a| - 1], b[..|b| - 1];
      LexIsNumeric(a', b');
      LexIsNumeric(b', a');
      LexTotalOnEqualLength(a', b');
      LexLastChar(a', b', a[|a| - 1], b[|b| - 1]);
      assert a == a' + [a[|a| - 1]] && b == b' + [b[|b| - 1]];
    } else {
      assert a[1..] == [] && b[1..] == [];
    }
  }

  // ---- the numbers of one day ----

  lemma FourDigits(n: nat)
    requires n < 10_000
    ensures |Padded(n, 4)| == 4
  {
    DigitsLength(n, 4);
    assert Pow10(4) == 10_000;
  }

  lemma TenThousand()
    ensures Padded(10_000, 4) == "10000"
  {
    assert Digits(10_000) == "10000" by {
      assert Digits(1) == "1";
      assert Digits(10) == "10";
      assert Digits(100) == "100";
      assert Digits(1000) == "1000";
    }
  }

  lemma NumberInjective(day: Day, m: nat, n: nat)
    requires Number(day, m) == Number(day, n)
    ensures m == n
  {
    assert Padded(m, 4) == Number(day, m)[12..] && Padded(n, 4) == Number(day, n)[12..];
    PaddedRoundTrip(m, 4);
    PaddedRoundTrip(n, 4);
  }

  lemma DaysApart(day: Day, other: Day, n: nat)
    requires Prefix(day) <= Number(other, n)
    ensures day == other
  {
    assert Prefix(day) == Number(other, n)[..12] == Prefix(other);
    assert Prefix(day)[3..11] == day && Prefix(other)[3..11] == other;
  }

  lemma {:induction false} SuffixIsRead(p: string, d: string)
    requires p != [] && p[|p| - 1] == '-' && AllDigits(d)
    ensures AfterLastHyphen(p + d) == d
  {
    if d == [] {
      assert p + d == p;
    } else {
      assert (p + d)[..|p + d| - 1] == p + d[..|d| - 1];
      SuffixIsRead(p, d[..|d| - 1]);
    }
  }

  lemma NextAfter(day: Day, n: nat)
    ensures NextSeq(Some(Number(day, n))) == n + 1
  {
    SuffixIsRead(Prefix(day), Padded(n, 4));
    PaddedRoundTrip(n, 4);
  }

  function Nth(day: Day, i: nat): string {
    Number(day, FIRST + i)
  }

  /** The day's numbers are `1001, ..., 1000 + k`. */
  ghost predicate Contiguous(day: Day, committed: set<string>, k: nat) {
    forall t :: t in committed && Prefix(day) <= t <==> exists i :: 0 <= i < k && t == Nth(day, i)
  }

  lemma NumericAmongFourDigits(day: Day, m: nat, n: nat)
    requires m < 10_000 && n < 10_000
    ensures LexLe(Number(day, m), Number(day, n)) <==> m <= n
  {
    LexCommonPrefix(Prefix(day), Padded(m, 4), Padded(n, 4));
    FourDigits(m);
    FourDigits(n);
    LexIsNumeric(Padded(m, 4), Padded(n, 4));
    PaddedRoundTrip(m, 4);
    PaddedRoundTrip(n, 4);
  }

  lemma TenThousandSortsEarly(day: Day, m: nat, n: nat)
    requires m == 10_000 && 1001 <= n < 10_000
    ensures LexLe(Number(day, m), Number(day, n)) && !LexLe(Number(day, n), Number(day, m))
  {
    LexCommonPrefix(Prefix(day), Padded(m, 4), Padded(n, 4));
    LexCommonPrefix(Prefix(day), Padded(n, 4), Padded(m, 4));
    TenThousand();
    FourDigits(n);
    var d := Padded(n, 4);
    // "1000" against the four digits decides before the fifth character is reached
    assert Padded(1000, 4) == "1000" by {
      assert Digits(1) == "1";
      assert Digits(10) == "10";
      assert Digits(100) == "100";
    }
    LexIsNumeric("1000", d);
    LexIsNumeric(d, "1000");
    PaddedRoundTrip(1000, 4);
    PaddedRoundTrip(n, 4);
    LexFifthChar("1000", '0', d);
  }

  lemma {:induction false} LexFifthChar(a: string, x: char, b: string)
    requires |a| == |b| && a != b
    ensures LexLe(a + [x], b) <==> LexLe(a, b)
    ensures LexLe(b, a + [x]) <==> LexLe(b, a)
  {
    if a != [] {
      assert (a + [x])[1..] == a[1..] + [x];
      assert a == [a[0]] + a[1..] && b == [b[0]] + b[1..];
      if a[0] == b[0] {
        LexFifthChar(a[1..], x, b[1..]);
      }
    }
  }

  /** The numerically greatest of the day's four-digit numbers. */
  function Top(k: nat): nat
    requires k > 0
  {
    if k < CAPACITY then FIRST + k - 1 else 9_999
  }

  lemma TopSortsLast(day: Day, k: nat, i: nat)
    requires i < k <= CAPACITY
    ensures LexLe(Nth(day, i), Number(day, Top(k)))
    ensures LexLe(Number(day, Top(k)), Nth(day, i)) ==> FIRST + i == Top(k)
  {
    var n := FIRST + i;
    if n < 10_000 {
      NumericAmongFourDigits(day, n, Top(k));
      NumericAmongFourDigits(day, Top(k), n);
    } else {
      TenThousandSortsEarly(day, n, Top(k));
    }
  }

  lemma LastIsTop(day: Day, committed: set<string>, k: nat, last: string)
    requires Contiguous(day, committed, k) && 0 < k <= CAPACITY && IsLast(day, committed, last)
    ensures last == Number(day, Top(k))
  {
    var i :| 0 <= i < k && last == Nth(day, i);
    var top := Nth(day, Top(k) - FIRST);
    assert top in committed && Prefix(day) <= top;
    TopSortsLast(day, k, i);
  }

  lemma NumberIsCommitted(day: Day, committed: set<string>, k: nat, n: nat)
    requires Contiguous(day, committed, k)
    ensures Number(day, n) in committed <==> FIRST <= n < FIRST + k
  {
    assert Prefix(day) <= Number(day, n);
    if Number(day, n) in committed {
      var i :| 0 <= i < k && Number(day, n) == Nth(day, i);
      NumberInjective(day, n, FIRST + i);
    }
    if FIRST <= n < FIRST + k {
      assert Number(day, n) == Nth(day, n - FIRST);
    }
  }

  /** With `k` numbers committed, the number reserved next: the following one, until the 9001st
      order of the day, from which 10000 is proposed for ever because it sorts before 9999. */
  lemma ReservedNumber(day: Day, committed: set<string>, k: nat, next: string)
    requires Contiguous(day, committed, k) && k <= CAPACITY && Reserves(day, committed, next)
    ensures next == Number(day, if k < 9000 then 1001 + k else 10_000)
    ensures next in committed <==> k == 9000
  {
    var n := if k < CAPACITY then FIRST + k else 10_000;
    if k > 0 {
      assert Nth(day, 0) in committed && Prefix(day) <= Nth(day, 0);
      var last :| IsLast(day, committed, last) && next == Number(day, NextSeq(Some(last)));
      LastIsTop(day, committed, k, last);
      NextAfter(day, Top(k));
    }
    NumberIsCommitted(day, committed, k, n);
  }

  /** The numbers as customers see them: the day's first, and the one nobody gets twice. */
  lemma NumbersLookLike(day: Day)
    ensures Number(day, 1001) == "NB-" + day + "-1001" && Number(day, 9999) == "NB-" + day + "-9999"
    ensures Number(day, 10_000) == "NB-" + day + "-10000"
  {
    TenThousand();
    assert Digits(1) == "1" && Digits(9) == "9";
    assert Digits(10) == "10" && Digits(99) == "99";
    assert Digits(100) == "100" && Digits(999) == "999";
    assert Digits(1001) == "1001" && Digits(9999) == "9999";
    assert "NB-" + day + "-" + "1001" == "NB-" + day + "-1001";
    assert "NB-" + day + "-" + "9999" == "NB-" + day + "-9999";
    assert "NB-" + day + "-" + "10000" == "NB-" + day + "-10000";
  }

  /** The query always has an answer. */
  lemma SomeNumberIsReserved(day: Day, committed: set<string>, k: nat) returns (next: string)
    requires Contiguous(day, committed, k) && k <= CAPACITY
    ensures Reserves(day, committed, next)
  {
    if k == 0 {
      next := Number(day, NextSeq(None));
    } else {
      var last := Number(day, Top(k));
      NumberIsCommitted(day, committed, k, Top(k));
      forall t | t in committed && Prefix(day) <= t
        ensures LexLe(t, last)
      {
        var i :| 0 <= i < k && t == Nth(day, i);
        TopSortsLast(day, k, i);
      }
      assert IsLast(day, committed, last);
      next := Number(day, NextSeq(Some(last)));
    }
  }

  // ---- concurrent transactions ----

  datatype Phase =
    | Reserved(day: Day, number: string)
    | Committed(day: Day, number: string)
    | RolledBack

  /** Committed order numbers of all days, the transaction holding the advisory lock, and every
      transaction that has reserved. */
  datatype State = State(numbers: set<string>, lock: Option<Tx>, txs: map<Tx, Phase>)

  const START := State({}, None, map[])

  datatype Event = Reserve(tx: Tx, day: Day) | Commit(tx: Tx) | Rollback(tx: Tx)

  /** Taking the lock waits until it is free. Ending a transaction, either way, frees it; an insert
      of an existing number breaks the unique key and rolls the transaction back. */
  ghost predicate Step(s: State, e: Event, s': State) {
    match e
    case Reserve(tx, day) =>
      && s.lock == None && tx !in s.txs
      && exists next :: Reserves(day, s.numbers, next)
           && s' == s.(lock := Some(tx), txs := s.txs[tx := Reserved(day, next)])
    case Commit(tx) =>
      && tx in s.txs && s.txs[tx].Reserved?
      && var p := s.txs[tx];
         s' == if p.number in s.numbers
               then State(s.numbers, None, s.txs[tx := RolledBack])
               else State(s.numbers + {p.number}, None, s.txs[tx := Committed(p.day, p.number)])
    case Rollback(tx) =>
      && tx in s.txs && s.txs[tx].Reserved?
      && s' == State(s.numbers, None, s.txs[tx := RolledBack])
  }

  ghost predicate IsRun(ss: seq<State>, es: seq<Event>) {
    && |ss| == |es| + 1 && ss[0] == START
    && forall i :: 0 <= i < |es| ==> Step(ss[i], es[i], ss[i + 1])
  }

  /** The number of orders committed for a day. */
  ghost predicate DayCount(s: State, day: Day, k: nat) {
    k <= CAPACITY && Contiguous(day, s.numbers, k)
  }

  /** The day's numbers are the first few from 1001 on, at most 9000 of them. */
  ghost predicate DayIsContiguous(s: State, day: Day) {
    exists k: nat :: DayCount(s, day, k)
  }

  ghost predicate Inv(s: State) {
    && (forall day: Day :: DayIsContiguous(s, day))
    && (forall t :: t in s.txs && s.txs[t].Reserved? <==> s.lock == Some(t))
    && (forall t :: t in s.txs && s.txs[t].Reserved? ==> Reserves(s.txs[t].day, s.numbers, s.txs[t].number))
    && (forall t :: t in s.txs && s.txs[t].Committed? ==> s.txs[t].number in s.numbers)
    && (forall t, u :: t in s.txs && u in s.txs && t != u && s.txs[t].Committed? && s.txs[u].Committed? ==>
          s.txs[t].number != s.txs[u].number)
  }

  lemma CommitExtendsDay(s: State, day: Day, k: nat)
    requires DayCount(s, day, k) && k < CAPACITY
    ensures Contiguous(day, s.numbers + {Nth(day, k)}, k + 1)
  {
    var numbers := s.numbers + {Nth(day, k)};
    forall t
      ensures t in numbers && Prefix(day) <= t <==> exists i :: 0 <= i < k + 1 && t == Nth(day, i)
    {
      if t == Nth(day, k) {
        assert Prefix(day) <= t;
      } else if t in s.numbers && Prefix(day) <= t {
        var i :| 0 <= i < k && t == Nth(day, i);
      }
    }
  }

  lemma OtherDaysKeep(s: State, day: Day, other: Day, n: nat, k: nat)
    requires DayCount(s, other, k) && other != day
    ensures Contiguous(other, s.numbers + {Number(day, n)}, k)
  {
    if Prefix(other) <= Number(day, n) {
      DaysApart(other, day, n);
    }
  }

  lemma StepKeepsInv(s: State, e: Event, s': State)
    requires Inv(s) && Step(s, e, s')
    ensures Inv(s')
  {
    if e.Commit? && s.txs[e.tx].number !in s.numbers {
      var day, number := s.txs[e.tx].day, s.txs[e.tx].number;
      assert DayIsContiguous(s, day);
      var k: nat :| DayCount(s, day, k);
      ReservedNumber(day, s.numbers, k, number);
      assert number == Nth(day, k);
      CommitExtendsDay(s, day, k);
      assert DayCount(s', day, k + 1);
      forall other: Day | other != day
        ensures DayIsContiguous(s', other)
      {
        assert DayIsContiguous(s, other);
        var j: nat :| DayCount(s, other, j);
        OtherDaysKeep(s, day, other, FIRST + k, j);
        assert DayCount(s', other, j);
      }
    } else {
      forall day: Day
        ensures DayIsContiguous(s', day)
      {
        assert DayIsContiguous(s, day);
        var k: nat :| DayCount(s, day, k);
        assert DayCount(s', day, k);
      }
    }
  }

  lemma {:induction false} RunKeepsInv(ss: seq<State>, es: seq<Event>)
    requires IsRun(ss, es)
    ensures forall i :: 0 <= i < |ss| ==> Inv(ss[i])
  {
    if es == [] {
      forall day: Day
        ensures DayIsContiguous(ss[0], day)
      {
        assert DayCount(ss[0], day, 0);
      }
    } else {
      var n := |es| - 1;
      RunKeepsInv(ss[..n + 1], es[..n]);
      assert Inv(ss[..n + 1][n]);
      StepKeepsInv(ss[n], es[n], ss[n + 1]);
      forall i | 0 <= i < |ss|
        ensures Inv(ss[i])
      {
        if i <= n { assert ss[..n + 1][i] == ss[i]; }
      }
    }
  }

  ghost predicate Holds(s: State, t: Tx, number: string) {
    t in s.txs && !s.txs[t].RolledBack? && s.txs[t].number == number
  }

  /** In every interleaving of any number of transactions over any days: a day's committed numbers
      run from 1001 without a gap, and two transactions hold the same number only once that day has
      used up its 9000 numbers. */
  lemma NumbersAreUnique(ss: seq<State>, es: seq<Event>, i: nat)
    requires IsRun(ss, es) && i < |ss|
    ensures forall day: Day :: DayIsContiguous(ss[i], day)
    ensures forall t, u, number :: t != u && Holds(ss[i], t, number) && Holds(ss[i], u, number) ==>
              DayCount(ss[i], ss[i].txs[t].day, CAPACITY) || DayCount(ss[i], ss[i].txs[u].day, CAPACITY)
  {
    RunKeepsInv(ss, es);
    var s := ss[i];
    forall t, u, number | t != u && Holds(s, t, number) && Holds(s, u, number)
      ensures DayCount(s, s.txs[t].day, CAPACITY) || DayCount(s, s.txs[u].day, CAPACITY)
    {
      var holder := if s.txs[t].Reserved? then t else u;
      assert s.txs[holder].Reserved?;
      var day := s.txs[holder].day;
      assert DayIsContiguous(s, day);
      var k: nat :| DayCount(s, day, k);
      ReservedNumber(day, s.numbers, k, number);
    }
  }

  /** An attempt to commit succeeds exactly while fewer than 9000 orders of that day are committed;
      afterwards every attempt fails and the day stays as it is. */
  lemma CapacityIsExact(ss: seq<State>, es: seq<Event>, i: nat, tx: Tx, day: Day, number: string, k: nat)
    requires IsRun(ss, es) && i < |es| && es[i] == Commit(tx)
    requires tx in ss[i].txs && ss[i].txs[tx] == Reserved(day, number) && DayCount(ss[i], day, k)
    ensures if k < 9000
            then ss[i + 1].txs[tx] == Committed(day, Number(day, 1001 + k)) && DayCount(ss[i + 1], day, k + 1)
            else ss[i + 1].txs[tx] == RolledBack && DayCount(ss[i + 1], day, 9000)
  {
    RunKeepsInv(ss, es);
    assert Step(ss[i], es[i], ss[i + 1]) && Inv(ss[i]);
    ReservedNumber(day, ss[i].numbers, k, number);
    if k < CAPACITY {
      assert number == Nth(day, k);
      CommitExtendsDay(ss[i], day, k);
    }
  }

  /** A free lock never blocks an allocation: some reservation step is possible. */
  lemma ReservationIsPossible(ss: seq<State>, es: seq<Event>, tx: Tx, day: Day) returns (next: State)
    requires IsRun(ss, es) && ss[|es|].lock == None && tx !in ss[|es|].txs
    ensures Step(ss[|es|], Reserve(tx, day), next)
  {
    RunKeepsInv(ss, es);
    var s := ss[|es|];
    assert DayIsContiguous(s, day);
    var k: nat :| DayCount(s, day, k);
    var number := SomeNumberIsReserved(day, s.numbers, k);
    next := s.(lock := Some(tx), txs := s.txs[tx := Reserved(day, number)]);
  }
}
