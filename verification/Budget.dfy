/** The sliding-window budget breaker of the agent.

    Every operation runs under one lock and reads a monotonic clock inside it, so the threads of a
    process produce one sequence of operations with non-decreasing clock readings.  The clock
    readings are parameters; money is exact.
 */
module Budget {

  /** An amount booked at a clock reading. */
  datatype Cost = Cost(at: real, amount: real)

  function Sum(cs: seq<Cost>): real {
    if cs == [] then 0.0 else Sum(cs[..|cs| - 1]) + cs[|cs| - 1].amount
  }

  /** The costs booked at or after a clock reading, in order. */
  function Since(cs: seq<Cost>, cutoff: real): seq<Cost> {
    if cs == [] then []
    else
      var kept, last := Since(cs[..|cs| - 1], cutoff), cs[|cs| - 1];
      if last.at >= cutoff then kept + [last] else kept
  }

  class BudgetBreaker {
    const dailyLimit: real
    const windowSeconds: real
    var costs: seq<Cost>

    constructor (dailyLimit: real, windowSeconds: real)
      ensures this.dailyLimit == dailyLimit && this.windowSeconds == windowSeconds && costs == []
    {
      this.dailyLimit, this.windowSeconds, costs := dailyLimit, windowSeconds, [];
    }

    method PruneLocked(now: real)
      modifies this
      ensures costs == Since(old(costs), now - windowSeconds)
    {
      var cutoff, kept := now - windowSeconds, [];
      for i := 0 to |costs|
        invariant kept == Since(costs[..i], cutoff)
        invariant costs == old(costs)
      {
        assert costs[..i + 1][..i] == costs[..i];
        if costs[i].at >= cutoff { kept := kept + [costs[i]]; }
      }
      assert costs[..|costs|] == costs;
      costs := kept;
    }

    method Total() returns (total: real)
      ensures total == Sum(costs)
    {
      total := 0.0;
      for i := 0 to |costs|
        invariant total == Sum(costs[..i])
      {
        assert costs[..i + 1][..i] == costs[..i];
        total := total + costs[i].amount;
      }
      assert costs[..|costs|] == costs;
    }

    method AddCost(t1: real, t2: real, c: real)
      modifies this
      ensures costs == Step(old(costs), Add(t1, t2, c), dailyLimit, windowSeconds)
    {
      PruneLocked(t1);
      costs := costs + [Cost(t2, c)];
    }

    method ShouldFallback(t1: real, c: real) returns (fallback: bool)
      modifies this
      ensures fallback == Exceeds(old(costs), t1, c, dailyLimit, windowSeconds)
      ensures costs == if c > dailyLimit then old(costs)
                       else Step(old(costs), Query(t1), dailyLimit, windowSeconds)
    {
      if c > dailyLimit { return true; }
      PruneLocked(t1);
      var total := Total();
      fallback := total + c > dailyLimit;
    }

    method CheckAndAdd(t1: real, t2: real, c: real) returns (should: bool)
      modifies this
      ensures should == Exceeds(old(costs), t1, c, dailyLimit, windowSeconds)
      ensures costs == Step(old(costs), Check(t1, t2, c), dailyLimit, windowSeconds)
    {
      PruneLocked(t1);
      var total := Total();
      should := c > dailyLimit || total + c > dailyLimit;
      costs := costs + [Cost(t2, c)];
    }
  }

  // ---- Whole runs ----

  /** One locked operation: `t1` is read when pruning, `t2` when booking. */
  datatype Op = Add(t1: real, t2: real, c: real) | Check(t1: real, t2: real, c: real) | Query(t1: real) {
    function Begin(): real { t1 }
    function End(): real { if Query? then t1 else t2 }
  }

  predicate Exceeds(costs: seq<Cost>, t1: real, c: real, limit: real, window: real) {
    c > limit || Sum(Since(costs, t1 - window)) + c > limit
  }

  function Step(costs: seq<Cost>, op: Op, limit: real, window: real): seq<Cost> {
    var kept := Since(costs, op.t1 - window);
    if op.Query? then kept else kept + [Cost(op.t2, op.c)]
  }

  function Run(ops: seq<Op>, limit: real, window: real): seq<Cost> {
    if ops == [] then [] else Step(Run(ops[..|ops| - 1], limit, window), ops[|ops| - 1], limit, window)
  }

  /** Clock readings never go back, within an operation or from one to the next. */
  predicate Timed(ops: seq<Op>) {
    && (forall i | 0 <= i < |ops| :: ops[i].Begin() <= ops[i].End())
    && forall i | 0 < i < |ops| :: ops[i - 1].End() <= ops[i].Begin()
  }

  predicate NonNegative(ops: seq<Op>) { forall op <- ops | !op.Query? :: op.c >= 0.0 }

  /** Everything ever booked, never pruned. */
  function History(ops: seq<Op>): seq<Cost> {
    if ops == [] then []
    else
      var past, op := History(ops[..|ops| - 1]), ops[|ops| - 1];
      if op.Query? then past else past + [Cost(op.t2, op.c)]
  }

  /** What `CheckAndAdd` let through (returned false for), never pruned. */
  function Granted(ops: seq<Op>, limit: real, window: real): seq<Cost> {
    if ops == [] then []
    else
      var front, op := ops[..|ops| - 1], ops[|ops| - 1];
      var past := Granted(front, limit, window);
      if op.Check? && !Exceeds(Run(front, limit, window), op.t1, op.c, limit, window) then past + [Cost(op.t2, op.c)]
      else past
  }

  function Within(cs: seq<Cost>, from: real, to: real): seq<Cost> {
    if cs == [] then []
    else
      var kept, last := Within(cs[..|cs| - 1], from, to), cs[|cs| - 1];
      if from <= last.at <= to then kept + [last] else kept
  }

  // ---- Algebra of the filters ----

  lemma SumSnoc(cs: seq<Cost>, x: Cost)
    ensures Sum(cs + [x]) == Sum(cs) + x.amount
  {
    assert (cs + [x])[..|cs|] == cs;
  }

  lemma SinceSnoc(cs: seq<Cost>, x: Cost, cutoff: real)
    ensures Since(cs + [x], cutoff) == if x.at >= cutoff then Since(cs, cutoff) + [x] else Since(cs, cutoff)
  {
    assert (cs + [x])[..|cs|] == cs;
  }

  lemma {:induction false} SinceSince(cs: seq<Cost>, lo: real, hi: real)
    requires lo <= hi
    ensures Since(Since(cs, lo), hi) == Since(cs, hi)
  {
    if cs != [] {
      var front, last := cs[..|cs| - 1], cs[|cs| - 1];
      SinceSince(front, lo, hi);
      if last.at >= lo { SinceSnoc(Since(front, lo), last, hi); }
    }
  }

  lemma {:induction false} SumSinceMonotone(cs: seq<Cost>, lo: real, hi: real)
    requires lo <= hi && forall c <- cs :: c.amount >= 0.0
    ensures Sum(Since(cs, lo)) >= Sum(Since(cs, hi)) >= 0.0
  {
    if cs != [] {
      var front, last := cs[..|cs| - 1], cs[|cs| - 1];
      assert last in cs && forall c <- front :: c in cs;
      SumSnoc(Since(front, lo), last);
      SumSnoc(Since(front, hi), last);
      hide Sum;
      SumSinceMonotone(front, lo, hi);
    }
  }

  // ---- The theorems ----

  lemma EmptySince(lo: real)
    ensures Since([], lo) == []
  {}

  /** The pruned list is the full history cut at the last pruning: nothing in the window is lost. */
  lemma {:induction false} PrunedIsHistory(ops: seq<Op>, limit: real, window: real)
    requires Timed(ops) && window >= 0.0 && ops != []
    ensures Run(ops, limit, window) == Since(History(ops), ops[|ops| - 1].t1 - window)
  {
    hide Since;
    hide Sum;
    EmptySince(ops[|ops| - 1].t1 - window);
    var front, op := ops[..|ops| - 1], ops[|ops| - 1];
    var cutoff := op.t1 - window;
    if front == [] {
      assert Run(front, limit, window) == [] && History(front) == [];
    } else {
      var prev := front[|front| - 1];
      assert prev.End() <= op.Begin() && prev.Begin() <= prev.End();
      PrunedIsHistory(front, limit, window);
      SinceSince(History(front), prev.t1 - window, cutoff);
    }
    if !op.Query? {
      assert op.Begin() <= op.End();
      SinceSnoc(History(front), Cost(op.t2, op.c), cutoff);
    }
  }

  /** Every answer of the breaker is about the true spending of the window that ends now. */
  lemma AnswersForHistory(ops: seq<Op>, t1: real, c: real, limit: real, window: real)
    requires Timed(ops) && window >= 0.0 && (ops != [] ==> ops[|ops| - 1].End() <= t1)
    ensures Exceeds(Run(ops, limit, window), t1, c, limit, window)
       <==> c > limit || Sum(Since(History(ops), t1 - window)) + c > limit
  {
    if ops != [] {
      assert ops[|ops| - 1].Begin() <= ops[|ops| - 1].End();
      PrunedIsHistory(ops, limit, window);
      SinceSince(History(ops), ops[|ops| - 1].t1 - window, t1 - window);
    }
  }

  lemma {:induction false} GrantedIsPartOfHistory(ops: seq<Op>, from: real, to: real, limit: real, window: real)
    requires NonNegative(ops)
    ensures 0.0 <= Sum(Within(Granted(ops, limit, window), from, to)) <= Sum(Since(History(ops), from))
    ensures forall c <- History(ops) :: c.amount >= 0.0
  {
    hide Run;
    hide Sum;
    hide Since;
    hide Within;
    hide Exceeds;
    if ops == [] {
      NothingCosts(from, to);
    } else {
      var front, op := ops[..|ops| - 1], ops[|ops| - 1];
      assert op in ops && forall o <- front :: o in ops;
      GrantedIsPartOfHistory(front, from, to, limit, window);
      if !op.Query? {
        var x := Cost(op.t2, op.c);
        var g, h := Granted(front, limit, window), History(front);
        SinceSnoc(h, x, from);
        SumSnoc(Since(h, from), x);
        WithinSnoc(g, x, from, to);
        SumSnoc(Within(g, from, to), x);
      }
    }
  }

  lemma NothingCosts(from: real, to: real)
    ensures Within([], from, to) == [] == Since([], from) && Sum([]) == 0.0
  {}

  lemma WithinSnoc(cs: seq<Cost>, x: Cost, from: real, to: real)
    ensures Within(cs + [x], from, to) == if from <= x.at <= to then Within(cs, from, to) + [x] else Within(cs, from, to)
  {
    assert (cs + [x])[..|cs|] == cs;
  }

  /** In every time window, however placed, the costs let through stay within the limit. */
  lemma {:induction false} GrantedStaysWithinLimit(ops: seq<Op>, from: real, limit: real, window: real)
    requires Timed(ops) && NonNegative(ops) && window >= 0.0 && limit >= 0.0
    ensures Sum(Within(Granted(ops, limit, window), from, from + window)) <= limit
  {
    if ops != [] {
      var front, op := ops[..|ops| - 1], ops[|ops| - 1];
      var g, x := Granted(front, limit, window), if op.Query? then Cost(0.0, 0.0) else Cost(op.t2, op.c);
      GrantedStaysWithinLimit(front, from, limit, window);
      WithinSnoc(g, x, from, from + window);
      if Granted(ops, limit, window) != g && from <= op.t2 <= from + window {
        LastGrantFits(ops, from, limit, window);
      }
    }
  }

  lemma LastGrantFits(ops: seq<Op>, from: real, limit: real, window: real)
    requires Timed(ops) && NonNegative(ops) && window >= 0.0 && ops != []
    requires var (front, op) := (ops[..|ops| - 1], ops[|ops| - 1]);
             op.Check? && !Exceeds(Run(front, limit, window), op.t1, op.c, limit, window) && from <= op.t2 <= from + window
    ensures Sum(Within(Granted(ops, limit, window), from, from + window)) <= limit
  {
    hide Run;
    hide History;
    hide Sum;
    hide Since;
    hide Within;
    var front, op := ops[..|ops| - 1], ops[|ops| - 1];
    var g, h, x := Granted(front, limit, window), History(front), Cost(op.t2, op.c);
    assert Granted(ops, limit, window) == g + [x];
    assert Sum(Since(h, op.t1 - window)) + op.c <= limit by {
      if front != [] { assert ops[|ops| - 2].End() <= op.Begin(); }
      AnswersForHistory(front, op.t1, op.c, limit, window);
    }
    assert NonNegative(front) && op.t1 - window <= from by {
      assert op.Begin() <= op.End() && forall o <- front :: o in ops;
    }
    hide *;
    GrantedIsPartOfHistory(front, from, from + window, limit, window);
    SumSinceMonotone(h, op.t1 - window, from);
    WithinSnoc(g, x, from, from + window);
    SumSnoc(Within(g, from, from + window), x);
  }

  lemma RunSnoc(ops: seq<Op>, op: Op, limit: real, window: real)
    ensures Run(ops + [op], limit, window) == Step(Run(ops, limit, window), op, limit, window)
    ensures Granted(ops + [op], limit, window)
         == if op.Check? && !Exceeds(Run(ops, limit, window), op.t1, op.c, limit, window)
            then Granted(ops, limit, window) + [Cost(op.t2, op.c)] else Granted(ops, limit, window)
  {
    assert (ops + [op])[..|ops|] == ops;
  }

  // ---- Which costs keep the bound ----

  ghost predicate AmountsIn(ops: seq<Op>, amounts: iset<real>) { forall op <- ops | !op.Query? :: op.c in amounts }

  /** What was let through in the window that begins at `from`. */
  function LetThrough(ops: seq<Op>, from: real, limit: real, window: real): real {
    Sum(Within(Granted(ops, limit, window), from, from + window))
  }

  /** Whatever costs from the given amounts are booked and checked, and in whatever order, the bound holds. */
  ghost predicate BoundHolds(amounts: iset<real>, limit: real, window: real) {
    forall ops, from :: Timed(ops) && AmountsIn(ops, amounts) ==> LetThrough(ops, from, limit, window) <= limit
  }

  function Multiple(n: nat, x: real): real { n as real * x }

  lemma OneMore(n: nat, x: real)
    ensures n > 0 ==> Multiple(n, x) == Multiple(n - 1, x) + x
    ensures Multiple(0, x) == 0.0
  {
    assert n > 0 ==> n as real == (n - 1) as real + 1.0;
  }

  /** `n` entries of one amount at one time. */
  function Copies(at: real, amount: real, n: nat): seq<Cost> {
    if n == 0 then [] else Copies(at, amount, n - 1) + [Cost(at, amount)]
  }

  /** Credits booked, then checks of one cost, all at the same reading of the clock. */
  function Credits(d: real, n: nat): seq<Op> { if n == 0 then [] else Credits(d, n - 1) + [Add(0.0, 0.0, d)] }

  function Checks(before: seq<Op>, x: real, n: nat): seq<Op> {
    if n == 0 then before else Checks(before, x, n - 1) + [Check(0.0, 0.0, x)]
  }

  lemma {:induction false} CopiesSum(at: real, amount: real, n: nat, from: real, to: real)
    ensures Sum(Copies(at, amount, n)) == Multiple(n, amount)
    ensures from <= at ==> Since(Copies(at, amount, n), from) == Copies(at, amount, n)
    ensures from <= at <= to ==> Within(Copies(at, amount, n), from, to) == Copies(at, amount, n)
  {
    hide Sum;
    hide Since;
    hide Within;
    hide Multiple;
    OneMore(n, amount);
    if n == 0 {
      NothingCosts(from, to);
    } else {
      CopiesSum(at, amount, n - 1, from, to);
      SumSnoc(Copies(at, amount, n - 1), Cost(at, amount));
      SinceSnoc(Copies(at, amount, n - 1), Cost(at, amount), from);
      WithinSnoc(Copies(at, amount, n - 1), Cost(at, amount), from, to);
    }
  }

  lemma {:induction false} AfterCredits(d: real, n: nat, limit: real, window: real)
    requires window >= 0.0
    ensures Run(Credits(d, n), limit, window) == Copies(0.0, d, n) && Granted(Credits(d, n), limit, window) == []
  {
    hide Sum;
    hide Since;
    if n > 0 {
      AfterCredits(d, n - 1, limit, window);
      RunSnoc(Credits(d, n - 1), Add(0.0, 0.0, d), limit, window);
      CopiesSum(0.0, d, n - 1, -window, 0.0);
    }
  }

  lemma {:induction false} SinceAll(a: seq<Cost>, b: seq<Cost>, from: real)
    requires Since(a, from) == a && Since(b, from) == b
    ensures Since(a + b, from) == a + b && Sum(a + b) == Sum(a) + Sum(b)
  {
    if b == [] {
      assert a + b == a && Sum(b) == 0.0;
    } else {
      var front, x := b[..|b| - 1], b[|b| - 1];
      assert b == front + [x] && a + b == (a + front) + [x];
      SinceSnoc(front, x, from);
      SinceLength(front, from);
      SinceAll(a, front, from);
      SinceSnoc(a + front, x, from);
      SumSnoc(a + front, x);
      SumSnoc(front, x);
    }
    hide Sum;
    hide Since;
  }

  lemma {:induction false} SinceLength(cs: seq<Cost>, from: real)
    ensures |Since(cs, from)| <= |cs|
  {
    if cs != [] { SinceLength(cs[..|cs| - 1], from); }
  }

  lemma CheckPasses(costs: seq<Cost>, x: real, limit: real, window: real)
    requires Since(costs, -window) == costs && x <= limit && Sum(costs) + x <= limit
    ensures !Exceeds(costs, 0.0, x, limit, window) && Step(costs, Check(0.0, 0.0, x), limit, window) == costs + [Cost(0.0, x)]
  {
    hide Sum;
    hide Since;
    assert 0.0 - window == -window;
  }

  /** Credit and spending, all at one time. */
  function Ledger(d: real, m: nat, x: real, n: nat): seq<Cost> { Copies(0.0, d, m) + Copies(0.0, x, n) }

  lemma LedgerSum(d: real, m: nat, x: real, n: nat, window: real)
    requires window >= 0.0
    ensures Sum(Ledger(d, m, x, n)) == Multiple(m, d) + Multiple(n, x)
    ensures Since(Ledger(d, m, x, n), -window) == Ledger(d, m, x, n)
  {
    hide Sum;
    hide Since;
    hide Multiple;
    hide Copies;
    CopiesSum(0.0, d, m, -window, 0.0);
    CopiesSum(0.0, x, n, -window, 0.0);
    SinceAll(Copies(0.0, d, m), Copies(0.0, x, n), -window);
  }

  lemma LedgerNext(d: real, m: nat, x: real, n: nat)
    ensures Ledger(d, m, x, n) + [Cost(0.0, x)] == Ledger(d, m, x, n + 1)
  {
    assert Copies(0.0, x, n + 1) == Copies(0.0, x, n) + [Cost(0.0, x)];
  }

  /** As long as the credit covers them, all checks are let through. */
  lemma {:induction false} AfterChecks(d: real, m: nat, x: real, n: nat, limit: real, window: real)
    requires window >= 0.0 && d < 0.0 < x <= limit && Multiple(n, x) + Multiple(m, d) <= limit
    ensures var ops := Checks(Credits(d, m), x, n);
            Run(ops, limit, window) == Ledger(d, m, x, n) && Granted(ops, limit, window) == Copies(0.0, x, n)
  {
    hide Sum;
    hide Since;
    hide Run;
    hide Granted;
    hide Multiple;
    hide Exceeds;
    hide Step;
    if n == 0 {
      AfterCredits(d, m, limit, window);
      assert Copies(0.0, d, m) + [] == Copies(0.0, d, m);
    } else {
      OneMore(n, x);
      hide Ledger;
      AfterChecks(d, m, x, n - 1, limit, window);
      LedgerSum(d, m, x, n - 1, window);
      LedgerNext(d, m, x, n - 1);
      CheckPasses(Ledger(d, m, x, n - 1), x, limit, window);
      RunSnoc(Checks(Credits(d, m), x, n - 1), Check(0.0, 0.0, x), limit, window);
    }
  }

  lemma {:induction false} ScriptIsTimed(d: real, m: nat, x: real, n: nat, amounts: iset<real>)
    requires d in amounts && x in amounts
    ensures Timed(Checks(Credits(d, m), x, n)) && AmountsIn(Checks(Credits(d, m), x, n), amounts)
    ensures forall op <- Checks(Credits(d, m), x, n) :: op.Begin() == 0.0 && op.End() == 0.0
    decreases n, m
  {
    if n > 0 { ScriptIsTimed(d, m, x, n - 1, amounts); }
    else if m > 0 { ScriptIsTimed(d, m - 1, x, 0, amounts); }
    var ops := Checks(Credits(d, m), x, n);
    assert forall op <- ops :: op.Begin() == 0.0 && op.End() == 0.0;
    assert forall i | 0 <= i < |ops| :: ops[i] in ops;
  }

  /** Enough copies of a positive amount exceed any bound. */
  lemma Archimedes(x: real, bound: real) returns (n: nat)
    requires x > 0.0
    ensures Multiple(n, x) > bound
  {
    if bound < 0.0 {
      n := 1;
    } else {
      var q := bound / x;
      n := q.Floor + 1;
      assert n as real > q && q * x == bound;
      assert (n as real - q) * x > 0.0;
    }
  }

  lemma Opposite(n: nat, x: real)
    ensures Multiple(n, -x) == -Multiple(n, x)
  {}

  /** With a credit d < 0 and any cost that can be let through at all, some run breaks the bound. */
  lemma NegativeCostBreaksBound(d: real, x: real, limit: real, window: real) returns (ops: seq<Op>)
    requires d < 0.0 < x <= limit && window >= 0.0
    ensures Timed(ops) && AmountsIn(ops, iset{d, x})
    ensures LetThrough(ops, 0.0, limit, window) > limit
  {
    assert 0.0 + window == window;
    hide Multiple;
    hide Sum;
    hide Within;
    hide Granted;
    hide Timed;
    hide AmountsIn;
    var n := Archimedes(x, limit);
    var m := Archimedes(-d, Multiple(n, x) - limit);
    Opposite(m, d);
    ops := Checks(Credits(d, m), x, n);
    AfterChecks(d, m, x, n, limit, window);
    CopiesSum(0.0, x, n, 0.0, window);
    ScriptIsTimed(d, m, x, n, iset{d, x});
  }

  /** Without a cost above zero and up to the limit, nothing above zero is ever let through. */
  lemma {:induction false} NothingToGrant(ops: seq<Op>, limit: real, window: real, from: real, to: real)
    requires limit >= 0.0 && forall op <- ops | !op.Query? :: !(0.0 < op.c <= limit)
    ensures Sum(Within(Granted(ops, limit, window), from, to)) <= 0.0
  {
    hide Run;
    hide Sum;
    hide Since;
    hide Within;
    if ops == [] {
      NothingCosts(from, to);
    } else {
      var front, op := ops[..|ops| - 1], ops[|ops| - 1];
      assert op in ops && forall o <- front :: o in ops;
      NothingToGrant(front, limit, window, from, to);
      if !op.Query? {
        var g, x := Granted(front, limit, window), Cost(op.t2, op.c);
        WithinSnoc(g, x, from, to);
        SumSnoc(Within(g, from, to), x);
      }
    }
  }

  lemma NothingLetThrough(amounts: iset<real>, limit: real, window: real)
    ensures Timed([]) && AmountsIn([], amounts) && LetThrough([], 0.0, limit, window) == 0.0
  {
    NothingCosts(0.0, 0.0 + window);
  }

  /** The bound holds for every run over some amounts exactly if it is not negative itself, and no amount is negative,
      or none lies above zero and up to the limit. */
  lemma BoundHoldsIff(amounts: iset<real>, limit: real, window: real)
    requires window >= 0.0
    ensures BoundHolds(amounts, limit, window)
            <==> limit >= 0.0 && ((forall d <- amounts :: d >= 0.0) || (forall x <- amounts :: !(0.0 < x <= limit)))
  {
    hide Sum;
    hide Within;
    hide Granted;
    hide Timed;
    if limit < 0.0 {
      NothingLetThrough(amounts, limit, window);
    } else if forall d <- amounts :: d >= 0.0 {
      forall ops, from | Timed(ops) && AmountsIn(ops, amounts) ensures LetThrough(ops, from, limit, window) <= limit {
        GrantedStaysWithinLimit(ops, from, limit, window);
      }
    } else if forall x <- amounts :: !(0.0 < x <= limit) {
      forall ops, from | Timed(ops) && AmountsIn(ops, amounts) ensures LetThrough(ops, from, limit, window) <= limit {
        NothingToGrant(ops, limit, window, from, from + window);
      }
    } else {
      var d :| d in amounts && d < 0.0;
      var x :| x in amounts && 0.0 < x <= limit;
      var ops := NegativeCostBreaksBound(d, x, limit, window);
      assert AmountsIn(ops, amounts);
    }
  }
}
