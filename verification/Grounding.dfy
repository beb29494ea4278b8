/** The evidence ledger: which symbols and prices the agent may speak of.

    Prices are already read from their raw form: absent, unusable, or a finite number.
 */
module Grounding {
  import opened Wrappers
  import opened Text

  datatype Raw = Absent | Unusable | Price(value: real)

  datatype Bar = NotADict | Bar(close: Raw, low: Raw, high: Raw)

  datatype Provenance = Missing | Malformed | Provenance(source: Option<string>, unit: Option<string>)

  datatype Evidence = Evidence(closes: set<real>, low: Option<real>, high: Option<real>)

  datatype Ledger = Ledger(evidence: map<string, Evidence>, frozen: Option<set<string>>)

  const EMPTY: Ledger := Ledger(map[], None)

  predicate GoodProvenance(p: Provenance) {
    p.Provenance? && p.source.Some? && !Blank(p.source.value) && p.unit in {Some("board_lots"), Some("shares")}
  }

  /** A missing low or high is the close. */
  function Low(b: Bar): Raw
    requires b.Bar?
  {
    if b.low.Absent? then b.close else b.low
  }

  function High(b: Bar): Raw
    requires b.Bar?
  {
    if b.high.Absent? then b.close else b.high
  }

  predicate GoodBar(b: Bar) { b.Bar? && !b.close.Unusable? && !b.low.Unusable? && !b.high.Unusable? }

  predicate GoodBars(bars: seq<Bar>) { forall b <- bars :: GoodBar(b) }

  function Closes(bars: seq<Bar>): set<real>
    requires GoodBars(bars)
  {
    set b <- bars | b.close.Price? :: b.close.value
  }

  function Lesser(a: Option<real>, r: Raw): Option<real>
    requires !r.Unusable?
  {
    if r.Absent? then a else if a.None? || r.value < a.value then Some(r.value) else a
  }

  function Greater(a: Option<real>, r: Raw): Option<real>
    requires !r.Unusable?
  {
    if r.Absent? then a else if a.None? || r.value > a.value then Some(r.value) else a
  }

  function LeastLow(bars: seq<Bar>): Option<real>
    requires GoodBars(bars)
  {
    if bars == [] then None
    else
      assert bars[|bars| - 1] in bars;
      Lesser(LeastLow(bars[..|bars| - 1]), Low(bars[|bars| - 1]))
  }

  function GreatestHigh(bars: seq<Bar>): Option<real>
    requires GoodBars(bars)
  {
    if bars == [] then None
    else
      assert bars[|bars| - 1] in bars;
      Greater(GreatestHigh(bars[..|bars| - 1]), High(bars[|bars| - 1]))
  }

  function Summary(bars: seq<Bar>): Evidence
    requires GoodBars(bars)
  {
    Evidence(Closes(bars), LeastLow(bars), GreatestHigh(bars))
  }

  datatype Ingest = Ingest(symbol: string, bars: seq<Bar>, provenance: Provenance)

  predicate Admitted(i: Ingest) { GoodProvenance(i.provenance) && GoodBars(i.bars) }

  function AfterIngest(l: Ledger, i: Ingest): Ledger {
    if !Admitted(i) then l
    else Ledger(l.evidence[i.symbol := Summary(i.bars)], if l.frozen.None? then Some({i.symbol}) else l.frozen)
  }

  // ---- Assertions ----

  datatype Authorization = Default | Snapshot(symbols: set<string>) | OtherType

  datatype Verdict = Accepted | Rejected | TypeError

  const TOLERANCE: real := 0.000000001

  predicate Near(closes: set<real>, p: real) { exists c <- closes :: -TOLERANCE < c - p < TOLERANCE }

  predicate InEvidence(e: Evidence, price: Raw) {
    && e.low.Some? && e.high.Some? && price.Price?
    && (Near(e.closes, price.value) || e.low.value <= price.value <= e.high.value)
  }

  /** What the code computes, its exception for ledgers with a single symbol included. */
  function Check(l: Ledger, symbol: string, price: Raw, auth: Authorization): Verdict {
    if auth.OtherType? then TypeError
    else if auth.Snapshot? && symbol !in auth.symbols then Rejected
    else if auth.Default? && l.frozen.Some? && symbol !in l.frozen.value && (symbol !in l.evidence || |l.evidence| > 1) then Rejected
    else if symbol !in l.evidence then Rejected
    else if InEvidence(l.evidence[symbol], price) then Accepted
    else Rejected
  }

  lemma NoMember(s: set<real>)
    requires forall c :: c !in s
    ensures |s| == 0
  {
    assert forall c :: c in s <==> c in {};
    assert s == {};
  }

  lemma SomeMember(s: set<real>)
    requires |s| > 0
    ensures exists c :: c in s
  {
    if forall c :: c !in s { NoMember(s); }
  }

  method AnyNear(closes: set<real>, p: real) returns (near: bool)
    ensures near <==> Near(closes, p)
  {
    var rest := closes;
    while |rest| > 0
      invariant rest <= closes
      invariant forall c <- closes :: c in rest || !(-TOLERANCE < c - p < TOLERANCE)
      decreases rest
    {
      SomeMember(rest);
      var c :| c in rest;
      if -TOLERANCE < c - p < TOLERANCE { return true; }
      rest := rest - {c};
    }
    near := false;
  }

  class GroundingLedger {
    var evidence: map<string, Evidence>
    var frozen: Option<set<string>>

    ghost function View(): Ledger
      reads this
    {
      Ledger(evidence, frozen)
    }

    constructor ()
      ensures View() == EMPTY
    {
      evidence, frozen := map[], None;
    }

    /** An ingest that raises an exception changes nothing. */
    method IngestBars(symbol: string, bars: seq<Bar>, provenance: Provenance) returns (ok: bool)
      modifies this
      ensures ok <==> Admitted(Ingest(symbol, bars, provenance))
      ensures ok <==> && provenance.Provenance? && provenance.source != None && (exists c <- provenance.source.value :: !IsSpace(c))
                      && provenance.unit in [Some("board_lots"), Some("shares")]
                      && forall b <- bars :: b.Bar? && Unusable !in [b.close, b.low, b.high]
      ensures View() == AfterIngest(old(View()), Ingest(symbol, bars, provenance))
    {
      if !GoodProvenance(provenance) { return false; }
      var closes: set<real> := {};
      var low: Option<real>, high: Option<real> := None, None;
      for k := 0 to |bars|
        invariant GoodBars(bars[..k]) && Summary(bars[..k]) == Evidence(closes, low, high)
        invariant View() == old(View())
      {
        assert bars[..k + 1][..k] == bars[..k] && forall b <- bars[..k + 1] :: b in bars[..k] || b == bars[k];
        var bar := bars[k];
        if bar.NotADict? || bar.close.Unusable? || Low(bar).Unusable? || High(bar).Unusable? {
          assert bar in bars && !GoodBar(bar);
          return false;
        }
        if bar.close.Price? { closes := closes + {bar.close.value}; }
        low := Lesser(low, Low(bar));
        high := Greater(high, High(bar));
        assert Closes(bars[..k + 1]) == closes;
      }
      assert bars[..|bars|] == bars;
      evidence := evidence[symbol := Evidence(closes, low, high)];
      if frozen.None? { frozen := Some({symbol}); }
      ok := true;
    }

    method AssertPrice(symbol: string, price: Raw, auth: Authorization) returns (v: Verdict)
      ensures v == Check(View(), symbol, price, auth)
    {
      match auth {
        case OtherType => return TypeError;
        case Snapshot(symbols) => if symbol !in symbols { return Rejected; }
        case Default =>
          if frozen.Some? && symbol !in frozen.value {
            if symbol !in evidence { return Rejected; }
            if |evidence| > 1 { return Rejected; }
          }
      }
      if symbol !in evidence { return Rejected; }
      var e := evidence[symbol];
      if e.low.None? || e.high.None? { return Rejected; }
      if !price.Price? { return Rejected; }
      var near := AnyNear(e.closes, price.value);
      if near { return Accepted; }
      v := if e.low.value <= price.value <= e.high.value then Accepted else Rejected;
    }
  }

  // ---- Runs ----

  function Run(history: seq<Ingest>): Ledger {
    if history == [] then EMPTY else AfterIngest(Run(history[..|history| - 1]), history[|history| - 1])
  }

  /** The first ingest that was admitted. */
  function First(history: seq<Ingest>): Option<string> {
    if history == [] then None
    else
      var before, last := First(history[..|history| - 1]), history[|history| - 1];
      if before.None? && Admitted(last) then Some(last.symbol) else before
  }

  /** The bars of the last admitted ingest of a symbol. */
  function Latest(history: seq<Ingest>, symbol: string): Option<seq<Bar>> {
    if history == [] then None
    else
      var last := history[|history| - 1];
      if last.symbol == symbol && Admitted(last) then Some(last.bars) else Latest(history[..|history| - 1], symbol)
  }

  /** Over every history: the frozen set is fixed by the first admitted ingest, its symbol stays in evidence, and
      the evidence of a symbol is exactly that of its latest admitted ingest. */
  lemma {:induction false} LedgerIsHistory(history: seq<Ingest>, symbol: string)
    ensures var l := Run(history);
            && l.frozen == (if First(history).Some? then Some({First(history).value}) else None)
            && (First(history).Some? ==> First(history).value in l.evidence)
            && (First(history).None? ==> l.evidence == map[])
            && (symbol in l.evidence <==> Latest(history, symbol).Some?)
            && (symbol in l.evidence ==>
                  GoodBars(Latest(history, symbol).value) && l.evidence[symbol] == Summary(Latest(history, symbol).value))
  {
    if history != [] {
      LedgerIsHistory(history[..|history| - 1], symbol);
    }
    hide Admitted, Summary, GoodBars;
  }

  lemma TwoKeys(m: map<string, Evidence>, a: string, b: string)
    requires a in m && b in m && a != b
    ensures |m| > 1
  {
    assert {a, b} <= m.Keys;
    SubsetSize({a, b}, m.Keys);
  }

  lemma {:induction false} SubsetSize(a: set<string>, b: set<string>)
    requires a <= b
    ensures |a| <= |b|
  {
    if a != {} {
      var x :| x in a;
      SubsetSize(a - {x}, b - {x});
    }
  }

  /** Without authorization only the first symbol is ever accepted: the exception for ledgers that know a single
      symbol never applies to another one. */
  lemma OnlyFirstWithoutAuthorization(history: seq<Ingest>, symbol: string, price: Raw)
    requires Check(Run(history), symbol, price, Default) == Accepted
    ensures First(history) == Some(symbol)
  {
    LedgerIsHistory(history, symbol);
    if First(history).Some? && First(history).value != symbol && symbol in Run(history).evidence {
      TwoKeys(Run(history).evidence, First(history).value, symbol);
    }
  }

  lemma {:induction false} Extremes(bars: seq<Bar>)
    requires GoodBars(bars)
    ensures LeastLow(bars).Some? <==> exists b <- bars :: Low(b).Price?
    ensures LeastLow(bars).Some? ==>
              && (exists b <- bars :: Low(b) == Price(LeastLow(bars).value))
              && forall b <- bars | Low(b).Price? :: LeastLow(bars).value <= Low(b).value
    ensures GreatestHigh(bars).Some? <==> exists b <- bars :: High(b).Price?
    ensures GreatestHigh(bars).Some? ==>
              && (exists b <- bars :: High(b) == Price(GreatestHigh(bars).value))
              && forall b <- bars | High(b).Price? :: GreatestHigh(bars).value >= High(b).value
  {
    if bars != [] {
      var front, last := bars[..|bars| - 1], bars[|bars| - 1];
      Extremes(front);
      assert forall b <- bars :: b in front || b == last;
      assert last in bars && forall b <- front :: b in bars;
    }
  }

  /** A price of a bar, which is that of its close where it is missing. */
  predicate Tells(own: Raw, close: Raw, v: real) { own == Price(v) || (own == Absent && close == Price(v)) }

  /** The bars themselves support a price: one closes within the tolerance of it, or it lies between the low of
      one and the high of another. */
  ghost predicate Supported(bars: seq<Bar>, p: real) {
    && (exists b, v :: b in bars && b.Bar? && Tells(b.low, b.close, v))
    && (exists b, v :: b in bars && b.Bar? && Tells(b.high, b.close, v))
    && ((exists b :: b in bars && b.Bar? && b.close.Price? && -0.000000001 < b.close.value - p < 0.000000001)
        || ((exists b, v :: b in bars && b.Bar? && Tells(b.low, b.close, v) && v <= p)
            && (exists b, v :: b in bars && b.Bar? && Tells(b.high, b.close, v) && p <= v)))
  }

  lemma Prices(b: Bar)
    requires GoodBar(b)
    ensures forall v :: Tells(b.low, b.close, v) <==> Low(b) == Price(v)
    ensures forall v :: Tells(b.high, b.close, v) <==> High(b) == Price(v)
  {}

  lemma LowsTell(bars: seq<Bar>, p: real)
    requires GoodBars(bars)
    ensures (exists b, v :: b in bars && b.Bar? && Tells(b.low, b.close, v)) <==> LeastLow(bars).Some?
    ensures (exists b, v :: b in bars && b.Bar? && Tells(b.low, b.close, v) && v <= p)
            <==> LeastLow(bars).Some? && LeastLow(bars).value <= p
  {
    Extremes(bars);
    forall b | b in bars ensures forall v :: Tells(b.low, b.close, v) <==> Low(b) == Price(v) { Prices(b); }
    hide Low, High, Tells, LeastLow, GreatestHigh;
    if LeastLow(bars).Some? {
      var b :| b in bars && Low(b) == Price(LeastLow(bars).value);
      assert Tells(b.low, b.close, LeastLow(bars).value);
    }
  }

  lemma HighsTell(bars: seq<Bar>, p: real)
    requires GoodBars(bars)
    ensures (exists b, v :: b in bars && b.Bar? && Tells(b.high, b.close, v)) <==> GreatestHigh(bars).Some?
    ensures (exists b, v :: b in bars && b.Bar? && Tells(b.high, b.close, v) && p <= v)
            <==> GreatestHigh(bars).Some? && p <= GreatestHigh(bars).value
  {
    Extremes(bars);
    forall b | b in bars ensures forall v :: Tells(b.high, b.close, v) <==> High(b) == Price(v) { Prices(b); }
    hide Low, High, Tells, LeastLow, GreatestHigh;
    if GreatestHigh(bars).Some? {
      var b :| b in bars && High(b) == Price(GreatestHigh(bars).value);
      assert Tells(b.high, b.close, GreatestHigh(bars).value);
    }
  }

  lemma ClosesTell(bars: seq<Bar>, p: real)
    requires GoodBars(bars)
    ensures Near(Closes(bars), p)
            <==> exists b :: b in bars && b.Bar? && b.close.Price? && -0.000000001 < b.close.value - p < 0.000000001
  {
    if b :| b in bars && b.Bar? && b.close.Price? && -0.000000001 < b.close.value - p < 0.000000001 {
      assert b.close.value in Closes(bars);
    }
  }

  lemma SummarySupports(bars: seq<Bar>, p: real)
    requires GoodBars(bars)
    ensures InEvidence(Summary(bars), Price(p)) <==> Supported(bars, p)
  {
    LowsTell(bars, p);
    HighsTell(bars, p);
    ClosesTell(bars, p);
    hide Low, High, Tells, LeastLow, GreatestHigh, Closes, Near;
  }

  /** Over every history, an assertion is accepted exactly if its symbol is authorized, which by default only the
      first admitted one is, and its price is a number that the symbol's latest admitted bars support. */
  lemma AcceptedIff(history: seq<Ingest>, symbol: string, price: Raw, auth: Authorization)
    ensures Check(Run(history), symbol, price, auth) == Accepted <==>
              && !auth.OtherType?
              && (if auth.Snapshot? then symbol in auth.symbols else First(history) == Some(symbol))
              && Latest(history, symbol).Some? && price.Price?
              && GoodBars(Latest(history, symbol).value) && Supported(Latest(history, symbol).value, price.value)
  {
    LedgerIsHistory(history, symbol);
    if auth.Default? && Check(Run(history), symbol, price, auth) == Accepted {
      OnlyFirstWithoutAuthorization(history, symbol, price);
    }
    if price.Price? && Latest(history, symbol).Some? && GoodBars(Latest(history, symbol).value) {
      SummarySupports(Latest(history, symbol).value, price.value);
    }
    hide Supported, Summary, GoodBars, Run;
  }
}
