/** The main loop of the agent: stream acquisition with retries, accumulation with rollback, tools, the
    grounding gate, folding, the budget, checkpoints and every way to end.

    The model streams, the tools, the evidence ledger, the clock and the budget are an arbitrary environment,
    given per iteration.  All counters and texts are the loop's own.
 */
module AgentLoop {
  import opened Wrappers
  import opened Text

  datatype Config = Config(
    maxIterations: int,
    maxAttempts: int,
    tokenLimit: Option<int>,
    ledger: bool,      // a grounding ledger is configured
    context: bool,     // a context manager is configured
    breaker: bool)     // a budget breaker is configured

  // ---- The environment ----

  /** A token count as a chunk reports it. */
  datatype Field = Missing | Number(n: int) | Bad
  datatype Usage = NoUsage | Usage(input: Field, output: Field)

  /** A chunk adds text, may report usage, and may ask for tools. */
  datatype Chunk = Chunk(text: string, usage: Usage, asks: bool)

  datatype Fault = Fault(timeout: bool, retryable: bool, message: string)
  datatype Stream = Stream(chunks: seq<Chunk>, fault: Option<Fault>)
  datatype Attempt = Got(stream: Stream) | Raised(fault: Fault)

  /** What one executed tool adds to the buffer. */
  datatype Tool = Tool(echo: string, ok: bool)

  /** The ledger at the gate: its symbols, how price claims are extracted, and which prices it accepts;
      `broken` when an exception ends the whole check. */
  datatype Ledger = Ledger(broken: bool, symbols: seq<string>, claims: string -> seq<string>, accepts: (string, string) -> bool)

  datatype Round = Round(
    overtime: bool,               // the wall-time budget is used up at the head
    contextTokens: nat,
    stop: bool,
    attempt: int -> Attempt,
    tools: seq<Tool>,
    ledger: Ledger,
    contextAfter: nat,
    folded: Option<string>,       // the banner, if the context had to be folded
    overBudget: bool)             // the breaker says stop, or fails

  // ---- The state of a run ----

  datatype Tokens = Tokens(input: int, output: int) {
    function Plus(t: Tokens): Tokens { Tokens(input + t.input, output + t.output) }
    function Minus(t: Tokens): Tokens { Tokens(input - t.input, output - t.output) }
  }

  const ZERO: Tokens := Tokens(0, 0)

  datatype Reason =
    | Completed | WallTime | MaxIterations | TokenLimit | UserStop | LlmTimeout | LlmError | BudgetFallback | GroundingFailed

  datatype Save = Save(iterations: nat, reason: Reason, terminated: bool)

  /** `billed` is what record_usage has been given, `rolled` what a retry has taken back locally, `leaked` what
      was counted locally without being billed; `judged` is the text the gate has looked at last. */
  datatype State = State(
    buffer: string,
    echoes: seq<string>,
    iterations: nat,
    calls: nat,
    used: Tokens,
    billed: Tokens,
    rolled: Tokens,
    leaked: Tokens,
    verified: bool,
    judged: string,
    truncated: bool,
    reason: Reason,
    terminated: bool,
    saves: seq<Save>)
  {
    function End(r: Reason): State { this.(reason := r, terminated := true) }

    function Books(): Counters { Counters(iterations, calls, used, billed, rolled, leaked) }
  }

  /** The counters of a run. */
  datatype Counters = Counters(iterations: nat, calls: nat, used: Tokens, billed: Tokens, rolled: Tokens, leaked: Tokens)

  function Init(truncated: bool): State {
    State([], [], 0, 0, ZERO, ZERO, ZERO, ZERO, false, [], truncated, Completed, false, [])
  }

  // ---- Texts ----

  const BANNER := "\n[TRUNCATED: token_limit exceeded]"

  function Estimate(text: string): nat { |text| / 4 }

  function ErrorText(f: Fault): string { "\n[ERROR: " + f.message + "]" }

  function Max(a: nat, b: nat): nat { if a < b then b else a }

  /** Whether the buffer has reached the token limit. */
  predicate Full(c: Config, buffer: string, other: nat) {
    c.tokenLimit.Some? && Max(Estimate(buffer), other) >= c.tokenLimit.value
  }

  /** Cut and mark the buffer, once. */
  function Cut(c: Config, buffer: string, truncated: bool): string {
    if truncated || c.tokenLimit.None? then buffer else Take(buffer, c.tokenLimit.value * 4) + BANNER
  }

  /** str.replace by one blank. */
  function Replace(s: string, pattern: string): string
    requires pattern != []
  {
    if |s| < |pattern| then s
    else if s[..|pattern|] == pattern then " " + Replace(s[|pattern|..], pattern)
    else [s[0]] + Replace(s[1..], pattern)
  }

  /** The model's own text: the buffer with every tool echo blanked out. */
  function Peel(buffer: string, echoes: seq<string>): string {
    if echoes == [] then buffer
    else
      var s := Peel(buffer, echoes[..|echoes| - 1]);
      if echoes[|echoes| - 1] == [] then s else Replace(s, echoes[|echoes| - 1])
  }

  // ---- 4) Acquiring a stream ----

  datatype Acquired = Acquired(stream: Option<Stream>, fault: Option<Fault>, calls: nat)

  /** Attempts from number k on; RetryPolicy.should_retry ends them at the last one. */
  function Acquire(max: int, attempt: int -> Attempt, k: int): (a: Acquired)
    ensures a.calls <= if k <= max then max - k + 1 else 0
    decreases max - k
  {
    if k > max then Acquired(None, None, 0)
    else
      match attempt(k)
      case Got(stream) => Acquired(Some(stream), None, 1)
      case Raised(f) =>
        if k < max && f.retryable then
          var rest := Acquire(max, attempt, k + 1);
          rest.(calls := rest.calls + 1)
        else Acquired(None, Some(f), 1)
  }

  method AcquireStream(max: int, attempt: int -> Attempt) returns (a: Acquired)
    ensures a == Acquire(max, attempt, 1)
  {
    var stream: Option<Stream>, fault: Option<Fault>, calls: nat := None, None, 0;
    var k := 1;
    while k <= max
      invariant k >= 1 && stream == None
      invariant var rest := Acquire(max, attempt, k); Acquire(max, attempt, 1) == rest.(calls := calls + rest.calls)
      invariant k > max ==> fault == None
    {
      calls := calls + 1;
      match attempt(k) {
        case Got(s) => return Acquired(Some(s), None, calls);
        case Raised(f) =>
          if !(k < max && f.retryable) { return Acquired(None, Some(f), calls); }
      }
      k := k + 1;
    }
    a := Acquired(None, None, calls);
  }

  // ---- 5) Accumulating the stream ----

  datatype Sip = Sip(buffer: string, used: Tokens, billed: Tokens, leaked: Tokens, asked: bool, truncated: bool, stopped: bool)

  function Count(f: Field): int { if f.Number? then f.n else 0 }

  function Reported(u: Usage): Tokens { if u.Usage? then Tokens(Count(u.input), Count(u.output)) else ZERO }

  /** Both halves of a usage report can be read. */
  predicate WellFormed(u: Usage) { u.Usage? ==> !u.input.Bad? && !u.output.Bad? }

  function TakeChunk(c: Config, chunk: Chunk, s: Sip): Sip {
    var buffer := s.buffer + chunk.text;
    var full := Full(c, buffer, 0);
    var t := Reported(chunk.usage);
    Sip(if full then Cut(c, buffer, s.truncated) else buffer,
        s.used.Plus(t),
        if c.breaker && WellFormed(chunk.usage) then s.billed.Plus(t) else s.billed,
        if c.breaker && WellFormed(chunk.usage) then s.leaked else s.leaked.Plus(t),
        s.asked || chunk.asks,
        s.truncated || full,
        full)
  }

  function Drink(c: Config, chunks: seq<Chunk>, s: Sip): Sip {
    if chunks == [] || s.stopped then s else Drink(c, chunks[1..], TakeChunk(c, chunks[0], s))
  }

  function StartSip(s: State): Sip { Sip(s.buffer, s.used, s.billed, s.leaked, false, s.truncated, false) }

  lemma DrinkNext(c: Config, chunks: seq<Chunk>, i: nat, s: Sip)
    requires i < |chunks| && !s.stopped
    ensures Drink(c, chunks[i..], s) == Drink(c, chunks[i + 1..], TakeChunk(c, chunks[i], s))
  {
    assert chunks[i..][1..] == chunks[i + 1..];
  }

  lemma DrinkDone(c: Config, chunks: seq<Chunk>, s: Sip)
    requires s.stopped || chunks == []
    ensures Drink(c, chunks, s) == s
  {}

  method Accumulate(c: Config, chunks: seq<Chunk>, s: State) returns (sip: Sip)
    ensures sip == Drink(c, chunks, StartSip(s))
  {
    hide Drink;
    sip := StartSip(s);
    assert chunks[0..] == chunks;
    for i := 0 to |chunks|
      invariant !sip.stopped
      invariant Drink(c, chunks, StartSip(s)) == Drink(c, chunks[i..], sip)
    {
      DrinkNext(c, chunks, i, sip);
      sip := OneChunk(c, chunks[i], sip);
      if sip.stopped {
        DrinkDone(c, chunks[i + 1..], sip);
        return;
      }
    }
    DrinkDone(c, chunks[|chunks|..], sip);
  }

  /** Text, usage and tool calls of one chunk, and the token limit in mid-stream. */
  method OneChunk(c: Config, chunk: Chunk, s: Sip) returns (sip: Sip)
    requires !s.stopped
    ensures sip == TakeChunk(c, chunk, s)
  {
    hide Take;
    sip := s.(buffer := s.buffer + chunk.text, asked := s.asked || chunk.asks);
    if chunk.usage.Usage? {
      var t := Tokens(Count(chunk.usage.input), Count(chunk.usage.output));
      sip := sip.(used := sip.used.Plus(t));
      if c.breaker && !chunk.usage.input.Bad? && !chunk.usage.output.Bad? { sip := sip.(billed := sip.billed.Plus(t)); }
      else { sip := sip.(leaked := sip.leaked.Plus(t)); }
    }
    if c.tokenLimit.Some? && Estimate(sip.buffer) >= c.tokenLimit.value {
      if !sip.truncated { sip := sip.(buffer := Take(sip.buffer, c.tokenLimit.value * 4) + BANNER); }
      sip := sip.(truncated := true, stopped := true);
    }
  }

  // ---- 6) Tools ----

  function Echoes(tools: seq<Tool>): seq<string> { seq(|tools|, i requires 0 <= i < |tools| => tools[i].echo) }

  function Joined(parts: seq<string>): string {
    if parts == [] then [] else Joined(parts[..|parts| - 1]) + parts[|parts| - 1]
  }

  predicate AnyOk(tools: seq<Tool>) { exists t <- tools :: t.ok }

  method RunTools(tools: seq<Tool>, buffer0: string, echoes0: seq<string>) returns (buffer: string, echoes: seq<string>, ok: bool)
    ensures buffer == buffer0 + Joined(Echoes(tools)) && echoes == echoes0 + Echoes(tools)
    ensures ok <==> AnyOk(tools)
  {
    buffer, echoes, ok := buffer0, echoes0, false;
    for i := 0 to |tools|
      invariant buffer == buffer0 + Joined(Echoes(tools)[..i]) && echoes == echoes0 + Echoes(tools)[..i]
      invariant ok <==> exists j | 0 <= j < i :: tools[j].ok
    {
      assert Echoes(tools)[..i + 1] == Echoes(tools)[..i] + [tools[i].echo];
      if tools[i].ok { ok := true; }
      buffer := buffer + tools[i].echo;
      echoes := echoes + [tools[i].echo];
    }
    assert Echoes(tools)[..|tools|] == Echoes(tools);
  }

  // ---- 7) The grounding gate ----

  /** Some claim is accepted for a symbol that the text names, or for the first symbol at all. */
  predicate SomePassed(l: Ledger, text: string) {
    || (exists sym <- l.symbols, n <- l.claims(text) :: Occurs(sym, text) && l.accepts(sym, n))
    || (l.symbols != [] && exists n <- l.claims(text) :: l.accepts(l.symbols[0], n))
  }

  predicate Gate(l: Ledger, text: string) { !l.broken && (l.claims(text) == [] || SomePassed(l, text)) }

  method CheckGate(l: Ledger, buffer: string, echoes: seq<string>) returns (verified: bool, text: string)
    ensures text == Peel(buffer, echoes)
    ensures verified <==> Gate(l, text)
  {
    text := buffer;
    for i := 0 to |echoes|
      invariant text == Peel(buffer, echoes[..i])
    {
      assert echoes[..i + 1][..i] == echoes[..i];
      if echoes[i] != [] { text := Replace(text, echoes[i]); }
    }
    assert echoes[..|echoes|] == echoes;
    if l.broken { return false, text; }
    var nums := l.claims(text);
    verified := false;
    if l.symbols != [] {
      for i := 0 to |l.symbols|
        invariant !verified
        invariant forall k, n | 0 <= k < i && n in nums :: !(Occurs(l.symbols[k], text) && l.accepts(l.symbols[k], n))
      {
        if Occurs(l.symbols[i], text) {
          verified := AnyAccepted(l, l.symbols[i], nums);
          if verified { break; }
        }
      }
      if !verified && nums != [] { verified := AnyAccepted(l, l.symbols[0], nums); }
    }
    if nums == [] { verified := true; }
  }

  method AnyAccepted(l: Ledger, sym: string, nums: seq<string>) returns (found: bool)
    ensures found <==> exists n <- nums :: l.accepts(sym, n)
  {
    for j := 0 to |nums|
      invariant forall k | 0 <= k < j :: !l.accepts(sym, nums[k])
    {
      if l.accepts(sym, nums[j]) { return true; }
    }
    found := false;
  }

  // ---- One iteration ----

  /** 0) to 3): the checks at the head of the loop. */
  function Head(c: Config, r: Round, s: State): (t: State)
    ensures t.iterations == s.iterations && (!t.terminated ==> t == s)
    ensures !s.terminated && s.iterations >= c.maxIterations ==> t.terminated
  {
    if r.overtime then s.End(WallTime)
    else if s.iterations >= c.maxIterations then s.End(MaxIterations)
    else if Full(c, s.buffer, if c.context then r.contextTokens else 0) then
      s.(buffer := Cut(c, s.buffer, s.truncated), truncated := true).End(TokenLimit)
    else if r.stop then s.End(UserStop)
    else s
  }

  /** 8) Fold the context; the buffer gets the banner once. */
  function Fold(c: Config, r: Round, s: State): (t: State)
    ensures t.Books() == s.Books()
    ensures t.echoes == s.echoes && t.judged == s.judged && t.verified == s.verified && t.reason == s.reason
    ensures t.terminated == s.terminated && t.saves == s.saves
  {
    if c.context && c.tokenLimit.Some? && 2 * Max(Estimate(s.buffer), r.contextAfter) > c.tokenLimit.value && r.folded.Some? then
      s.(buffer := if s.truncated then s.buffer else "[" + r.folded.value + "]\n" + s.buffer, truncated := true)
    else s
  }

  /** 10) How an iteration that got this far goes on. */
  function Decide(c: Config, asked: bool, toolOk: bool, s: State): (t: State)
    ensures t == s || t == s.End(Completed) || t == s.End(GroundingFailed)
    ensures !s.terminated && t.terminated && t.reason == Completed ==> s.verified || !c.ledger
  {
    var last := s.iterations >= c.maxIterations;
    if asked then
      if toolOk && s.verified then s.End(Completed)
      else if toolOk && c.ledger then if last then s.End(GroundingFailed) else s
      else if toolOk then s.End(Completed)
      else s
    else if c.ledger && !s.verified && !Blank(s.buffer) then if last then s.End(GroundingFailed) else s
    else if !Blank(s.buffer) then s.End(Completed)
    else s
  }

  /** 9) and 10): the budget, the limit once more, a checkpoint, and the decision. */
  function Conclude(c: Config, r: Round, asked: bool, s: State): (t: State)
    ensures t.Books() == s.Books() && t.echoes == s.echoes && t.judged == s.judged
    ensures t.terminated || t.reason == s.reason
    ensures t.saves == s.saves || t.saves == s.saves + [Save(s.iterations, s.reason, s.terminated)]
    ensures !s.terminated && t.terminated && t.reason == Completed ==> (s.verified || !c.ledger) && t.buffer == s.buffer
  {
    if c.breaker && r.overBudget then s.End(BudgetFallback)
    else if Full(c, s.buffer, 0) then s.(buffer := Cut(c, s.buffer, s.truncated), truncated := true).End(TokenLimit)
    else
      Decide(c, asked, asked && AnyOk(r.tools), s.(saves := s.saves + [Save(s.iterations, s.reason, s.terminated)]))
  }

  function Equip(r: Round, asked: bool, s: State): (t: State)
    ensures t.Books() == s.Books() && t.reason == s.reason && t.terminated == s.terminated && t.saves == s.saves
  {
    if asked then s.(buffer := s.buffer + Joined(Echoes(r.tools)), echoes := s.echoes + Echoes(r.tools)) else s
  }

  function Judge(c: Config, r: Round, s: State): (t: State)
    ensures t == s.(verified := t.verified, judged := t.judged)
  {
    var text := Peel(s.buffer, s.echoes);
    if c.ledger then s.(verified := Gate(r.ledger, text), judged := text) else s.(verified := true)
  }

  /** 6) to 10), after the stream has ended well. */
  function AfterStream(c: Config, r: Round, asked: bool, s: State): (t: State)
    ensures t.Books() == s.Books() && (t.terminated || t.reason == s.reason)
    ensures t.saves == s.saves || t.saves == s.saves + [Save(s.iterations, s.reason, s.terminated)]
  {
    hide Conclude, Fold, Judge, Equip;
    Conclude(c, r, asked, Fold(c, r, Judge(c, r, Equip(r, asked, s))))
  }

  function Failure(f: Fault): Reason { if f.timeout then LlmTimeout else LlmError }

  /** RetryPolicy.should_retry, asked for a broken stream with the number of the iteration. */
  predicate Retries(c: Config, f: Fault, iterations: nat) { iterations < c.maxAttempts && f.retryable }

  /** What becomes of an iteration whose stream was acquired and has been drunk up to `sip`. */
  function StreamEnd(c: Config, r: Round, fault: Option<Fault>, sip: Sip, s: State): (t: State)
    ensures t.iterations == s.iterations && t.calls == s.calls
    ensures t.terminated || t.reason == s.reason
    ensures t.saves == s.saves || t.saves == s.saves + [Save(s.iterations, s.reason, s.terminated)]
  {
    hide AfterStream;
    var taken := s.(billed := sip.billed, leaked := sip.leaked, truncated := sip.truncated);
    if sip.stopped then taken.(buffer := sip.buffer, used := sip.used).End(TokenLimit)
    else if fault.Some? then
      var f := fault.value;
      if Retries(c, f, s.iterations) then taken.(rolled := s.rolled.Plus(sip.used.Minus(s.used)))
      else taken.(buffer := sip.buffer + ErrorText(f), used := sip.used).End(Failure(f))
    else AfterStream(c, r, sip.asked, taken.(buffer := sip.buffer, used := sip.used))
  }

  /** The stream that is drunk: none at all if no attempt is allowed. */
  function TheStream(acq: Acquired): Stream { if acq.stream.Some? then acq.stream.value else Stream([], None) }

  function Started(s: State, acq: Acquired): State { s.(iterations := s.iterations + 1, calls := s.calls + acq.calls) }

  function Body(c: Config, r: Round, s0: State): (t: State)
    ensures t.iterations == s0.iterations + 1
    ensures t.calls == s0.calls + Acquire(c.maxAttempts, r.attempt, 1).calls
    ensures t.terminated || t.reason == s0.reason
    ensures t.saves == s0.saves || t.saves == s0.saves + [Save(s0.iterations + 1, s0.reason, s0.terminated)]
  {
    hide StreamEnd, Drink, Acquire;
    var acq := Acquire(c.maxAttempts, r.attempt, 1);
    var s := Started(s0, acq);
    if acq.fault.Some? then s.(buffer := s.buffer + ErrorText(acq.fault.value)).End(Failure(acq.fault.value))
    else StreamEnd(c, r, TheStream(acq).fault, Drink(c, TheStream(acq).chunks, StartSip(s)), s)
  }

  // ---- The whole run ----

  function Left(c: Config, s: State): nat { if s.iterations < c.maxIterations then c.maxIterations - s.iterations else 0 }

  function Loop(c: Config, env: nat -> Round, s: State): State
    decreases Left(c, s), if s.terminated then 0 else 1
  {
    hide Head, Body;
    if s.terminated then s
    else
      var h := Head(c, env(s.iterations), s);
      if h.terminated then h else Loop(c, env, Body(c, env(s.iterations), h))
  }

  /** After the loop, one more checkpoint with the final reason. */
  function Finish(s: State): State { s.(saves := s.saves + [Save(s.iterations, s.reason, s.terminated)]) }

  function Run(c: Config, env: nat -> Round, truncated: bool): State { Finish(Loop(c, env, Init(truncated))) }

  class Agent {
    const config: Config
    var truncated: bool

    constructor (c: Config)
      ensures config == c && !truncated
    {
      config, truncated := c, false;
    }

    /** 6) and 7) */
    method Prove(r: Round, asked: bool, s0: State) returns (s: State, toolOk: bool)
      ensures s == Judge(config, r, Equip(r, asked, s0))
      ensures toolOk <==> asked && AnyOk(r.tools)
    {
      hide Gate, Peel, Joined, Echoes, AnyOk;
      s, toolOk := s0, false;
      if asked {
        var buffer, echoes, ok := RunTools(r.tools, s.buffer, s.echoes);
        s, toolOk := s.(buffer := buffer, echoes := echoes), ok;
      }
      if config.ledger {
        var verified, text := CheckGate(r.ledger, s.buffer, s.echoes);
        s := s.(verified := verified, judged := text);
      } else {
        s := s.(verified := true);
      }
    }

    /** 8) */
    method Compact(r: Round, s0: State) returns (s: State)
      ensures s == Fold(config, r, s0)
    {
      s := s0;
      if config.context && config.tokenLimit.Some? {
        if 2 * Max(Estimate(s.buffer), r.contextAfter) > config.tokenLimit.value && r.folded.Some? {
          if !s.truncated { s := s.(buffer := "[" + r.folded.value + "]\n" + s.buffer, truncated := true); }
        }
      }
    }

    /** 9) and 10) */
    method Settle(r: Round, asked: bool, toolOk: bool, s0: State) returns (s: State)
      requires toolOk <==> asked && AnyOk(r.tools)
      ensures s == Conclude(config, r, asked, s0)
    {
      hide AnyOk;
      s := s0;
      if config.breaker && r.overBudget { return s.End(BudgetFallback); }
      if config.tokenLimit.Some? && Estimate(s.buffer) >= config.tokenLimit.value {
        if !s.truncated { s := s.(buffer := Take(s.buffer, config.tokenLimit.value * 4) + BANNER, truncated := true); }
        return s.End(TokenLimit);
      }
      s := s.(saves := s.saves + [Save(s.iterations, s.reason, s.terminated)]);
      if asked {
        if toolOk && s.verified { return s.End(Completed); }
        if toolOk && !s.verified && config.ledger {
          if s.iterations >= config.maxIterations { return s.End(GroundingFailed); }
          return;
        }
        if toolOk { return s.End(Completed); }
      } else {
        if config.ledger && !s.verified && !Blank(s.buffer) {
          if s.iterations >= config.maxIterations { return s.End(GroundingFailed); }
          return;
        }
        if !Blank(s.buffer) { return s.End(Completed); }
      }
    }

    /** One iteration: the counters and the buffer run ahead with the stream, and a retry takes them back. */
    method Iterate(r: Round, s0: State) returns (s: State)
      ensures s == Body(config, r, s0)
    {
      hide Acquire, Drink, StreamEnd;
      s := s0.(iterations := s0.iterations + 1);
      var acq := AcquireStream(config.maxAttempts, r.attempt);
      s := s.(calls := s.calls + acq.calls);
      if acq.fault.Some? {
        s := s.(buffer := s.buffer + ErrorText(acq.fault.value));
        return s.End(Failure(acq.fault.value));
      }
      s := Digest(r, TheStream(acq), s);
    }

    method Digest(r: Round, stream: Stream, s0: State) returns (s: State)
      ensures s == StreamEnd(config, r, stream.fault, Drink(config, stream.chunks, StartSip(s0)), s0)
    {
      hide Drink, Conclude, Fold, Judge, Equip, Retries, AnyOk;
      s := s0;
      var startLen, startUsed := |s.buffer|, s.used;
      var sip := Accumulate(config, stream.chunks, s);
      DrinkAppends(config, stream.chunks, StartSip(s));
      s := s.(buffer := sip.buffer, used := sip.used, billed := sip.billed, leaked := sip.leaked, truncated := sip.truncated);
      if sip.stopped { return s.End(TokenLimit); }
      if stream.fault.Some? {
        var f := stream.fault.value;
        if Retries(config, f, s.iterations) {
          s := s.(buffer := s.buffer[..startLen]);
          s := s.(rolled := s.rolled.Plus(s.used.Minus(startUsed)), used := startUsed);
          return;
        }
        s := s.(buffer := s.buffer + ErrorText(f));
        return s.End(Failure(f));
      }
      var toolOk;
      s, toolOk := Prove(r, sip.asked, s);
      s := Compact(r, s);
      s := Settle(r, sip.asked, toolOk, s);
    }

    method Go(env: nat -> Round) returns (s: State)
      modifies this
      ensures s == Run(config, env, old(truncated)) && truncated == s.truncated
    {
      hide Body;
      s := Init(truncated);
      while !s.terminated
        invariant Loop(config, env, Init(old(truncated))) == Loop(config, env, s)
        decreases Left(config, s), if s.terminated then 0 else 1
      {
        var r := env(s.iterations);
        ghost var before := s;
        if r.overtime { s := s.End(WallTime); break; }
        if s.iterations >= config.maxIterations { s := s.End(MaxIterations); break; }
        if config.tokenLimit.Some?
           && Max(Estimate(s.buffer), if config.context then r.contextTokens else 0) >= config.tokenLimit.value {
          if !s.truncated { s := s.(buffer := Take(s.buffer, config.tokenLimit.value * 4) + BANNER, truncated := true); }
          s := s.End(TokenLimit);
          break;
        }
        if r.stop { s := s.End(UserStop); break; }
        s := Iterate(r, s);
      }
      truncated := s.truncated;
      s := s.(saves := s.saves + [Save(s.iterations, s.reason, s.terminated)]);
    }
  }

  /** Until the token limit stops it, a stream only appends to the buffer. */
  lemma {:induction false} DrinkAppends(c: Config, chunks: seq<Chunk>, s: Sip)
    ensures !Drink(c, chunks, s).stopped ==> s.buffer <= Drink(c, chunks, s).buffer && Drink(c, chunks, s).truncated == s.truncated
  {
    if chunks != [] && !s.stopped {
      DrinkAppends(c, chunks[1..], TakeChunk(c, chunks[0], s));
    }
  }

  // ---- Every run ends, and the calls are bounded ----

  function Cap(n: int): nat { if n > 0 then n else 0 }

  lemma {:induction false} LoopEnds(c: Config, env: nat -> Round, s: State)
    ensures var t := Loop(c, env, s);
            && t.terminated
            && t.iterations <= Max(s.iterations, Cap(c.maxIterations))
            && t.calls <= s.calls + Left(c, s) * Cap(c.maxAttempts)
    decreases Left(c, s), if s.terminated then 0 else 1
  {
    hide Body, Acquire;
    Product(Left(c, s), Cap(c.maxAttempts));
    if !s.terminated {
      var h := Head(c, env(s.iterations), s);
      HeadKeepsBooks(c, env(s.iterations), s);
      hide Head;
      if !h.terminated {
        LoopEnds(c, env, Body(c, env(s.iterations), h));
      }
    }
  }

  lemma Product(n: nat, m: nat)
    ensures 0 <= n * m && (n > 0 ==> n * m == (n - 1) * m + m)
  {}

  lemma HeadKeepsBooks(c: Config, r: Round, s: State)
    ensures Head(c, r, s).Books() == s.Books()
  {}

  /** Every run ends, in at most max_iterations iterations and max_iterations * max_attempts stream acquisitions. */
  lemma RunEnds(c: Config, env: nat -> Round, truncated: bool)
    ensures var t := Run(c, env, truncated);
            && t.terminated
            && t.iterations <= Cap(c.maxIterations)
            && t.calls <= Cap(c.maxIterations) * Cap(c.maxAttempts)
  {
    hide Loop;
    LoopEnds(c, env, Init(truncated));
    assert Left(c, Init(truncated)) == Cap(c.maxIterations);
  }

  /** The checkpoints of the iterations say that the run goes on; none is written by an iteration that is
      retried or cut short. */
  predicate Ongoing(s: State) {
    && (forall sv <- s.saves :: !sv.terminated && sv.iterations <= s.iterations)
    && |s.saves| <= s.iterations
  }

  lemma BodySaves(c: Config, r: Round, s: State)
    requires Ongoing(s) && !s.terminated
    ensures Ongoing(Body(c, r, s))
  {
    hide Body, Acquire;
    var t := Body(c, r, s);
    assert t.iterations == s.iterations + 1;
  }

  lemma {:induction false} LoopSaves(c: Config, env: nat -> Round, s: State)
    requires Ongoing(s)
    ensures Ongoing(Loop(c, env, s))
    decreases Left(c, s), if s.terminated then 0 else 1
  {
    hide Body;
    if !s.terminated {
      var h := Head(c, env(s.iterations), s);
      if !h.terminated {
        BodySaves(c, env(s.iterations), h);
        LoopSaves(c, env, Body(c, env(s.iterations), h));
      }
    }
  }

  /** A run writes at most one checkpoint per iteration and one at its end, and exactly the last one says that
      the run is over, with its final reason. */
  lemma LastCheckpointIsFinal(c: Config, env: nat -> Round, truncated: bool)
    ensures var t := Run(c, env, truncated);
            && 1 <= |t.saves| <= t.iterations + 1
            && t.saves[|t.saves| - 1] == Save(t.iterations, t.reason, true)
            && forall i | 0 <= i < |t.saves| - 1 :: !t.saves[i].terminated
  {
    LoopEnds(c, env, Init(truncated));
    LoopSaves(c, env, Init(truncated));
    var l := Loop(c, env, Init(truncated));
    hide Loop;
    assert forall i | 0 <= i < |l.saves| :: l.saves[i] in l.saves;
  }

  // ---- The grounding gate cannot be bypassed ----

  /** The gate has looked at the buffer with the tool echoes blanked out; only a folding banner may come after. */
  predicate JudgedOn(raw: string, t: State, r: Round) {
    && t.judged == Peel(raw, t.echoes)
    && (t.buffer == raw || (r.folded.Some? && t.buffer == "[" + r.folded.value + "]\n" + raw))
  }

  /** The model's own text makes no price claim, or the ledger has accepted one of its claims. */
  ghost predicate GroundedBy(r: Round, t: State) {
    && (exists raw :: JudgedOn(raw, t, r))
    && !r.ledger.broken && (r.ledger.claims(t.judged) == [] || SomePassed(r.ledger, t.judged))
  }

  lemma CompletedAfterStream(c: Config, r: Round, asked: bool, s: State)
    requires !s.terminated && c.ledger
    requires var t := AfterStream(c, r, asked, s); t.terminated && t.reason == Completed
    ensures GroundedBy(r, AfterStream(c, r, asked, s))
  {
    hide SomePassed, Peel, Equip, Conclude;
    var e := Equip(r, asked, s);
    assert JudgedOn(e.buffer, AfterStream(c, r, asked, s), r);
  }

  /** How an iteration comes to end as completed. */
  lemma CompletedBody(c: Config, r: Round, s: State)
    requires !s.terminated && c.ledger
    requires Body(c, r, s).terminated && Body(c, r, s).reason == Completed
    ensures GroundedBy(r, Body(c, r, s))
  {
    hide AfterStream, Drink, Acquire, GroundedBy;
    var acq := Acquire(c.maxAttempts, r.attempt, 1);
    var t := Started(s, acq);
    var sip := Drink(c, TheStream(acq).chunks, StartSip(t));
    CompletedAfterStream(c, r, sip.asked,
      t.(billed := sip.billed, leaked := sip.leaked, truncated := sip.truncated, buffer := sip.buffer, used := sip.used));
  }

  /** If a ledger is configured and the loop ends as completed, then in its last iteration the model's own text
      made no price claim, or one of its claims was accepted by the ledger. */
  lemma {:induction false} CompletedIsGrounded(c: Config, env: nat -> Round, s: State)
    requires !s.terminated && c.ledger
    requires Loop(c, env, s).reason == Completed
    ensures var t := Loop(c, env, s);
            t.iterations > s.iterations && GroundedBy(env(t.iterations - 1), t)
    decreases Left(c, s)
  {
    hide Body, GroundedBy;
    var r := env(s.iterations);
    var h := Head(c, r, s);
    if !h.terminated {
      var b := Body(c, r, h);
      if b.terminated { CompletedBody(c, r, h); } else { CompletedIsGrounded(c, env, b); }
    }
  }

  // ---- Reasons ----

  function Texts(chunks: seq<Chunk>): string { if chunks == [] then [] else chunks[0].text + Texts(chunks[1..]) }

  predicate Asks(chunks: seq<Chunk>) { exists ch <- chunks :: ch.asks }

  /** The text after the stream and the tools. */
  function Unfolded(r: Round, b: State, chunks: seq<Chunk>): string {
    b.buffer + Texts(chunks) + if Asks(chunks) then Joined(Echoes(r.tools)) else []
  }

  /** The first n chunks, and no fewer, bring the text to the limit, where it is cut. */
  predicate ReachedBy(c: Config, b: State, chunks: seq<Chunk>, n: nat, t: State) {
    && 0 < n <= |chunks| && Full(c, b.buffer + Texts(chunks[..n]), 0)
    && (forall m | 0 < m < n :: !Full(c, b.buffer + Texts(chunks[..m]), 0))
    && t.buffer == Cut(c, b.buffer + Texts(chunks[..n]), b.truncated)
  }

  /** The settled text, folded or not, is at the limit, where it is cut. */
  predicate ReachedAfter(c: Config, r: Round, b: State, chunks: seq<Chunk>, t: State) {
    var raw := Unfolded(r, b, chunks);
    || (Full(c, raw, 0) && t.buffer == Cut(c, raw, b.truncated))
    || (r.folded.Some? && !b.truncated
        && var text := "[" + r.folded.value + "]\n" + raw; Full(c, text, 0) && t.buffer == text)
  }

  /** The fault that ends a run: no attempt is left for a stream, or the stream breaks and is not worth another one. */
  function FinalFault(c: Config, r: Round, b: State): Option<Fault> {
    var acq := Acquire(c.maxAttempts, r.attempt, 1);
    if acq.fault.Some? then acq.fault
    else if TheStream(acq).fault.Some? && !Retries(c, TheStream(acq).fault.value, b.iterations + 1) then TheStream(acq).fault
    else None
  }

  /** An acquisition fails for good: every attempt up to one raises an exception, and that one is the last or its
      exception not worth another. */
  lemma {:induction false} AcquireMeans(max: int, attempt: int -> Attempt, k: int) returns (last: int)
    requires Acquire(max, attempt, k).fault.Some?
    ensures k <= last <= max && attempt(last) == Raised(Acquire(max, attempt, k).fault.value)
    ensures last == max || !Acquire(max, attempt, k).fault.value.retryable
    ensures forall j | k <= j < last :: attempt(j).Raised? && attempt(j).fault.retryable
    decreases max - k
  {
    last := k;
    if k < max && attempt(k).Raised? && attempt(k).fault.retryable { last := AcquireMeans(max, attempt, k + 1); }
  }

  /** What a reason given at the head of the loop means for the state `b` found there. */
  predicate HeadMeans(c: Config, r: Round, b: State, t: State) {
    match t.reason
    case WallTime => r.overtime
    case MaxIterations => b.iterations >= c.maxIterations
    case TokenLimit => Full(c, b.buffer, if c.context then r.contextTokens else 0) && t.buffer == Cut(c, b.buffer, b.truncated)
    case UserStop => r.stop
    case _ => false
  }

  /** What a reason given inside the iteration that began in `b` means. */
  ghost predicate BodyMeans(c: Config, r: Round, b: State, t: State) {
    var acq := Acquire(c.maxAttempts, r.attempt, 1);
    var chunks := TheStream(acq).chunks;
    match t.reason
    case TokenLimit => acq.fault.None? && ((exists n: nat :: ReachedBy(c, b, chunks, n, t)) || ReachedAfter(c, r, b, chunks, t))
    case BudgetFallback => c.breaker && r.overBudget
    case GroundingFailed => c.ledger && !Gate(r.ledger, t.judged) && t.iterations >= c.maxIterations
    case Completed => (c.ledger ==> Gate(r.ledger, t.judged)) && (!Blank(t.buffer) || AnyOk(r.tools))
    case LlmTimeout => var f := FinalFault(c, r, b); f.Some? && f.value.timeout && EndsWith(t.buffer, ErrorText(f.value))
    case LlmError => var f := FinalFault(c, r, b); f.Some? && !f.value.timeout && EndsWith(t.buffer, ErrorText(f.value))
    case _ => false
  }

  predicate EndsWith(s: string, end: string) { |end| <= |s| && s[|s| - |end|..] == end }

  /** What a stream adds up to: all its texts, or those up to the chunk that reaches the limit. */
  lemma {:induction false} DrinkReaches(c: Config, chunks: seq<Chunk>, s: Sip) returns (n: nat)
    requires !s.stopped
    ensures var d := Drink(c, chunks, s);
            && n <= |chunks| && (d.stopped ==> n > 0 && Full(c, s.buffer + Texts(chunks[..n]), 0))
            && (forall m | 0 < m < n :: !Full(c, s.buffer + Texts(chunks[..m]), 0))
            && d.buffer == (if d.stopped then Cut(c, s.buffer + Texts(chunks[..n]), s.truncated) else s.buffer + Texts(chunks))
            && (!d.stopped ==> d.truncated == s.truncated && (d.asked <==> s.asked || Asks(chunks)))
  {
    hide Cut, Asks, Full, TakeChunk, Texts;
    n := 0;
    if chunks == [] {
      NobodyAsks();
      assert s.buffer + Texts([]) == s.buffer by { NoTexts(); }
    } else {
      var t := TakeChunk(c, chunks[0], s);
      TakeFacts(c, chunks[0], s);
      AsksCons(chunks);
      Share(chunks, s.buffer, 1);
      if t.stopped {
        DrinkDone(c, chunks[1..], t);
        n := 1;
      } else {
        var m := DrinkReaches(c, chunks[1..], t);
        NotBefore(c, chunks, s.buffer, m);
        if Drink(c, chunks[1..], t).stopped { n := m + 1; }
        assert Drink(c, chunks, s) == Drink(c, chunks[1..], t);
        hide Drink;
      }
    }
  }

  lemma NoTexts()
    ensures Texts([]) == []
  {}

  lemma TakeFacts(c: Config, chunk: Chunk, s: Sip)
    requires !s.stopped
    ensures var t, text := TakeChunk(c, chunk, s), s.buffer + chunk.text;
            && (t.stopped <==> Full(c, text, 0))
            && t.buffer == (if t.stopped then Cut(c, text, s.truncated) else text)
            && (!t.stopped ==> t.truncated == s.truncated && (t.asked <==> s.asked || chunk.asks))
  {
    hide Cut, Full;
  }

  /** A share of the text, with the first chunk in front. */
  lemma Share(chunks: seq<Chunk>, buffer: string, k: nat)
    requires 0 < k <= |chunks|
    ensures buffer + Texts(chunks[..k]) == buffer + chunks[0].text + Texts(chunks[1..][..k - 1])
    ensures buffer + chunks[0].text + Texts(chunks[1..][..0]) == buffer + chunks[0].text
  {
    TextsCons(chunks, k);
    assert Texts([]) == [];
    hide Texts;
    var x, y := chunks[0].text, Texts(chunks[1..][..k - 1]);
    assert buffer + (x + y) == buffer + x + y;
    assert chunks[1..][..0] == [] && buffer + x + [] == buffer + x;
  }

  lemma NotBefore(c: Config, chunks: seq<Chunk>, buffer: string, m: nat)
    requires chunks != [] && m <= |chunks| - 1 && !Full(c, buffer + chunks[0].text, 0)
    requires forall k | 0 < k < m :: !Full(c, buffer + chunks[0].text + Texts(chunks[1..][..k]), 0)
    ensures forall k | 0 < k < m + 1 :: !Full(c, buffer + Texts(chunks[..k]), 0)
    ensures buffer + Texts(chunks) == buffer + chunks[0].text + Texts(chunks[1..])
    ensures buffer + Texts(chunks[..m + 1]) == buffer + chunks[0].text + Texts(chunks[1..][..m])
  {
    hide Full, Texts;
    assert chunks[..|chunks|] == chunks && chunks[1..][..|chunks| - 1] == chunks[1..];
    Share(chunks, buffer, |chunks|);
    Share(chunks, buffer, m + 1);
    forall k | 0 < k < m + 1 ensures !Full(c, buffer + Texts(chunks[..k]), 0) {
      Share(chunks, buffer, k);
    }
  }

  lemma TextsCons(chunks: seq<Chunk>, k: nat)
    requires 0 < k <= |chunks|
    ensures Texts(chunks[..k]) == chunks[0].text + Texts(chunks[1..][..k - 1])
  {
    assert chunks[..k][1..] == chunks[1..][..k - 1];
  }

  lemma ConcludeMeans(c: Config, r: Round, asked: bool, s: State)
    requires !s.terminated && (s.verified <==> c.ledger ==> Gate(r.ledger, s.judged))
    requires Conclude(c, r, asked, s).terminated
    ensures var t := Conclude(c, r, asked, s);
            match t.reason
            case TokenLimit => Full(c, s.buffer, 0) && t.buffer == Cut(c, s.buffer, s.truncated)
            case BudgetFallback => c.breaker && r.overBudget
            case GroundingFailed => c.ledger && !Gate(r.ledger, t.judged) && t.iterations >= c.maxIterations
            case Completed => (c.ledger ==> Gate(r.ledger, t.judged)) && (!Blank(t.buffer) || AnyOk(r.tools))
            case _ => false
  {
    hide Gate, AnyOk, Take, Blank;
  }

  lemma JudgeKeeps(c: Config, r: Round, s: State)
    ensures Judge(c, r, s).verified <==> c.ledger ==> Gate(r.ledger, Judge(c, r, s).judged)
  {}

  /** Folding puts the banner before a text that has not been cut or folded yet. */
  lemma FoldedText(c: Config, r: Round, asked: bool, s: State)
    ensures var raw := if asked then s.buffer + Joined(Echoes(r.tools)) else s.buffer;
            var f := Fold(c, r, Judge(c, r, Equip(r, asked, s)));
            || (f.buffer == raw && f.truncated == s.truncated)
            || (r.folded.Some? && !s.truncated && f.truncated && f.buffer == "[" + r.folded.value + "]\n" + raw)
  {
    hide Gate, Peel, Joined, Echoes;
  }

  lemma SettledReason(c: Config, r: Round, asked: bool, s: State)
    requires !s.terminated && AfterStream(c, r, asked, s).terminated
    ensures var t := AfterStream(c, r, asked, s);
            var raw := if asked then s.buffer + Joined(Echoes(r.tools)) else s.buffer;
            match t.reason
            case TokenLimit =>
              || (Full(c, raw, 0) && t.buffer == Cut(c, raw, s.truncated))
              || (r.folded.Some? && !s.truncated
                  && var text := "[" + r.folded.value + "]\n" + raw; Full(c, text, 0) && t.buffer == text)
            case BudgetFallback => c.breaker && r.overBudget
            case GroundingFailed => c.ledger && !Gate(r.ledger, t.judged) && t.iterations >= c.maxIterations
            case Completed => (c.ledger ==> Gate(r.ledger, t.judged)) && (!Blank(t.buffer) || AnyOk(r.tools))
            case _ => false
  {
    hide Gate, AnyOk, Blank, Conclude, Fold, Judge, Equip, Full, Take, Joined, Echoes;
    FoldedText(c, r, asked, s);
    JudgeKeeps(c, r, Equip(r, asked, s));
    ConcludeMeans(c, r, asked, Fold(c, r, Judge(c, r, Equip(r, asked, s))));
  }

  lemma BodyReason(c: Config, r: Round, b: State)
    requires !b.terminated && Body(c, r, b).terminated
    ensures BodyMeans(c, r, b, Body(c, r, b))
  {
    hide Acquire, Drink, AfterStream, Full, Cut, Texts, Asks, Joined, Echoes, Gate, AnyOk, Blank, Retries;
    var acq := Acquire(c.maxAttempts, r.attempt, 1);
    var s, stream, t := Started(b, acq), TheStream(acq), Body(c, r, b);
    if acq.fault.None? {
      var sip := Drink(c, stream.chunks, StartSip(s));
      var n := DrinkReaches(c, stream.chunks, StartSip(s));
      if sip.stopped {
        assert ReachedBy(c, b, stream.chunks, n, t);
      } else if stream.fault.None? {
        var u := s.(billed := sip.billed, leaked := sip.leaked, truncated := sip.truncated, buffer := sip.buffer, used := sip.used);
        assert b.buffer + Texts(stream.chunks) + [] == b.buffer + Texts(stream.chunks);
        SettledReason(c, r, sip.asked, u);
      }
    }
  }

  /** The state in which the loop comes to its head for the last time. */
  function LastHead(c: Config, env: nat -> Round, s: State): State
    requires !s.terminated
    decreases Left(c, s)
  {
    hide Head, Body;
    var h := Head(c, env(s.iterations), s);
    if h.terminated then s
    else
      var b := Body(c, env(s.iterations), h);
      if b.terminated then s else LastHead(c, env, b)
  }

  /** Every run ends for the reason it gives: the one of the check at the head that stopped it, or the one inside
      its last iteration. */
  lemma {:induction false} ReasonMeans(c: Config, env: nat -> Round, s: State)
    requires !s.terminated
    ensures var b, t := LastHead(c, env, s), Loop(c, env, s);
            var r := env(b.iterations);
            || (t == Head(c, r, b) && HeadMeans(c, r, b, t))
            || (t == Body(c, r, b) && BodyMeans(c, r, b, t))
    decreases Left(c, s)
  {
    hide Body, BodyMeans, Take;
    var r := env(s.iterations);
    var h := Head(c, r, s);
    if !h.terminated {
      var b := Body(c, r, h);
      if b.terminated { BodyReason(c, r, h); } else { ReasonMeans(c, env, b); }
    }
  }

  // ---- Retries ----

  /** The iteration's stream breaks off and is worth another attempt. */
  predicate IsRetried(c: Config, r: Round, s: State) {
    var acq := Acquire(c.maxAttempts, r.attempt, 1);
    && acq.fault.None? && TheStream(acq).fault.Some?
    && Retries(c, TheStream(acq).fault.value, s.iterations + 1)
    && !Drink(c, TheStream(acq).chunks, StartSip(s)).stopped
  }

  /** A stream that fails and is retried leaves nothing behind but the bill: buffer, usage, echoes and verdict
      are those of before, and what had been counted is booked as rolled back. */
  lemma RetryLeavesNoTrace(c: Config, r: Round, s: State)
    requires IsRetried(c, r, s)
    ensures var t := Body(c, r, s);
            && t == s.(iterations := s.iterations + 1, calls := t.calls, billed := t.billed, rolled := t.rolled, leaked := t.leaked)
            && t.rolled == s.rolled.Plus(Drink(c, TheStream(Acquire(c.maxAttempts, r.attempt, 1)).chunks, StartSip(s)).used.Minus(s.used))
  {
    var acq := Acquire(c.maxAttempts, r.attempt, 1);
    assert StartSip(Started(s, acq)) == StartSip(s);
    DrinkAppends(c, TheStream(acq).chunks, StartSip(s));
    hide Acquire, Drink, AfterStream;
  }

  // ---- Usage is conserved ----

  /** Local counters plus what was rolled back equal what was billed plus what leaked. */
  predicate Balanced(s: State) { s.used.Plus(s.rolled) == s.billed.Plus(s.leaked) }

  lemma {:induction false} DrinkBalance(c: Config, chunks: seq<Chunk>, s: Sip)
    ensures var t := Drink(c, chunks, s);
            t.used.Minus(s.used) == t.billed.Plus(t.leaked).Minus(s.billed.Plus(s.leaked))
  {
    if chunks != [] && !s.stopped { DrinkBalance(c, chunks[1..], TakeChunk(c, chunks[0], s)); }
  }

  lemma BodyBalance(c: Config, r: Round, s: State)
    requires Balanced(s)
    ensures Balanced(Body(c, r, s))
  {
    hide Acquire, Drink, AfterStream, Retries;
    var acq := Acquire(c.maxAttempts, r.attempt, 1);
    DrinkBalance(c, TheStream(acq).chunks, StartSip(Started(s, acq)));
  }

  predicate AllWellFormed(chunks: seq<Chunk>) { forall ch <- chunks :: WellFormed(ch.usage) }

  lemma {:induction false} DrinkLeaks(c: Config, chunks: seq<Chunk>, s: Sip)
    requires c.breaker && AllWellFormed(chunks)
    ensures Drink(c, chunks, s).leaked == s.leaked
  {
    if chunks != [] && !s.stopped { DrinkLeaks(c, chunks[1..], TakeChunk(c, chunks[0], s)); }
  }

  /** In every attempt that yields a stream, usage reports are well formed. */
  ghost predicate HonestRound(r: Round) {
    forall k: int :: r.attempt(k).Got? ==> AllWellFormed(r.attempt(k).stream.chunks)
  }

  lemma {:induction false} AcquiredHonest(max: int, r: Round, k: int)
    requires HonestRound(r)
    ensures AllWellFormed(TheStream(Acquire(max, r.attempt, k)).chunks)
    decreases max - k
  {
    if k <= max && r.attempt(k).Raised? && k < max && r.attempt(k).fault.retryable { AcquiredHonest(max, r, k + 1); }
  }

  lemma BodyLeaks(c: Config, r: Round, s: State)
    requires c.breaker && HonestRound(r)
    ensures Body(c, r, s).leaked == s.leaked
  {
    hide Acquire, Drink, AfterStream, Retries, HonestRound, AllWellFormed;
    var acq := Acquire(c.maxAttempts, r.attempt, 1);
    AcquiredHonest(c.maxAttempts, r, 1);
    DrinkLeaks(c, TheStream(acq).chunks, StartSip(Started(s, acq)));
  }

  lemma {:induction false} LoopBalance(c: Config, env: nat -> Round, s: State)
    requires Balanced(s)
    ensures Balanced(Loop(c, env, s))
    decreases Left(c, s), if s.terminated then 0 else 1
  {
    hide Body;
    if !s.terminated {
      var h := Head(c, env(s.iterations), s);
      if !h.terminated {
        BodyBalance(c, env(s.iterations), h);
        LoopBalance(c, env, Body(c, env(s.iterations), h));
      }
    }
  }

  lemma {:induction false} LoopLeaks(c: Config, env: nat -> Round, s: State)
    requires c.breaker && forall k: nat :: HonestRound(env(k))
    ensures Loop(c, env, s).leaked == s.leaked
    decreases Left(c, s), if s.terminated then 0 else 1
  {
    hide Body, HonestRound;
    if !s.terminated {
      var h := Head(c, env(s.iterations), s);
      if !h.terminated {
        BodyLeaks(c, env(s.iterations), h);
        LoopLeaks(c, env, Body(c, env(s.iterations), h));
      }
    }
  }

  ghost predicate Honest(env: nat -> Round) { forall k: nat :: HonestRound(env(k)) }

  /** Over a whole run with a breaker, what record_usage was given equals the final local counters plus all
      rolled-back amounts, up to the readable halves of malformed reports. */
  lemma UsageIsConserved(c: Config, env: nat -> Round, truncated: bool)
    requires c.breaker
    ensures var t := Run(c, env, truncated); t.billed.Plus(t.leaked) == t.used.Plus(t.rolled)
  {
    assert Balanced(Init(truncated));
    hide Loop;
    LoopBalance(c, env, Init(truncated));
  }

  /** With well-formed reports the equation is exact. */
  lemma HonestUsageIsConserved(c: Config, env: nat -> Round, truncated: bool)
    requires c.breaker && Honest(env)
    ensures var t := Run(c, env, truncated); t.billed == t.used.Plus(t.rolled)
  {
    LoopLeaks(c, env, Init(truncated));
    hide Loop, Honest;
    UsageIsConserved(c, env, truncated);
  }

  // ---- The transcript ----

  /** What an iteration contributes for good: a failed attempt nothing but a final error. */
  function Kept(c: Config, r: Round, iteration: nat): string {
    var acq := Acquire(c.maxAttempts, r.attempt, 1);
    if acq.fault.Some? then ErrorText(acq.fault.value)
    else
      var stream := TheStream(acq);
      if stream.fault.Some? then
        if Retries(c, stream.fault.value, iteration) then [] else Texts(stream.chunks) + ErrorText(stream.fault.value)
      else Texts(stream.chunks) + if Asks(stream.chunks) then Joined(Echoes(r.tools)) else []
  }

  /** What `n` iterations from number `from` on keep. */
  function Transcript(c: Config, env: nat -> Round, from: nat, n: nat): string
    decreases n
  {
    if n == 0 then [] else Kept(c, env(from), from + 1) + Transcript(c, env, from + 1, n - 1)
  }

  lemma AsksCons(chunks: seq<Chunk>)
    requires chunks != []
    ensures Asks(chunks) <==> chunks[0].asks || Asks(chunks[1..])
  {
    assert forall ch :: ch in chunks <==> ch == chunks[0] || ch in chunks[1..];
  }

  lemma TakeUnlimited(c: Config, chunk: Chunk, s: Sip)
    requires c.tokenLimit.None?
    ensures var n := TakeChunk(c, chunk, s);
            !n.stopped && n.buffer == s.buffer + chunk.text && (n.asked <==> s.asked || chunk.asks)
  {}

  lemma {:induction false} DrinkTexts(c: Config, chunks: seq<Chunk>, s: Sip)
    requires c.tokenLimit.None? && !s.stopped
    ensures var t := Drink(c, chunks, s);
            !t.stopped && t.buffer == s.buffer + Texts(chunks) && (t.asked <==> s.asked || Asks(chunks))
  {
    hide Asks, TakeChunk;
    if chunks == [] {
      assert s.buffer + [] == s.buffer;
      assert !Asks(chunks) by { NobodyAsks(); }
    } else {
      TakeUnlimited(c, chunks[0], s);
      DrinkTexts(c, chunks[1..], TakeChunk(c, chunks[0], s));
      AsksCons(chunks);
      assert s.buffer + chunks[0].text + Texts(chunks[1..]) == s.buffer + (chunks[0].text + Texts(chunks[1..]));
    }
  }

  lemma NobodyAsks()
    ensures !Asks([])
  {}

  lemma BodyKeepsTexts(c: Config, r: Round, s: State)
    requires c.tokenLimit.None?
    ensures Body(c, r, s).buffer == s.buffer + Kept(c, r, s.iterations + 1)
  {
    hide Acquire, Drink, Texts, Asks, Joined, Echoes, Retries, Gate, Peel, AnyOk;
    var acq := Acquire(c.maxAttempts, r.attempt, 1);
    var stream := TheStream(acq);
    DrinkTexts(c, stream.chunks, StartSip(Started(s, acq)));
    assert s.buffer + [] == s.buffer;
    if acq.fault.None? {
      var texts := Texts(stream.chunks);
      var sip := Drink(c, stream.chunks, StartSip(Started(s, acq)));
      assert sip.asked <==> Asks(stream.chunks);
      assert texts + [] == texts;
      assert s.buffer + texts + Joined(Echoes(r.tools)) == s.buffer + (texts + Joined(Echoes(r.tools)));
      if stream.fault.Some? {
        assert s.buffer + texts + ErrorText(stream.fault.value) == s.buffer + (texts + ErrorText(stream.fault.value));
      } else {
        var taken := Started(s, acq).(billed := sip.billed, leaked := sip.leaked, truncated := sip.truncated,
                                      buffer := sip.buffer, used := sip.used);
        AfterStreamTexts(c, r, sip.asked, taken);
      }
    }
    hide AfterStream;
  }

  lemma AfterStreamTexts(c: Config, r: Round, asked: bool, s: State)
    requires c.tokenLimit.None?
    ensures AfterStream(c, r, asked, s).buffer == if asked then s.buffer + Joined(Echoes(r.tools)) else s.buffer
  {
    hide Gate, Peel, Joined, Echoes, AnyOk, Blank;
  }

  /** Without a token limit the final text is the transcript of what each iteration keeps: nothing of a retried
      attempt is ever in it, and nothing that was kept is lost, repeated or reordered. */
  lemma {:induction false} LoopTranscript(c: Config, env: nat -> Round, s: State)
    requires c.tokenLimit.None?
    ensures var t := Loop(c, env, s);
            t.iterations >= s.iterations && t.buffer == s.buffer + Transcript(c, env, s.iterations, t.iterations - s.iterations)
    decreases Left(c, s), if s.terminated then 0 else 1
  {
    hide Body, Kept;
    if s.terminated || Head(c, env(s.iterations), s).terminated {
      assert s.buffer + [] == s.buffer;
    } else {
      var b := Body(c, env(s.iterations), s);
      BodyKeepsTexts(c, env(s.iterations), s);
      LoopTranscript(c, env, b);
      var k, rest := Kept(c, env(s.iterations), s.iterations + 1), Transcript(c, env, b.iterations, Loop(c, env, b).iterations - b.iterations);
      assert s.buffer + k + rest == s.buffer + (k + rest);
    }
  }
}
