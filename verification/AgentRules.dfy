/** When the agent goes on and how it ends, in terms of texts, counters and the configuration alone. */
module AgentRules {
  import opened Wrappers
  import opened Text
  import opened AgentLoop

  // ---- The token limit ----

  /** Four characters count as a token. */
  lemma FullMeans(c: Config, buffer: string, other: nat)
    ensures Full(c, buffer, other) <==>
              c.tokenLimit.Some? && (|buffer| >= 4 * c.tokenLimit.value || other >= c.tokenLimit.value)
  {}

  /** A text is cut to the limit and marked once. */
  lemma CutMeans(c: Config, buffer: string)
    requires c.tokenLimit.Some? && c.tokenLimit.value >= 0
    ensures Cut(c, buffer, true) == buffer
    ensures |buffer| >= 4 * c.tokenLimit.value ==>
              Cut(c, buffer, false) == buffer[..4 * c.tokenLimit.value] + "\n[TRUNCATED: token_limit exceeded]"
    ensures |buffer| < 4 * c.tokenLimit.value ==> Cut(c, buffer, false) == buffer + "\n[TRUNCATED: token_limit exceeded]"
  {}

  /** The limit holds for the text or the context. */
  predicate AtLimit(c: Config, buffer: string, other: nat) {
    c.tokenLimit.Some? && (|buffer| >= 4 * c.tokenLimit.value || other >= c.tokenLimit.value)
  }

  // ---- The head of the loop ----

  /** The first of the four checks that applies ends the run; if none does, the iteration goes on with all as it is. */
  lemma HeadIff(c: Config, r: Round, s: State)
    requires !s.terminated
    ensures var t := Head(c, r, s);
            var limit := AtLimit(c, s.buffer, if c.context then r.contextTokens else 0);
            if r.overtime then t == s.(reason := WallTime, terminated := true)
            else if s.iterations >= c.maxIterations then t == s.(reason := MaxIterations, terminated := true)
            else if limit then t == s.(reason := TokenLimit, terminated := true, truncated := true, buffer := t.buffer)
            else if r.stop then t == s.(reason := UserStop, terminated := true)
            else t == s
  {
    FullMeans(c, s.buffer, if c.context then r.contextTokens else 0);
    hide Full, Cut;
  }

  // ---- Acquiring ----

  /** A stream is the first one that an attempt yields, after attempts that failed and were worth another one. */
  lemma {:induction false} AcquireGets(max: int, attempt: int -> Attempt, k: int) returns (last: int)
    requires Acquire(max, attempt, k).stream.Some?
    ensures k <= last <= max && attempt(last) == Got(Acquire(max, attempt, k).stream.value)
    ensures Acquire(max, attempt, k).calls == last - k + 1 && Acquire(max, attempt, k).fault.None?
    ensures forall j | k <= j < last :: attempt(j).Raised? && attempt(j).fault.retryable
    decreases max - k
  {
    last := k;
    if attempt(k).Raised? { last := AcquireGets(max, attempt, k + 1); }
  }

  /** Without either there was no attempt to make. */
  lemma {:induction false} AcquireDecides(max: int, attempt: int -> Attempt, k: int)
    ensures var a := Acquire(max, attempt, k);
            if k > max then a == Acquired(None, None, 0) else a.stream.Some? != a.fault.Some?
    decreases max - k
  {
    if k < max && attempt(k).Raised? && attempt(k).fault.retryable { AcquireDecides(max, attempt, k + 1); }
  }

  // ---- Usage ----

  function InOf(u: Usage): int { if u.Usage? && u.input.Number? then u.input.n else 0 }

  function OutOf(u: Usage): int { if u.Usage? && u.output.Number? then u.output.n else 0 }

  /** What the first chunks of a stream report; `honest` counts only reports of which both halves can be read. */
  function Reports(chunks: seq<Chunk>, honest: bool): Tokens {
    if chunks == [] then Tokens(0, 0)
    else
      var u, rest := chunks[0].usage, Reports(chunks[1..], honest);
      if honest && u.Usage? && (u.input.Bad? || u.output.Bad?) then rest
      else Tokens(InOf(u) + rest.input, OutOf(u) + rest.output)
  }

  /** A stream is read chunk by chunk to its end or to the token limit; all it has reported is counted, and with a
      breaker all that can be read is billed. */
  lemma {:induction false} DrinkCounts(c: Config, chunks: seq<Chunk>, s: Sip) returns (n: nat)
    requires !s.stopped
    ensures var d := Drink(c, chunks, s);
            && n <= |chunks| && (!d.stopped ==> n == |chunks|)
            && d.used == Tokens(s.used.input + Reports(chunks[..n], false).input, s.used.output + Reports(chunks[..n], false).output)
            && d.billed == if c.breaker
                           then Tokens(s.billed.input + Reports(chunks[..n], true).input, s.billed.output + Reports(chunks[..n], true).output)
                           else s.billed
  {
    hide Full, Cut;
    if chunks == [] {
      n := 0;
      assert chunks[..0] == [];
    } else {
      var t := TakeChunk(c, chunks[0], s);
      if t.stopped {
        n := 1;
        assert chunks[..1] == [chunks[0]] && chunks[..1][1..] == [];
        DrinkDone(c, chunks[1..], t);
      } else {
        var m := DrinkCounts(c, chunks[1..], t);
        n := m + 1;
        assert chunks[..n][0] == chunks[0] && chunks[..n][1..] == chunks[1..][..m];
      }
    }
  }

  // ---- Broken streams ----

  /** A stream that breaks is tried again exactly while fewer iterations than attempts have begun and its fault is
      worth it, with the text of before; else it ends the run, with its text and its error behind it. */
  lemma BrokenStreamIff(c: Config, r: Round, s: State, f: Fault)
    requires var acq := Acquire(c.maxAttempts, r.attempt, 1);
             && acq.stream.Some? && acq.stream.value.fault == Some(f) && !s.terminated
             && !Drink(c, acq.stream.value.chunks, StartSip(s)).stopped
    ensures var t, chunks := Body(c, r, s), Acquire(c.maxAttempts, r.attempt, 1).stream.value.chunks;
            if s.iterations + 1 < c.maxAttempts && f.retryable then !t.terminated && t.buffer == s.buffer
            else && t.terminated && t.reason == (if f.timeout then LlmTimeout else LlmError)
                 && t.buffer == s.buffer + Texts(chunks) + ("\n[ERROR: " + f.message + "]")
  {
    hide Acquire, Drink, AfterStream, Texts, Full, Cut, Asks;
    var acq := Acquire(c.maxAttempts, r.attempt, 1);
    assert StartSip(Started(s, acq)) == StartSip(s);
    assert acq.fault.None? by { AcquireDecides(c.maxAttempts, r.attempt, 1); }
    var n := DrinkReaches(c, TheStream(acq).chunks, StartSip(s));
  }

  /** No stream at all ends the run with the error. */
  lemma NoStreamEnds(c: Config, r: Round, s: State)
    requires Acquire(c.maxAttempts, r.attempt, 1).fault.Some?
    ensures var t, f := Body(c, r, s), Acquire(c.maxAttempts, r.attempt, 1).fault.value;
            && t.terminated && t.reason == (if f.timeout then LlmTimeout else LlmError)
            && t.buffer == s.buffer + ("\n[ERROR: " + f.message + "]") && t.echoes == s.echoes
  {
    hide Acquire;
  }

  // ---- Folding ----

  /** The context is folded exactly beyond half the limit, and then the text is marked, once, with the banner. */
  lemma FoldIff(c: Config, r: Round, s: State)
    ensures var half := c.tokenLimit.Some? && (2 * (|s.buffer| / 4) > c.tokenLimit.value || 2 * r.contextAfter > c.tokenLimit.value);
            var t := Fold(c, r, s);
            if c.context && half && r.folded.Some?
            then t == s.(truncated := true, buffer := if s.truncated then s.buffer else "[" + r.folded.value + "]\n" + s.buffer)
            else t == s
  {}

  // ---- The decision ----

  /** Some tool that was asked for has worked. */
  predicate Worked(r: Round, asked: bool) { asked && exists i | 0 <= i < |r.tools| :: r.tools[i].ok }

  /** After the stream, the tools, the gate and the folding: the budget ends the run, then the limit; else a checkpoint
      is written, and a run whose tools have worked, or that has text and asked for none, is completed if it is
      verified or there is no ledger; unverified it goes on until the last iteration.  All else goes on. */
  lemma DecisionIff(c: Config, r: Round, asked: bool, s: State)
    requires !s.terminated
    ensures var t := Conclude(c, r, asked, s);
            var saved := s.(saves := s.saves + [Save(s.iterations, s.reason, false)]);
            var answered := if asked then Worked(r, asked) else exists i | 0 <= i < |s.buffer| :: !IsSpace(s.buffer[i]);
            if c.breaker && r.overBudget then t == s.(reason := BudgetFallback, terminated := true)
            else if AtLimit(c, s.buffer, 0) then
              t == s.(reason := TokenLimit, terminated := true, truncated := true, buffer := t.buffer) && (s.truncated ==> t.buffer == s.buffer)
            else if answered && (s.verified || !c.ledger) then t == saved.(reason := Completed, terminated := true)
            else if answered && s.iterations >= c.maxIterations then t == saved.(reason := GroundingFailed, terminated := true)
            else t == saved
  {
    FullMeans(c, s.buffer, 0);
    AnyOkIff(r.tools);
    BlankIff(s.buffer);
    hide Full, Cut, AnyOk, Blank, IsSpace;
  }

  lemma AnyOkIff(tools: seq<Tool>)
    ensures AnyOk(tools) <==> exists i | 0 <= i < |tools| :: tools[i].ok
  {
    assert forall i | 0 <= i < |tools| :: tools[i] in tools;
  }

  lemma BlankIff(s: string)
    ensures Blank(s) <==> !exists i | 0 <= i < |s| :: !IsSpace(s[i])
  {
    assert forall i | 0 <= i < |s| :: s[i] in s;
  }

  /** The verdict is that of the gate if there is a ledger, and good without one. */
  lemma VerdictIff(c: Config, r: Round, asked: bool, s: State)
    ensures var e := s.buffer + if asked then Joined(Echoes(r.tools)) else "";
            var t := Judge(c, r, Equip(r, asked, s));
            && t.buffer == e && t.echoes == s.echoes + (if asked then Echoes(r.tools) else [])
            && (t.verified <==> c.ledger ==> Gate(r.ledger, Peel(e, t.echoes)))
  {
    hide Gate, Peel, Joined, Echoes;
    assert s.buffer + "" == s.buffer && s.echoes + [] == s.echoes;
  }
}
