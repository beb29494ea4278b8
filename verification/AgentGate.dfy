/** What the grounding gate looks at: the model's own text, with a blank for every tool result. */
module AgentGate {
  import opened Wrappers
  import opened Text
  import opened AgentLoop

  // ---- Replacing ----

  lemma OccursLater(p: string, s: string, k: nat) returns (i: nat)
    requires k <= |s| && Occurs(p, s[k..])
    ensures k <= i <= |s| && p <= s[i..] && Occurs(p, s)
  {
    var j :| 0 <= j <= |s[k..]| && p <= s[k..][j..];
    i := k + j;
    assert s[k..][j..] == s[i..];
  }

  lemma OccursFirst(p: string, s: string)
    ensures |s| >= |p| && s[..|p|] == p ==> Occurs(p, s)
  {
    assert s[0..] == s;
  }

  lemma ReplaceStep(s: string, p: string)
    requires p != []
    ensures Replace(s, p) == if |s| < |p| then s
                             else if s[..|p|] == p then " " + Replace(s[|p|..], p) else [s[0]] + Replace(s[1..], p)
  {}

  /** Where p does not occur, nothing changes. */
  lemma {:induction false} ReplaceNone(s: string, p: string)
    requires p != [] && !Occurs(p, s)
    ensures Replace(s, p) == s
  {
    hide Occurs, Replace;
    ReplaceStep(s, p);
    OccursFirst(p, s);
    if |s| >= |p| {
      if Occurs(p, s[1..]) {
        var i := OccursLater(p, s, 1);
        assert false;
      }
      ReplaceNone(s[1..], p);
    }
  }

  lemma SliceShift(s: string, k: nat, n: nat)
    requires 0 < k && k + n <= |s|
    ensures s[1..][k - 1..k - 1 + n] == s[k..k + n] && s[1..][k - 1 + n..] == s[k + n..]
  {
    var t := s[1..];
    assert forall i | 0 <= i < |t| :: t[i] == s[i + 1];
  }

  /** The first place where a text occurs gives way to a blank, and the rest is treated alike. */
  lemma {:induction false} ReplaceFirst(s: string, p: string, k: nat)
    requires p != [] && k + |p| <= |s| && s[k..k + |p|] == p
    requires forall i | 0 <= i < k :: !(p <= s[i..])
    ensures Replace(s, p) == s[..k] + " " + Replace(s[k + |p|..], p)
  {
    hide Replace;
    ReplaceStep(s, p);
    if k == 0 {
      assert s[..0] == [];
    } else {
      assert s[0..] == s && !(p <= s[0..]);
      assert forall i | 0 <= i < k - 1 :: s[1..][i..] == s[i + 1..];
      SliceShift(s, k, |p|);
      ReplaceFirst(s[1..], p, k - 1);
      assert s[..k] == [s[0]] + s[1..][..k - 1];
    }
  }

  /** The text p stands at k, and nowhere else. */
  ghost predicate Lone(s: string, p: string, k: nat) {
    p != [] && k + |p| <= |s| && s[k..k + |p|] == p && forall i | 0 <= i <= |s| && i != k :: !(p <= s[i..])
  }

  lemma ReplaceLone(s: string, p: string, k: nat)
    requires Lone(s, p, k)
    ensures Replace(s, p) == s[..k] + " " + s[k + |p|..]
  {
    hide Replace, Occurs;
    ReplaceFirst(s, p, k);
    if Occurs(p, s[k + |p|..]) {
      var i := OccursLater(p, s, k + |p|);
      assert false;
    }
    ReplaceNone(s[k + |p|..], p);
  }

  // ---- Texts with something between them ----

  function Concat(parts: seq<string>): string { if parts == [] then "" else parts[0] + Concat(parts[1..]) }

  /** The texts with the fillings between them. */
  function Mix(texts: seq<string>, fill: seq<string>): string
    requires |texts| == |fill| + 1
  {
    if fill == [] then texts[0] else texts[0] + fill[0] + Mix(texts[1..], fill[1..])
  }

  /** Where filling i stands. */
  function Place(texts: seq<string>, fill: seq<string>, i: nat): nat
    requires |texts| == |fill| + 1 && i < |fill|
  {
    |Mix(texts[..i + 1], fill[..i])|
  }

  lemma {:induction false} MixSplit(texts: seq<string>, fill: seq<string>, i: nat)
    requires |texts| == |fill| + 1 && i < |fill|
    ensures Mix(texts, fill) == Mix(texts[..i + 1], fill[..i]) + fill[i] + Mix(texts[i + 1..], fill[i + 1..])
  {
    if i > 0 {
      MixSplit(texts[1..], fill[1..], i - 1);
      assert texts[..i + 1][1..] == texts[1..][..i] && fill[..i][1..] == fill[1..][..i - 1];
      assert texts[1..][i..] == texts[i + 1..] && fill[1..][i..] == fill[i + 1..];
    }
  }

  function Blanks(n: nat): seq<string> { seq(n, _ => " ") }

  /** The fillings after the first i have been blanked out; an empty one has nothing to blank out. */
  function Stage(echoes: seq<string>, i: nat): seq<string>
    requires i <= |echoes|
  {
    seq(|echoes|, j requires 0 <= j < |echoes| => if j < i && echoes[j] != "" then " " else echoes[j])
  }

  /** When its turn comes, each echo stands in its place only. */
  ghost predicate AllLone(texts: seq<string>, echoes: seq<string>)
    requires |texts| == |echoes| + 1
  {
    forall i | 0 <= i < |echoes| && echoes[i] != "" ::
      Lone(Mix(texts, Stage(echoes, i)), echoes[i], Place(texts, Stage(echoes, i), i))
  }

  lemma PeelStep(texts: seq<string>, echoes: seq<string>, i: nat)
    requires |texts| == |echoes| + 1 && i < |echoes| && AllLone(texts, echoes) && echoes[i] != ""
    ensures Replace(Mix(texts, Stage(echoes, i)), echoes[i]) == Mix(texts, Stage(echoes, i + 1))
  {
    hide Replace, Lone, Mix;
    var a, b := Stage(echoes, i), Stage(echoes, i + 1);
    var k, s := Place(texts, a, i), Mix(texts, a);
    assert Lone(s, echoes[i], k);
    ReplaceLone(s, echoes[i], k);
    MixSplit(texts, a, i);
    MixSplit(texts, b, i);
    assert a[..i] == b[..i] && a[i + 1..] == b[i + 1..] && a[i] == echoes[i] && b[i] == " ";
    var front, back := Mix(texts[..i + 1], a[..i]), Mix(texts[i + 1..], a[i + 1..]);
    assert s == front + echoes[i] + back && k == |front|;
    assert s[..k] == front && s[k + |echoes[i]|..] == back;
  }

  lemma {:induction false} PeelStages(texts: seq<string>, echoes: seq<string>, i: nat)
    requires |texts| == |echoes| + 1 && i <= |echoes| && AllLone(texts, echoes)
    ensures Peel(Mix(texts, echoes), echoes[..i]) == Mix(texts, Stage(echoes, i))
  {
    hide Replace, Mix, AllLone;
    if i == 0 {
      assert Stage(echoes, 0) == echoes;
    } else {
      PeelStages(texts, echoes, i - 1);
      assert echoes[..i][..i - 1] == echoes[..i - 1];
      if echoes[i - 1] == "" {
        assert Stage(echoes, i) == Stage(echoes, i - 1);
      } else {
        PeelStep(texts, echoes, i - 1);
      }
    }
  }

  /** Of a text made up of model texts and echoes that stand nowhere else, the model texts are left, with one blank for
      each echo. */
  lemma PeelMeans(texts: seq<string>, echoes: seq<string>)
    requires |texts| == |echoes| + 1 && AllLone(texts, echoes)
    ensures Peel(Mix(texts, echoes), echoes) == Mix(texts, Stage(echoes, |echoes|))
    ensures (forall e <- echoes :: e != "") ==> Stage(echoes, |echoes|) == Blanks(|echoes|)
  {
    PeelStages(texts, echoes, |echoes|);
    assert echoes[..|echoes|] == echoes;
    assert forall i | 0 <= i < |echoes| :: echoes[i] in echoes;
  }

  // ---- What a run is made up of ----

  function EchoList(tools: seq<Tool>): seq<string> { if tools == [] then [] else [tools[0].echo] + EchoList(tools[1..]) }

  lemma {:induction false} EchoesAreList(tools: seq<Tool>)
    ensures Echoes(tools) == EchoList(tools)
  {
    if tools != [] {
      EchoesAreList(tools[1..]);
      assert Echoes(tools) == [tools[0].echo] + Echoes(tools[1..]);
    }
  }

  lemma {:induction false} ConcatSnoc(parts: seq<string>, x: string)
    ensures Concat(parts + [x]) == Concat(parts) + x
  {
    if parts != [] {
      ConcatSnoc(parts[1..], x);
      assert (parts + [x])[1..] == parts[1..] + [x];
    } else {
      assert [x][1..] == [] && ([] + [x]) == [x];
    }
  }

  lemma {:induction false} JoinedIsConcat(parts: seq<string>)
    ensures Joined(parts) == Concat(parts)
  {
    if parts != [] {
      var n := |parts| - 1;
      JoinedIsConcat(parts[..n]);
      ConcatSnoc(parts[..n], parts[n]);
      assert parts[..n] + [parts[n]] == parts;
    }
  }

  /** The texts of the model, or the error that ends the run, and the results of the tools it has asked for: what an
      iteration keeps. */
  datatype Share = Share(text: string, echoes: seq<string>)

  function ShareOf(c: Config, r: Round, iteration: nat): Share {
    var acq := Acquire(c.maxAttempts, r.attempt, 1);
    if acq.fault.Some? then Share("\n[ERROR: " + acq.fault.value.message + "]", [])
    else if acq.stream.None? then Share("", [])
    else
      var stream := acq.stream.value;
      if stream.fault.Some? then
        if iteration < c.maxAttempts && stream.fault.value.retryable then Share("", [])
        else Share(Texts(stream.chunks) + ("\n[ERROR: " + stream.fault.value.message + "]"), [])
      else Share(Texts(stream.chunks), if exists ch <- stream.chunks :: ch.asks then EchoList(r.tools) else [])
  }

  /** The own texts of `n` iterations from number `from` on, and their echoes. */
  function ModelTexts(c: Config, env: nat -> Round, from: nat, n: nat): string
    decreases n
  {
    if n == 0 then "" else ShareOf(c, env(from), from + 1).text + ModelTexts(c, env, from + 1, n - 1)
  }

  function ToolEchoes(c: Config, env: nat -> Round, from: nat, n: nat): seq<string>
    decreases n
  {
    if n == 0 then [] else ShareOf(c, env(from), from + 1).echoes + ToolEchoes(c, env, from + 1, n - 1)
  }

  lemma KeptIsShare(c: Config, r: Round, iteration: nat)
    ensures Kept(c, r, iteration) == ShareOf(c, r, iteration).text + Concat(ShareOf(c, r, iteration).echoes)
  {
    hide Acquire, Texts;
    NoTexts();
    NobodyAsks();
    EchoesAreList(r.tools);
    JoinedIsConcat(EchoList(r.tools));
    var sh := ShareOf(c, r, iteration);
    assert sh.text + "" == sh.text;
    hide Echoes, Joined, EchoList;
  }

  lemma BodyKeepsEchoes(c: Config, r: Round, s: State)
    requires c.tokenLimit.None?
    ensures Body(c, r, s).echoes == s.echoes + ShareOf(c, r, s.iterations + 1).echoes
  {
    hide Acquire, Drink, Texts, EchoList, Gate, Peel, AnyOk, Joined, Blank;
    var acq := Acquire(c.maxAttempts, r.attempt, 1);
    var stream := TheStream(acq);
    DrinkTexts(c, stream.chunks, StartSip(Started(s, acq)));
    EchoesAreList(r.tools);
    hide Echoes;
    assert s.echoes + [] == s.echoes;
  }

  lemma {:induction false} LoopEchoes(c: Config, env: nat -> Round, s: State)
    requires c.tokenLimit.None?
    ensures var t := Loop(c, env, s);
            t.iterations >= s.iterations && t.echoes == s.echoes + ToolEchoes(c, env, s.iterations, t.iterations - s.iterations)
    decreases Left(c, s), if s.terminated then 0 else 1
  {
    hide Body, ShareOf;
    if s.terminated || Head(c, env(s.iterations), s).terminated {
      assert s.echoes + [] == s.echoes;
    } else {
      var b := Body(c, env(s.iterations), s);
      BodyKeepsEchoes(c, env(s.iterations), s);
      LoopEchoes(c, env, b);
      var k, rest := ShareOf(c, env(s.iterations), s.iterations + 1).echoes, ToolEchoes(c, env, b.iterations, Loop(c, env, b).iterations - b.iterations);
      assert s.echoes + k + rest == s.echoes + (k + rest);
    }
  }

  /** A text with some fillings behind it, in front of a mix. */
  lemma {:induction false} Leading(t: string, es: seq<string>, texts: seq<string>, fill: seq<string>) returns (more: seq<string>)
    requires |texts| == |fill| + 1
    ensures |more| == |es + fill| + 1 && Mix(more, es + fill) == t + Concat(es) + Mix(texts, fill)
    ensures Concat(more) == t + Concat(texts)
    decreases |es|
  {
    if es == [] {
      more := [t + texts[0]] + texts[1..];
      assert es + fill == fill && more[1..] == texts[1..] && t + Concat([]) == t;
      LeadingNone(t, texts, fill, more);
    } else {
      var rest := Leading("", es[1..], texts, fill);
      more := [t] + rest;
      assert more[1..] == rest && (es + fill)[1..] == es[1..] + fill && (es + fill)[0] == es[0];
      hide Mix;
      MixCons(more, es + fill);
      var x, y := Concat(es[1..]), Mix(texts, fill);
      assert "" + x + y == x + y;
      assert t + es[0] + (x + y) == t + (es[0] + x) + y;
      assert "" + Concat(texts) == Concat(texts);
    }
  }

  lemma LeadingNone(t: string, texts: seq<string>, fill: seq<string>, more: seq<string>)
    requires |texts| == |fill| + 1 && more == [t + texts[0]] + texts[1..] && more[1..] == texts[1..]
    ensures Mix(more, fill) == t + Mix(texts, fill) && Concat(more) == t + Concat(texts)
  {
    assert Concat(more) == t + texts[0] + Concat(texts[1..]) && Concat(texts) == texts[0] + Concat(texts[1..]);
    Associate(t, texts[0], Concat(texts[1..]));
    if fill == [] {
      assert Mix(more, fill) == t + texts[0] && Mix(texts, fill) == texts[0];
    } else {
      MixCons(more, fill);
      MixCons(texts, fill);
      hide Mix, Concat;
      Associate(t, texts[0], fill[0]);
      Associate(t, texts[0] + fill[0], Mix(texts[1..], fill[1..]));
    }
  }

  lemma Associate(x: string, y: string, z: string)
    ensures x + (y + z) == x + y + z
  {}

  lemma MixCons(texts: seq<string>, fill: seq<string>)
    requires |texts| == |fill| + 1 && fill != []
    ensures Mix(texts, fill) == texts[0] + fill[0] + Mix(texts[1..], fill[1..])
  {}

  /** The transcript of a run is made up of the model's own texts, in order, and all echoes between them. */
  lemma {:induction false} TranscriptIsMix(c: Config, env: nat -> Round, from: nat, n: nat) returns (texts: seq<string>)
    ensures var echoes := ToolEchoes(c, env, from, n);
            && |texts| == |echoes| + 1 && Mix(texts, echoes) == Transcript(c, env, from, n)
            && Concat(texts) == ModelTexts(c, env, from, n)
    decreases n
  {
    hide Kept, ShareOf, Concat;
    if n == 0 {
      texts := [""];
      assert Concat([""]) == "" by { ConcatOne(""); }
    } else {
      var rest := TranscriptIsMix(c, env, from + 1, n - 1);
      var sh := ShareOf(c, env(from), from + 1);
      KeptIsShare(c, env(from), from + 1);
      hide Mix;
      texts := Leading(sh.text, sh.echoes, rest, ToolEchoes(c, env, from + 1, n - 1));
    }
  }

  lemma ConcatOne(x: string)
    ensures Concat([x]) == x
  {
    assert [x][1..] == [] && x + "" == x;
  }

  // ---- What is judged ----

  lemma AfterStreamJudges(c: Config, r: Round, asked: bool, s: State)
    requires c.tokenLimit.None? && c.ledger
    ensures var t := AfterStream(c, r, asked, s); t.judged == Peel(t.buffer, t.echoes)
  {
    hide Gate, Peel, Joined, Echoes, AnyOk, Blank;
  }

  lemma BodyJudges(c: Config, r: Round, s: State)
    requires c.tokenLimit.None? && c.ledger && !s.terminated
    requires Body(c, r, s).terminated && Body(c, r, s).reason == Completed
    ensures var t := Body(c, r, s); t.judged == Peel(t.buffer, t.echoes)
  {
    hide Acquire, Drink, AfterStream, Peel;
    var acq := Acquire(c.maxAttempts, r.attempt, 1);
    var t := Started(s, acq);
    var sip := Drink(c, TheStream(acq).chunks, StartSip(t));
    DrinkTexts(c, TheStream(acq).chunks, StartSip(t));
    AfterStreamJudges(c, r, sip.asked,
      t.(billed := sip.billed, leaked := sip.leaked, truncated := sip.truncated, buffer := sip.buffer, used := sip.used));
  }

  lemma {:induction false} LoopJudges(c: Config, env: nat -> Round, s: State)
    requires c.tokenLimit.None? && c.ledger && !s.terminated && Loop(c, env, s).reason == Completed
    ensures var t := Loop(c, env, s); t.judged == Peel(t.buffer, t.echoes)
    decreases Left(c, s)
  {
    hide Body, Peel;
    var r := env(s.iterations);
    var h := Head(c, r, s);
    if !h.terminated {
      var b := Body(c, r, h);
      if b.terminated { BodyJudges(c, r, h); } else { LoopJudges(c, env, b); }
    }
  }

  /** The gate, in terms of the text: it makes no price claim, or one of them is accepted for a symbol that it names, or
      for the first symbol of the ledger. */
  lemma GateIff(l: Ledger, text: string)
    ensures Gate(l, text) <==>
              && !l.broken
              && (l.claims(text) == []
                  || exists sym, n | sym in l.symbols && n in l.claims(text) ::
                       l.accepts(sym, n) && (sym == l.symbols[0] || exists a: string, b: string :: text == a + sym + b))
  {
    forall sym: string ensures Occurs(sym, text) <==> exists a: string, b: string :: text == a + sym + b {
      OccursMeans(sym, text);
    }
    hide Occurs;
    if l.symbols != [] { assert l.symbols[0] in l.symbols; }
  }

  /** A run with a ledger and without a token limit that ends as completed: its text consists of the model's own texts
      and the echoes of the tools; if these stand nowhere else, the gate has seen the model's own texts alone, with
      blanks between them, and they make no price claim or one that the ledger has accepted. */
  lemma OnlyModelTextIsJudged(c: Config, env: nat -> Round, truncated: bool) returns (texts: seq<string>)
    requires c.tokenLimit.None? && c.ledger && Loop(c, env, Init(truncated)).reason == Completed
    ensures var t := Loop(c, env, Init(truncated));
            && t.echoes == ToolEchoes(c, env, 0, t.iterations)
            && |texts| == |t.echoes| + 1 && t.buffer == Mix(texts, t.echoes)
            && Concat(texts) == ModelTexts(c, env, 0, t.iterations)
            && t.iterations > 0 && Gate(env(t.iterations - 1).ledger, t.judged)
            && (AllLone(texts, t.echoes) ==> t.judged == Mix(texts, Stage(t.echoes, |t.echoes|)))
  {
    hide Loop, Mix, Concat, AllLone, Peel, Gate;
    var s, t := Init(truncated), Loop(c, env, Init(truncated));
    CompletedIsGrounded(c, env, s);
    GroundedGate(env(t.iterations - 1), t);
    LoopTranscript(c, env, s);
    LoopEchoes(c, env, s);
    LoopJudges(c, env, s);
    assert [] + Transcript(c, env, 0, t.iterations) == Transcript(c, env, 0, t.iterations);
    assert [] + ToolEchoes(c, env, 0, t.iterations) == ToolEchoes(c, env, 0, t.iterations);
    texts := TranscriptIsMix(c, env, 0, t.iterations);
    if AllLone(texts, t.echoes) { PeelMeans(texts, t.echoes); }
  }

  lemma GroundedGate(r: Round, t: State)
    requires GroundedBy(r, t)
    ensures Gate(r.ledger, t.judged)
  {}
}
