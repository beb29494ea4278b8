/** The fetch reader of the chat page: an incremental framer for server-sent events.

    The browser hands the page decoded text in arbitrary pieces.  `Outcome` is what the page
    does with a list of pieces, and the theorems say when that depends on the text alone.
 */
module SseReader {

  const DONE := "[DONE]"

  /** JavaScript white space, as `trim` and `\s` see it. */
  predicate IsSpace(c: char) {
    || '\t' <= c <= '\r' || c == ' ' || c == '\U{00A0}' || c == '\U{1680}'
    || '\U{2000}' <= c <= '\U{200A}' || '\U{2028}' <= c <= '\U{2029}' || c == '\U{202F}'
    || c == '\U{205F}' || c == '\U{3000}' || c == '\U{FEFF}'
  }

  function TrimLeft(s: string): (t: string)
    ensures t == "" <==> AllSpace(s)
  {
    if s != "" && IsSpace(s[0]) then TrimLeft(s[1..]) else s
  }

  function TrimRight(s: string): (t: string)
    ensures t == "" <==> AllSpace(s)
    ensures |t| <= |s|
  {
    if s != "" && IsSpace(s[|s| - 1]) then TrimRight(s[..|s| - 1]) else s
  }

  function Trim(s: string): string { TrimRight(TrimLeft(s)) }

  predicate AllSpace(s: string) { forall c <- s :: IsSpace(c) }

  // ---- One frame: the data lines of an event ----

  function ConsLine(c: char, ls: seq<string>): seq<string>
    requires ls != []
  {
    if c == '\n' then [""] + ls else [[c] + ls[0]] + ls[1..]
  }

  function SplitLines(s: string): (ls: seq<string>)
    ensures ls != []
  {
    if s == "" then [""] else ConsLine(s[0], SplitLines(s[1..]))
  }

  /** The line starts with `data:`. */
  predicate IsData(l: string) {
    |l| >= 5 && l[0] == 'd' && l[1] == 'a' && l[2] == 't' && l[3] == 'a' && l[4] == ':'
  }

  function DataLines(ls: seq<string>): seq<string> {
    if ls == [] then []
    else (if IsData(ls[0]) then [TrimLeft(ls[0][5..])] else []) + DataLines(ls[1..])
  }

  function Join(ls: seq<string>): string {
    if ls == [] then "" else if |ls| == 1 then ls[0] else ls[0] + "\n" + Join(ls[1..])
  }

  function FrameLines(text: string): seq<string> { DataLines(SplitLines(text)) }

  function FrameData(text: string): string { Join(FrameLines(text)) }

  // ---- The reader ----

  predicate StartsCrLf(s: string) { |s| >= 2 && s[0] == '\r' && s[1] == '\n' }

  /** `\r\n` to `\n`, in one pass from the left. */
  function Norm(s: string): (t: string)
    ensures |t| <= |s|
    ensures t == "" <==> s == ""
  {
    if s == "" then ""
    else if StartsCrLf(s) then "\n" + Norm(s[2..])
    else [s[0]] + Norm(s[1..])
  }

  /** Where the first blank line starts, or -1. */
  function FindBreak(s: string): (k: int)
    ensures -1 <= k
    ensures k >= 0 ==> k + 2 <= |s| && s[k] == '\n' && s[k + 1] == '\n'
    ensures forall i | 0 <= i && i + 1 < |s| && (k == -1 || i < k) :: s[i] != '\n' || s[i + 1] != '\n'
  {
    if |s| < 2 then -1
    else if s[0] == '\n' && s[1] == '\n' then 0
    else
      var k := FindBreak(s[1..]);
      assert forall i | 1 <= i && i + 1 < |s| :: s[i] == s[1..][i - 1] && s[i + 1] == s[1..][i];
      if k < 0 then -1 else k + 1
  }

  /** `buffer` is the unread text, `out` the payloads handed to the handler so far; `done` after a
      `[DONE]` frame, `failed` when the handler raised on the last payload. */
  datatype Reader = Reader(buffer: string, out: seq<string>, done: bool, failed: bool) {
    predicate Stopped() { done || failed }
  }

  const INIT := Reader("", [], false, false)

  function Hand(r: Reader, payload: string, fatal: string -> bool): Reader {
    if payload == DONE then r.(done := true)
    else r.(out := r.out + [payload], failed := fatal(payload))
  }

  function OnFrame(r: Reader, raw: string, fatal: string -> bool): Reader {
    if Trim(raw) == "" || FrameLines(raw) == [] then r else Hand(r, FrameData(raw), fatal)
  }

  /** Cut and handle complete frames until none is left. */
  function Drain(r: Reader, fatal: string -> bool): Reader
    decreases |r.buffer|
  {
    var k := FindBreak(r.buffer);
    if r.Stopped() || k < 0 then r
    else Drain(OnFrame(r.(buffer := r.buffer[k + 2..]), r.buffer[..k], fatal), fatal)
  }

  function Feed(r: Reader, chunk: string, fatal: string -> bool): Reader {
    if r.Stopped() then r else Drain(r.(buffer := Norm(r.buffer + chunk)), fatal)
  }

  function Run(chunks: seq<string>, fatal: string -> bool): Reader {
    if chunks == [] then INIT else Feed(Run(chunks[..|chunks| - 1], fatal), chunks[|chunks| - 1], fatal)
  }

  /** The last, unterminated frame. */
  function Tail(text: string): string { Trim(FrameData(text)) }

  function Finish(r: Reader, flush: string, fatal: string -> bool): Reader {
    var rest := r.buffer + flush;
    if r.failed || Trim(rest) == "" || Tail(rest) == "" then r else Hand(r, Tail(rest), fatal)
  }

  /** The payloads handed over, and whether the stream closed properly or the handler raised. */
  datatype Result = Result(payloads: seq<string>, gotDone: bool, threw: bool)

  function Outcome(chunks: seq<string>, flush: string, fatal: string -> bool): Result {
    var r := Finish(Run(chunks, fatal), flush, fatal);
    Result(r.out, r.done, r.failed)
  }

  // ---- The loops of the page, refining the functions above ----

  lemma DrainIdle(r: Reader, fatal: string -> bool)
    requires r.done || r.failed || FindBreak(r.buffer) < 0
    ensures Drain(r, fatal) == r
  {}

  lemma DrainStep(r: Reader, fatal: string -> bool)
    requires !r.done && !r.failed && FindBreak(r.buffer) >= 0
    ensures var k := FindBreak(r.buffer);
            Drain(r, fatal) == Drain(OnFrame(r.(buffer := r.buffer[k + 2..]), r.buffer[..k], fatal), fatal)
  {}

  /** The inner loop: cut complete frames off the buffer until none is left or the stream stops. */
  method DrainFrames(r0: Reader, fatal: string -> bool) returns (r: Reader)
    ensures r == Drain(r0, fatal)
  {
    r := r0;
    var idx := FindBreak(r.buffer);
    while idx >= 0 && !r.done && !r.failed
      invariant idx == FindBreak(r.buffer)
      invariant Drain(r, fatal) == Drain(r0, fatal)
      decreases |r.buffer|
    {
      DrainStep(r, fatal);
      var raw := r.buffer[..idx];
      r := r.(buffer := r.buffer[idx + 2..]);
      r := HandleFrame(r, raw, fatal);
      idx := FindBreak(r.buffer);
    }
  }

  /** One frame: hand over its data unless it is blank, has no data line, or is the end marker. */
  method HandleFrame(r0: Reader, raw: string, fatal: string -> bool) returns (r: Reader)
    ensures r == OnFrame(r0, raw, fatal)
  {
    r := r0;
    if Trim(raw) != "" {
      var dataLines := FrameLines(raw);
      if dataLines != [] {
        var data := Join(dataLines);
        if data == DONE {
          r := r.(done := true);
        } else {
          r := r.(out := r.out + [data], failed := fatal(data));
        }
      }
    }
  }

  /** The whole reader: read pieces until the stream ends or stops, then flush the tail. */
  method FetchFallback(chunks: seq<string>, flush: string, fatal: string -> bool) returns (res: Result)
    ensures res == Outcome(chunks, flush, fatal)
  {
    var r := INIT;
    var i := 0;
    while i < |chunks| && !r.done && !r.failed
      invariant 0 <= i <= |chunks|
      invariant r == Run(chunks[..i], fatal)
    {
      r := r.(buffer := Norm(r.buffer + chunks[i]));
      r := DrainFrames(r, fatal);
      assert chunks[..i + 1][..i] == chunks[..i];
      i := i + 1;
    }
    if i < |chunks| {
      StoppedIsFinal(chunks, i, fatal);
    } else {
      assert chunks[..i] == chunks;
    }
    if !r.failed {
      var rest := r.buffer + flush;
      if Trim(rest) != "" {
        var tailData := Trim(Join(FrameLines(rest)));
        if tailData != "" {
          if tailData == DONE {
            r := r.(done := true);
          } else {
            r := r.(out := r.out + [tailData], failed := fatal(tailData));
          }
        }
      }
    }
    res := Result(r.out, r.done, r.failed);
  }

  lemma {:induction false} StoppedIsFinal(chunks: seq<string>, i: nat, fatal: string -> bool)
    requires i <= |chunks| && Run(chunks[..i], fatal).Stopped()
    ensures Run(chunks, fatal) == Run(chunks[..i], fatal)
    decreases |chunks| - i
  {
    if i == |chunks| {
      assert chunks[..i] == chunks;
    } else {
      assert chunks[..i + 1][..i] == chunks[..i];
      StoppedIsFinal(chunks, i + 1, fatal);
    }
  }

  // ---- Line endings across a cut ----

  predicate NoCrLf(s: string) { forall i | 0 <= i && i + 1 < |s| :: s[i] != '\r' || s[i + 1] != '\n' }

  /** No carriage return stands directly before a CRLF. */
  predicate NoCrCrLf(s: string) {
    forall i | 0 <= i && i + 2 < |s| :: s[i] != '\r' || s[i + 1] != '\r' || s[i + 2] != '\n'
  }

  lemma {:induction false} NormClean(s: string)
    requires NoCrCrLf(s)
    ensures NoCrLf(Norm(s))
    ensures s != "" && s[0] != '\n' && !StartsCrLf(s) ==> Norm(s)[0] != '\n'
  {
    if s != "" {
      NormClean(if StartsCrLf(s) then s[2..] else s[1..]);
      if !StartsCrLf(s) && s[0] == '\r' && |s| > 1 {
        assert !StartsCrLf(s[1..]);
      }
    }
  }

  lemma {:induction false} NormOfClean(s: string)
    requires NoCrLf(s)
    ensures Norm(s) == s
  {
    if s != "" { NormOfClean(s[1..]); }
  }

  /** The cut between `a` and `b` separates a CR from its LF. */
  predicate SplitsPair(a: string, b: string) { a != "" && b != "" && a[|a| - 1] == '\r' && b[0] == '\n' }

  function DropLast(s: string): string
    requires s != ""
  {
    s[..|s| - 1]
  }

  lemma {:induction false} NormEndsInCr(s: string)
    requires s != ""
    ensures Norm(s)[|Norm(s)| - 1] == '\r' <==> s[|s| - 1] == '\r'
  {
    if StartsCrLf(s) {
      if |s| > 2 { NormEndsInCr(s[2..]); }
    } else if |s| > 1 {
      NormEndsInCr(s[1..]);
    }
  }

  /** The first line-ending unit of a text: its length and what it becomes. */
  function HeadLength(s: string): (n: nat)
    requires s != ""
    ensures n <= |s|
  {
    if StartsCrLf(s) then 2 else 1
  }

  function HeadText(s: string): string
    requires s != ""
  {
    if StartsCrLf(s) then "\n" else [s[0]]
  }

  lemma NormStep(s: string)
    requires s != ""
    ensures Norm(s) == HeadText(s) + Norm(s[HeadLength(s)..])
  {}

  /** Normalising `a` then `b` against normalising them together. */
  function Glue(x: string, y: string, split: bool): string
    requires split ==> x != ""
  {
    if split then DropLast(x) + y else x + y
  }

  lemma {:induction false} NormSplit(a: string, b: string)
    ensures Norm(a + b) == Glue(Norm(a), Norm(b), SplitsPair(a, b))
    decreases |a|
  {
    if a == "" {
      assert a + b == b;
    } else if |a| == 1 {
      NormSplitOne(a, b);
    } else {
      var n, h, rest := HeadLength(a), HeadText(a), a[HeadLength(a)..];
      assert (a + b)[n..] == rest + b && HeadText(a + b) == h && HeadLength(a + b) == n;
      assert SplitsPair(rest, b) == SplitsPair(a, b);
      hide *;
      NormSplit(rest, b);
      NormStep(a);
      NormStep(a + b);
      NormGlue(h, Norm(rest), Norm(b), SplitsPair(a, b));
    }
  }

  lemma NormGlue(h: string, x: string, y: string, split: bool)
    requires split ==> x != ""
    ensures split ==> h + x != ""
    ensures h + Glue(x, y, split) == Glue(h + x, y, split)
  {
    if split { assert DropLast(h + x) == h + DropLast(x); }
  }

  lemma NormSplitOne(a: string, b: string)
    requires |a| == 1
    ensures Norm(a + b) == Glue(Norm(a), Norm(b), SplitsPair(a, b))
  {
    assert (a + b)[1..] == b && Norm(a) == a;
    if SplitsPair(a, b) {
      assert (a + b)[2..] == b[1..];
      assert Norm(b) == "\n" + Norm(b[1..]);
    }
  }

  /** Every prefix of the normalised text is the normalised form of a prefix of the text. */
  lemma {:induction false} NormPrefix(s: string, m: nat) returns (k: nat)
    requires m <= |Norm(s)|
    ensures k <= |s| && Norm(s[..k]) == Norm(s)[..m]
    decreases |s|
  {
    if m == 0 {
      k := 0;
    } else {
      var n := HeadLength(s);
      NormStep(s);
      hide Norm;
      k := NormPrefix(s[n..], m - 1);
      k := k + n;
      assert s[..k][n..] == s[n..][..k - n];
      PrefixStep(s, k, m);
    }
  }

  lemma PrefixStep(s: string, k: nat, m: nat)
    requires s != "" && HeadLength(s) <= k <= |s| && 0 < m <= |Norm(s)|
    requires Norm(s[..k][HeadLength(s)..]) == Norm(s[HeadLength(s)..])[..m - 1]
    ensures Norm(s[..k]) == Norm(s)[..m]
  {
    NormStep(s);
    NormStep(s[..k]);
    hide Norm;
    assert StartsCrLf(s[..k]) == StartsCrLf(s);
    var h, t := HeadText(s), Norm(s[HeadLength(s)..]);
    assert (h + t)[..m] == h + t[..m - 1];
  }

  // ---- Draining text that arrives in two parts ----

  lemma FindBreakExtends(b: string, z: string)
    requires FindBreak(b) >= 0
    ensures FindBreak(b + z) == FindBreak(b)
  {
    var k := FindBreak(b);
    assert (b + z)[k] == '\n' && (b + z)[k + 1] == '\n';
    var k' := FindBreak(b + z);
    assert k' <= k;
    assert b[k'] == (b + z)[k'] && b[k' + 1] == (b + z)[k' + 1];
  }

  lemma FindBreakPrefix(b: string, m: nat)
    requires 0 <= FindBreak(b) && FindBreak(b) + 2 <= m <= |b|
    ensures FindBreak(b[..m]) == FindBreak(b)
  {
    var k := FindBreak(b);
    assert b[..m][k] == '\n' && b[..m][k + 1] == '\n';
    var k' := FindBreak(b[..m]);
    assert 0 <= k' <= k && b[k'] == b[..m][k'] && b[k' + 1] == b[..m][k' + 1];
  }

  lemma OnFrameKeepsBuffer(r: Reader, raw: string, fatal: string -> bool)
    ensures forall x: string :: OnFrame(r.(buffer := x), raw, fatal) == OnFrame(r, raw, fatal).(buffer := x)
  {}

  lemma {:induction false} DrainAppend(r: Reader, z: string, fatal: string -> bool)
    ensures var d := Drain(r, fatal);
            var e := d.(buffer := d.buffer + z);
            Drain(r.(buffer := r.buffer + z), fatal) == if d.Stopped() then e else Drain(e, fatal)
    decreases |r.buffer|
  {
    hide FindBreak;
    hide OnFrame;
    var k := FindBreak(r.buffer);
    if !r.Stopped() && k >= 0 {
      FindBreakExtends(r.buffer, z);
      DrainStep(r, fatal);
      DrainStep(r.(buffer := r.buffer + z), fatal);
      var rest, raw := r.buffer[k + 2..], r.buffer[..k];
      assert (r.buffer + z)[k + 2..] == rest + z && (r.buffer + z)[..k] == raw;
      OnFrameKeepsBuffer(r, raw, fatal);
      DrainAppend(OnFrame(r.(buffer := rest), raw, fatal), z, fatal);
    }
  }

  lemma {:induction false} DrainSuffix(r: Reader, fatal: string -> bool)
    ensures var d := Drain(r, fatal);
            && |d.buffer| <= |r.buffer| && d.buffer == r.buffer[|r.buffer| - |d.buffer|..]
            && (!d.done && !d.failed ==> FindBreak(d.buffer) < 0)
    decreases |r.buffer|
  {
    hide *;
    var k := FindBreak(r.buffer);
    if r.done || r.failed || k < 0 {
      DrainIdle(r, fatal);
    } else {
      DrainStep(r, fatal);
      OnFrameKeepsBuffer(r, r.buffer[..k], fatal);
      DrainSuffix(OnFrame(r.(buffer := r.buffer[k + 2..]), r.buffer[..k], fatal), fatal);
    }
  }

  lemma {:induction false} NeverBoth(r: Reader, fatal: string -> bool)
    requires !r.Stopped()
    ensures !Drain(r, fatal).done || !Drain(r, fatal).failed
    decreases |r.buffer|
  {
    var k := FindBreak(r.buffer);
    if k >= 0 {
      var next := OnFrame(r.(buffer := r.buffer[k + 2..]), r.buffer[..k], fatal);
      if !next.Stopped() { NeverBoth(next, fatal); }
    }
  }

  lemma DrainNeedsBreak(r: Reader, fatal: string -> bool)
    requires !r.done && !r.failed
    ensures Drain(r, fatal).done || Drain(r, fatal).failed ==> FindBreak(r.buffer) >= 0
  {}

  /** `DrainStep` when the text after the first frame is cut short. */
  lemma DrainShort(r: Reader, cut: nat, fatal: string -> bool)
    requires !r.done && !r.failed
    requires 0 <= FindBreak(r.buffer) && FindBreak(r.buffer) + 2 <= cut <= |r.buffer|
    ensures var k := FindBreak(r.buffer);
            var next := OnFrame(r, r.buffer[..k], fatal).(buffer := r.buffer[k + 2..][..cut - k - 2]);
            Drain(r.(buffer := r.buffer[..cut]), fatal) == Drain(next, fatal)
  {
    hide *;
    var k := FindBreak(r.buffer);
    var short := r.buffer[..cut];
    FindBreakPrefix(r.buffer, cut);
    DrainStep(r.(buffer := short), fatal);
    OnFrameKeepsBuffer(r, r.buffer[..k], fatal);
    assert short[k + 2..] == r.buffer[k + 2..][..cut - k - 2] && short[..k] == r.buffer[..k];
  }

  /** The text a stopped reader has consumed is enough to stop it. */
  lemma {:induction false} DrainConsumed(r: Reader, fatal: string -> bool) returns (cut: nat)
    requires !r.done && !r.failed
    requires Drain(r, fatal).done || Drain(r, fatal).failed
    ensures cut <= |r.buffer| && r.buffer[cut..] == Drain(r, fatal).buffer
    ensures Drain(r.(buffer := r.buffer[..cut]), fatal) == Drain(r, fatal).(buffer := "")
    decreases |r.buffer|
  {
    hide *;
    var k := FindBreak(r.buffer);
    DrainNeedsBreak(r, fatal);
    DrainStep(r, fatal);
    var rest, raw := r.buffer[k + 2..], r.buffer[..k];
    OnFrameKeepsBuffer(r, raw, fatal);
    var base := OnFrame(r, raw, fatal);
    var next := base.(buffer := rest);
    var more := 0;
    if next.done || next.failed {
      DrainIdle(next, fatal);
      DrainIdle(base.(buffer := rest[..0]), fatal);
    } else {
      more := DrainConsumed(next, fatal);
    }
    cut := k + 2 + more;
    DrainShort(r, cut, fatal);
    assert r.buffer[cut..] == rest[more..];
  }

  // ---- What a run of pieces computes ----

  function Flatten(chunks: seq<string>): string {
    if chunks == [] then "" else Flatten(chunks[..|chunks| - 1]) + chunks[|chunks| - 1]
  }

  /** The reader after the whole text has arrived in one piece. */
  function Whole(s: string, fatal: string -> bool): Reader { Drain(INIT.(buffer := Norm(s)), fatal) }

  /** `rest` cut short; a line feed at the cut may still be waiting behind its carriage return. */
  predicate CutOf(part: string, rest: string) {
    || part <= rest
    || (part != "" && part[|part| - 1] == '\r' && DropLast(part) + "\n" <= rest)
  }

  lemma WholeExtends(p: string, y: string, fatal: string -> bool)
    requires NoCrCrLf(p)
    ensures !Whole(p, fatal).Stopped() ==> Feed(Whole(p, fatal), y, fatal) == Whole(p + y, fatal)
    ensures Whole(p, fatal).Stopped() ==>
              var w := Whole(p + y, fatal);
              CutOf(Whole(p, fatal).buffer, w.buffer) && w == Whole(p, fatal).(buffer := w.buffer)
  {
    SuffixIsClean(p, fatal);
    if SplitsPair(p, y) {
      ExtendsSplit(p, y, fatal);
    } else {
      ExtendsWhole(p, y, fatal);
    }
  }

  /** The two texts a cut leads to: all at once, and after draining the first part. */
  lemma ExtendsWhole(p: string, y: string, fatal: string -> bool)
    requires !SplitsPair(p, y) && !SplitsPair(Whole(p, fatal).buffer, y)
    requires Norm(Whole(p, fatal).buffer) == Whole(p, fatal).buffer
    ensures var (d, w) := (Whole(p, fatal), Whole(p + y, fatal));
            var e := d.(buffer := d.buffer + Norm(y));
            if d.done || d.failed then w == e else w == Drain(e, fatal) == Feed(d, y, fatal)
  {
    hide Norm;
    hide Drain;
    NormSplit(p, y);
    NormSplit(Whole(p, fatal).buffer, y);
    DrainAppend(INIT.(buffer := Norm(p)), Norm(y), fatal);
  }

  lemma ExtendsSplit(p: string, y: string, fatal: string -> bool)
    requires SplitsPair(p, y)
    requires Norm(Whole(p, fatal).buffer) == Whole(p, fatal).buffer
    ensures var (d, w) := (Whole(p, fatal), Whole(p + y, fatal));
            && d.buffer != "" && d.buffer[|d.buffer| - 1] == '\r' && Norm(y)[0] == '\n'
            && var e := d.(buffer := DropLast(d.buffer) + Norm(y));
               if d.done || d.failed then w == e else w == Drain(e, fatal) == Feed(d, y, fatal)
  {
    hide Norm;
    hide Drain;
    NormEndsInCr(p);
    NormStep(y);
    NormSplit(p, y);
    assert DropLast(Norm(p)) + "\r" == Norm(p);
    DrainBeforeCr(DropLast(Norm(p)), Norm(y), fatal);
    NormSplitClean(Whole(p, fatal).buffer, y);
  }

  lemma NormSplitClean(w: string, y: string)
    requires Norm(w) == w && SplitsPair(w, y)
    ensures Norm(w + y) == DropLast(w) + Norm(y)
  {
    NormSplit(w, y);
  }

  /** What is left unread is normalised already and ends as the text does. */
  lemma SuffixIsClean(p: string, fatal: string -> bool)
    requires NoCrCrLf(p)
    ensures var w := Whole(p, fatal).buffer;
            && Norm(w) == w
            && (w != "" && p != "" ==> (w[|w| - 1] == '\r' <==> p[|p| - 1] == '\r'))
            && (p == "" ==> w == "")
  {
    hide Drain;
    DrainSuffix(INIT.(buffer := Norm(p)), fatal);
    NormClean(p);
    NormOfClean(Whole(p, fatal).buffer);
    if p != "" { NormEndsInCr(p); }
  }

  /** Like `DrainAppend`, when the carriage return at the end of the first part turns out to belong to `z`. */
  lemma DrainBeforeCr(n: string, z: string, fatal: string -> bool)
    ensures var d := Drain(INIT.(buffer := n + "\r"), fatal);
            && d.buffer != "" && d.buffer[|d.buffer| - 1] == '\r'
            && var e := d.(buffer := DropLast(d.buffer) + z);
               Drain(INIT.(buffer := n + z), fatal) == if d.done || d.failed then e else Drain(e, fatal)
  {
    var r := INIT.(buffer := n);
    assert forall x: string :: r.(buffer := x) == INIT.(buffer := x);
    var d := Drain(r, fatal);
    hide Drain;
    hide FindBreak;
    DrainSuffix(r, fatal);
    DrainAppend(r, "\r", fatal);
    AddCr(d.buffer);
    var d' := d.(buffer := d.buffer + "\r");
    if !d.done && !d.failed { DrainIdle(d', fatal); }
    assert Drain(INIT.(buffer := n + "\r"), fatal) == d';
    DrainAppend(r, z, fatal);
    assert DropLast(d.buffer + "\r") == d.buffer;
  }

  lemma AddCr(b: string)
    ensures FindBreak(b) < 0 ==> FindBreak(b + "\r") < 0
  {
    var k := FindBreak(b + "\r");
    if k >= 0 {
      assert k + 1 < |b|;
      assert b[k] == (b + "\r")[k] && b[k + 1] == (b + "\r")[k + 1];
    }
  }

  predicate SameOutput(a: Reader, b: Reader) { a == b.(buffer := a.buffer) }

  /** A run over pieces agrees with the whole text; if it stops, it stops somewhere inside. */
  lemma {:induction false} RunIsWhole(chunks: seq<string>, fatal: string -> bool)
    requires NoCrCrLf(Flatten(chunks))
    ensures var (r, w) := (Run(chunks, fatal), Whole(Flatten(chunks), fatal));
            SameOutput(r, w) && (if w.Stopped() then CutOf(r.buffer, w.buffer) else r == w)
  {
    if chunks != [] {
      hide Drain;
      hide Norm;
      var front, y := chunks[..|chunks| - 1], chunks[|chunks| - 1];
      var p := Flatten(front);
      NoCrCrLfPrefix(p, y);
      RunIsWhole(front, fatal);
      WholeExtends(p, y, fatal);
      var (r, w, w') := (Run(front, fatal), Whole(p, fatal), Whole(p + y, fatal));
      if w.Stopped() { CutOfCut(r.buffer, w.buffer, w'.buffer); }
    }
  }

  lemma NoCrCrLfPrefix(p: string, y: string)
    requires NoCrCrLf(p + y)
    ensures NoCrCrLf(p)
  {
    assert forall i | 0 <= i < |p| :: p[i] == (p + y)[i];
  }

  lemma CutOfCut(a: string, b: string, c: string)
    requires CutOf(a, b) && CutOf(b, c)
    ensures CutOf(a, c)
  {
    if a <= b {
      if !(b <= c) && |a| < |b| { assert a == b[..|a|] == DropLast(b)[..|a|]; }
    } else {
      var i := |a| - 1;
      assert b[i] == (DropLast(a) + "\n")[i] == '\n';
      assert DropLast(a) + "\n" == b[..|a|];
      if !(b <= c) { assert |a| < |b| && b[..|a|] == DropLast(b)[..|a|]; }
    }
  }

  // ---- The tail grows by at most one character at a time ----

  function SnocLine(ls: seq<string>, c: char): seq<string>
    requires ls != []
  {
    if c == '\n' then ls + [""] else ls[..|ls| - 1] + [ls[|ls| - 1] + [c]]
  }

  lemma SnocCons(h: char, ls: seq<string>, c: char)
    requires ls != []
    ensures SnocLine(ConsLine(h, ls), c) == ConsLine(h, SnocLine(ls, c))
  {
    if c == '\n' {
      if h != '\n' { assert (ls + [""])[1..] == ls[1..] + [""]; }
    } else if |ls| == 1 {
      assert [h] + (ls[0] + [c]) == [h] + ls[0] + [c];
    } else {
      var front, last := ls[..|ls| - 1], [ls[|ls| - 1] + [c]];
      assert (front + last)[1..] == front[1..] + last;
    }
  }

  lemma {:induction false} SplitSnoc(p: string, c: char)
    ensures SplitLines(p + [c]) == SnocLine(SplitLines(p), c)
  {
    if p == "" {
      assert p + [c] == [c] && [c][1..] == "" && SplitLines("") == [""];
      assert [c] + "" == [c] && "" + [c] == [c];
    } else {
      var ls := SplitLines(p[1..]);
      assert SplitLines(p) == ConsLine(p[0], ls);
      SplitSnoc(p[1..], c);
      assert (p + [c])[1..] == p[1..] + [c];
      assert SplitLines(p + [c]) == ConsLine(p[0], SplitLines(p[1..] + [c]));
      hide SplitLines;
      hide ConsLine;
      hide SnocLine;
      SnocCons(p[0], ls, c);
    }
  }

  lemma {:induction false} DataLinesAppend(a: seq<string>, b: seq<string>)
    ensures DataLines(a + b) == DataLines(a) + DataLines(b)
  {
    if a == [] {
      assert a + b == b;
    } else {
      var h := if IsData(a[0]) then [TrimLeft(a[0][5..])] else [];
      assert (a + b)[1..] == a[1..] + b && (a + b)[0] == a[0];
      assert DataLines(a + b) == h + DataLines(a[1..] + b);
      assert DataLines(a) == h + DataLines(a[1..]);
      hide *;
      DataLinesAppend(a[1..], b);
    }
  }

  lemma {:induction false} JoinSnoc(a: seq<string>, x: string)
    ensures Join(a + [x]) == if a == [] then x else Join(a) + "\n" + x
  {
    if |a| > 0 {
      JoinSnoc(a[1..], x);
      assert (a + [x])[1..] == a[1..] + [x];
    }
  }

  lemma {:induction false} TrimLeftSnoc(x: string, c: char)
    ensures TrimLeft(x + [c]) == if TrimLeft(x) != "" then TrimLeft(x) + [c] else if IsSpace(c) then "" else [c]
  {
    if x != "" && IsSpace(x[0]) {
      TrimLeftSnoc(x[1..], c);
      assert (x + [c])[1..] == x[1..] + [c];
    }
  }

  lemma DataOf(line: string)
    ensures DataLines([line]) == if IsData(line) then [TrimLeft(line[5..])] else []
    ensures IsData(line) ==> |line| >= 5
  {}

  lemma DataGrows(line: string, c: char)
    ensures IsData(line) ==> IsData(line + [c])
    ensures !IsData(line) && IsData(line + [c]) ==> (line + [c])[5..] == ""
  {
    if |line| >= 5 { assert (line + [c])[..5] == line[..5]; }
  }

  lemma TrimNil()
    ensures TrimLeft("") == ""
  {}

  lemma LastLineSnoc(d: seq<string>, last: string, c: char)
    requires c != '\n'
    ensures var (j, j') := (Join(d + DataLines([last])), Join(d + DataLines([last + [c]])));
            j' == j || j' == j + [c] || j' == j + "\n"
  {
    DataOf(last);
    DataOf(last + [c]);
    TrimNil();
    DataGrows(last, c);
    hide *;
    if IsData(last) {
      assert (last + [c])[5..] == last[5..] + [c];
      TrimLeftSnoc(last[5..], c);
      JoinSnoc(d, TrimLeft(last[5..]));
      JoinSnoc(d, TrimLeft(last[5..] + [c]));
    } else if IsData(last + [c]) {
      assert (last + [c])[5..] == "";
      JoinSnoc(d, "");
      assert d + [] == d && Join([]) == "" by { JoinNil(); }
    } else {
      assert d + [] == d;
    }
  }

  lemma JoinNil()
    ensures Join([]) == ""
  {}

  lemma FrameDataSnoc(p: string, c: char)
    ensures var (j, j') := (FrameData(p), FrameData(p + [c]));
            j' == j || j' == j + [c] || j' == j + "\n"
  {
    hide SplitLines;
    hide Join;
    var ls := SplitLines(p);
    var front, last := ls[..|ls| - 1], ls[|ls| - 1];
    SplitSnoc(p, c);
    assert ls == front + [last];
    DataLinesAppend(front, [last]);
    if c == '\n' {
      DataLinesAppend(ls, [""]);
      assert DataLines([""]) == [] by { assert !IsData(""); }
      assert DataLines(ls) + [] == DataLines(ls);
    } else {
      DataLinesAppend(front, [last + [c]]);
      LastLineSnoc(DataLines(front), last, c);
    }
  }

  lemma {:induction false} TrimOfSpaceThen(j: string, c: char)
    requires AllSpace(j) && !IsSpace(c)
    ensures Trim(j + [c]) == [c]
  {
    TrimLeftSnoc(j, c);
  }

  lemma {:induction false} TrimBlank(j: string)
    ensures Trim(j) == "" <==> AllSpace(j)
  {
    TrimLeftKeeps(j);
  }

  lemma {:induction false} TrimLeftKeeps(j: string)
    ensures AllSpace(TrimLeft(j)) <==> AllSpace(j)
  {
    if j != "" && IsSpace(j[0]) { TrimLeftKeeps(j[1..]); }
  }

  lemma TailStep(p: string, c: char)
    ensures Tail(p) != "" ==> Tail(p + [c]) != ""
    ensures Tail(p) == "" ==> |Tail(p + [c])| <= 1
  {
    var j, j' := FrameData(p), FrameData(p + [c]);
    FrameDataSnoc(p, c);
    TrimBlank(j);
    TrimBlank(j');
    if AllSpace(j) && j' == j + [c] && !IsSpace(c) { TrimOfSpaceThen(j, c); }
  }

  lemma {:induction false} TailGrows(p: string, q: string)
    requires p <= q && Tail(p) != ""
    ensures Tail(q) != ""
    decreases |q|
  {
    if |p| < |q| {
      var front := q[..|q| - 1];
      TailGrows(p, front);
      TailStep(front, q[|q| - 1]);
      assert front + [q[|q| - 1]] == q;
    } else {
      assert p == q;
    }
  }

  lemma TailOfCut(part: string, rest: string)
    requires CutOf(part, rest) && Tail(rest) == ""
    ensures Tail(part) == ""
  {
    if part <= rest {
      if Tail(part) != "" { TailGrows(part, rest); }
    } else {
      var front := DropLast(part);
      if Tail(front) != "" { TailGrows(front, rest); }
      FrameDataSnoc(front, '\r');
      assert front + "\r" == part;
      TrimBlank(FrameData(front));
      TrimBlank(FrameData(part));
    }
  }

  /** The shortest prefix of a text whose tail is a payload carries a payload of one character. */
  lemma {:induction false} FirstTail(rest: string) returns (n: nat)
    requires Tail(rest) != ""
    ensures n <= |rest| && |Tail(rest[..n])| == 1
  {
    var front := DropLast(rest);
    assert front + [rest[|rest| - 1]] == rest;
    TailStep(front, rest[|rest| - 1]);
    if Tail(front) == "" {
      n := |rest|;
      assert rest[..n] == rest;
    } else {
      n := FirstTail(front);
      assert front[..n] == rest[..n];
    }
  }

  // ---- The theorems ----

  /** After the `[DONE]` frame the text still carries a data line with something in it. */
  predicate DataAfterDone(s: string, fatal: string -> bool) {
    Whole(s, fatal).done && Tail(Whole(s, fatal).buffer) != ""
  }

  lemma RunOfOne(s: string, fatal: string -> bool)
    ensures Run([s], fatal) == Whole(s, fatal) && Flatten([s]) == s
  {
    assert [s][..0] == [];
    assert "" + s == s;
  }

  /** The pieces do not matter; `flush` is what the decoder still holds when the stream ends. */
  lemma ChunkingIsIrrelevant(chunks: seq<string>, flush: string, fatal: string -> bool)
    requires var s := Flatten(chunks);
             NoCrCrLf(s) && (Whole(s, fatal).done ==> flush == "" && !DataAfterDone(s, fatal))
    ensures Outcome(chunks, flush, fatal) == Outcome([Flatten(chunks)], flush, fatal)
  {
    hide Drain, Norm, Run, Flatten, Tail, CutOf, NoCrCrLf;
    var s := Flatten(chunks);
    RunIsWhole(chunks, fatal);
    RunOfOne(s, fatal);
    var r, w := Run(chunks, fatal), Whole(s, fatal);
    if w.done {
      TailOfCut(r.buffer, w.buffer);
      assert r.buffer + "" == r.buffer && w.buffer + "" == w.buffer;
    }
  }

  ghost predicate ChunkIndependent(s: string, fatal: string -> bool) {
    forall chunks | Flatten(chunks) == s :: Outcome(chunks, "", fatal) == Outcome([s], "", fatal)
  }

  /** Exactly when every way to cut a text up gives the same result. */
  lemma ChunkIndependentIff(s: string, fatal: string -> bool)
    requires NoCrCrLf(s)
    ensures ChunkIndependent(s, fatal) <==> !DataAfterDone(s, fatal)
  {
    hide Drain;
    hide Norm;
    hide Run;
    hide Tail;
    hide Finish;
    if DataAfterDone(s, fatal) {
      var w := Whole(s, fatal);
      var cut := DrainConsumed(INIT.(buffer := Norm(s)), fatal);
      var n := FirstTail(w.buffer);
      var a := CutAt(s, cut, 0, fatal);
      var b := CutAt(s, cut, n, fatal);
      NeverBoth(INIT.(buffer := Norm(s)), fatal);
      TailNil();
      assert w.buffer[..0] == "";
      FinishAt(w.(buffer := w.buffer[..0]), fatal);
      FinishAt(w.(buffer := w.buffer[..n]), fatal);
      assert Outcome(a, "", fatal) != Outcome(b, "", fatal);
    } else {
      forall chunks | Flatten(chunks) == s
        ensures Outcome(chunks, "", fatal) == Outcome([s], "", fatal)
      {
        ChunkingIsIrrelevant(chunks, "", fatal);
      }
    }
  }

  lemma TailNil()
    ensures Tail("") == ""
  {}

  lemma FinishAt(r: Reader, fatal: string -> bool)
    requires r.done && !r.failed && |Tail(r.buffer)| <= 1
    ensures Finish(r, "", fatal).out == if Tail(r.buffer) == "" then r.out else r.out + [Tail(r.buffer)]
  {
    assert r.buffer + "" == r.buffer;
    if Tail(r.buffer) != "" { BlankHasNoTail(r.buffer); }
  }

  /** A piece boundary `n` characters after the stopping point leaves just those unread. */
  lemma CutAt(s: string, cut: nat, n: nat, fatal: string -> bool) returns (chunks: seq<string>)
    requires cut <= |Norm(s)| && Whole(s, fatal).Stopped()
    requires Norm(s)[cut..] == Whole(s, fatal).buffer && n <= |Norm(s)| - cut
    requires Drain(INIT.(buffer := Norm(s)[..cut]), fatal) == Whole(s, fatal).(buffer := "")
    ensures Flatten(chunks) == s
    ensures Run(chunks, fatal) == Whole(s, fatal).(buffer := Whole(s, fatal).buffer[..n])
  {
    hide Norm;
    hide Drain;
    var w := Whole(s, fatal);
    var k := NormPrefix(s, cut + n);
    var p, y := s[..k], s[k..];
    chunks := [p, y];
    assert chunks[..1] == [p] && p + y == s;
    RunOfOne(p, fatal);
    assert Norm(p) == Norm(s)[..cut] + w.buffer[..n];
    DrainAppend(INIT.(buffer := Norm(s)[..cut]), w.buffer[..n], fatal);
    assert "" + w.buffer[..n] == w.buffer[..n];
    assert Whole(p, fatal) == w.(buffer := w.buffer[..n]);
  }

  lemma BlankHasNoTail(rest: string)
    requires Tail(rest) != ""
    ensures Trim(rest) != ""
  {
    if Trim(rest) == "" {
      TrimBlank(rest);
      BlankLines(rest);
      NoDataLine(SplitLines(rest));
    }
  }

  lemma {:induction false} BlankLines(s: string)
    requires AllSpace(s)
    ensures forall l <- SplitLines(s) :: AllSpace(l)
  {
    if s != "" {
      BlankLines(s[1..]);
      var ls := SplitLines(s[1..]);
      assert ls[0] in ls;
    }
  }

  lemma DataPrefixIsInk(l: string)
    ensures IsData(l) ==> !AllSpace(l)
  {
    if IsData(l) { assert l[0] == 'd' && l[0] in l; }
  }

  lemma {:induction false} NoDataLine(ls: seq<string>)
    requires forall l <- ls :: AllSpace(l)
    ensures DataLines(ls) == []
  {
    if ls != [] {
      NoDataLine(ls[1..]);
      assert AllSpace(ls[0]);
      DataPrefixIsInk(ls[0]);
    }
  }

  /** The side condition on CRLF is needed: whatever the payload, a carriage return before the CRLF that ends its
      line makes the place of the cut change it. */
  lemma CrBeforeCrLfMatters(p: string, fatal: string -> bool)
    requires OneLine(p)
    ensures var s := "data:" + p + "\r\r\n\n"; !NoCrCrLf(s) && !ChunkIndependent(s, fatal)
  {
    hide *;
    var line := "data:" + p;
    CrCrLf(line);
    TwoPieces(line + "\r\r\n", "\n", fatal);
    CutResult(p, fatal);
    WholeResult(p, fatal);
    HandsDiffer(p, fatal);
    assert line + "\r\r\n" + "\n" == line + "\r\r\n\n";
    PayloadsDiffer([line + "\r\r\n", "\n"], line + "\r\r\n\n", fatal);
  }

  lemma CrCrLf(line: string)
    ensures !NoCrCrLf(line + "\r\r\n\n")
  {
    var s := line + "\r\r\n\n";
    assert s[|line|] == '\r' && s[|line| + 1] == '\r' && s[|line| + 2] == '\n';
  }

  lemma HandsDiffer(p: string, fatal: string -> bool)
    ensures Hand(INIT, p, fatal).out != Hand(INIT, p + "\r", fatal).out
    ensures Hand(INIT, p, fatal).buffer == Hand(INIT, p + "\r", fatal).buffer == ""
  {
    var q := p + "\r";
    assert q[|q| - 1] == '\r' && DONE[|DONE| - 1] == ']';
    assert |p| != |q|;
    assert ([] + [q])[0] == q;
    assert p != DONE ==> ([] + [p])[0] == p;
  }

  lemma PayloadsDiffer(chunks: seq<string>, s: string, fatal: string -> bool)
    requires Flatten(chunks) == s && Run(chunks, fatal).buffer == Run([s], fatal).buffer == ""
    requires Run(chunks, fatal).out != Run([s], fatal).out
    ensures !ChunkIndependent(s, fatal)
  {
    FinishNil(Run(chunks, fatal), fatal);
    FinishNil(Run([s], fatal), fatal);
    assert Outcome(chunks, "", fatal) != Outcome([s], "", fatal);
  }

  lemma TwoPieces(p: string, y: string, fatal: string -> bool)
    ensures Flatten([p, y]) == p + y
    ensures Run([p, y], fatal) == Feed(Whole(p, fatal), y, fatal)
  {
    assert [p, y][..1] == [p];
    RunOfOne(p, fatal);
  }

  /** Cut before the last line feed, the payload arrives as it was sent. */
  lemma CutResult(p: string, fatal: string -> bool)
    requires OneLine(p)
    ensures Run(["data:" + p + "\r\r\n", "\n"], fatal) == Hand(INIT, p, fatal)
  {
    hide Run, Norm, Drain, OneLine;
    var line := "data:" + p;
    TwoPieces(line + "\r\r\n", "\n", fatal);
    NormLines(p);
    NoFrameYet(p, fatal);
    assert line + "\r\n" + "\n" == line + "\r\n\n" && line + "\n\n" + "" == line + "\n\n";
    OneFrame(INIT, line, p, "", fatal);
    DrainNil(Hand(INIT, p, fatal), fatal);
  }

  /** In one piece, a carriage return stays at its end. */
  lemma WholeResult(p: string, fatal: string -> bool)
    requires OneLine(p)
    ensures Run(["data:" + p + "\r\r\n\n"], fatal) == Hand(INIT, p + "\r", fatal)
  {
    var q := p + "\r";
    assert OneLine(q) by { assert q[0] == p[0]; }
    hide *;
    RunOfOne("data:" + p + "\r\r\n\n", fatal);
    NormLines(p);
    CrStays(p);
    OneFrame(INIT, "data:" + q, q, "", fatal);
    DrainNil(Hand(INIT, q, fatal), fatal);
  }

  lemma CrStays(p: string)
    ensures "data:" + p + "\r\n\n" == "data:" + (p + "\r") + "\n\n" + ""
  {
    assert "data:" + p + "\r" == "data:" + (p + "\r");
  }

  lemma NoFrameYet(p: string, fatal: string -> bool)
    requires OneLine(p)
    ensures Drain(INIT.(buffer := "data:" + p + "\r\n"), fatal) == INIT.(buffer := "data:" + p + "\r\n")
  {
    var b := "data:" + p + "\r\n";
    assert forall i | 5 <= i < 5 + |p| :: b[i] == p[i - 5] && p[i - 5] in p;
    assert forall i | 0 <= i < |b| - 1 :: b[i] != '\n';
    assert FindBreak(b) < 0;
  }

  lemma DrainNil(r: Reader, fatal: string -> bool)
    requires r.buffer == ""
    ensures Drain(r, fatal) == r
  {}

  lemma FinishNil(r: Reader, fatal: string -> bool)
    requires r.buffer == ""
    ensures Finish(r, "", fatal) == r
  {}

  lemma NormLines(p: string)
    requires OneLine(p)
    ensures var line := "data:" + p;
            && Norm(line + "\r\r\n\n") == line + "\r\n\n"
            && Norm(line + "\r\r\n") == line + "\r\n"
            && Norm(line + "\r\n\n") == line + "\n\n"
  {
    var line := "data:" + p;
    assert forall i | 5 <= i < 5 + |p| :: line[i] == p[i - 5] && p[i - 5] in p;
    assert forall i | 0 <= i < |line| :: line[i] != '\n';
    assert NoCrLf(line) && NoCrLf(line + "\r") && NoCrLf("\n") && NoCrLf("");
    hide Norm, NoCrLf;
    NormLf(line + "\r", "\n");
    NormLf(line + "\r", "");
    NormLf(line, "\n");
    assert line + "\r\r\n\n" == line + "\r" + "\r\n" + "\n" && line + "\r" + "\n" + "\n" == line + "\r\n\n";
    assert line + "\r\r\n" == line + "\r" + "\r\n" + "" && line + "\r" + "\n" + "" == line + "\r\n";
    assert line + "\r\n\n" == line + "\r\n" + "\n" && line + "\n" + "\n" == line + "\n\n";
  }

  lemma NormLf(a: string, b: string)
    requires NoCrLf(a) && NoCrLf(b)
    ensures Norm(a + "\r\n" + b) == a + "\n" + b
  {
    hide Norm;
    NormSplit(a, "\r\n" + b);
    NormStep("\r\n" + b);
    assert ("\r\n" + b)[2..] == b;
    NormOfClean(a);
    NormOfClean(b);
    assert a + "\r\n" + b == a + ("\r\n" + b);
  }

  // ---- Round trip with the writer ----

  /** A payload that fits on one data line. */
  predicate OneLine(p: string) {
    p != "" && !IsSpace(p[0]) && forall c <- p :: c != '\n'
  }

  /** A frame with a single data line hands over that payload and nothing else. */
  lemma OneFrame(r: Reader, raw: string, p: string, t: string, fatal: string -> bool)
    requires !r.done && !r.failed && OneLine(p) && (raw == "data:" + p || raw == "data: " + p)
    ensures Drain(r.(buffer := raw + "\n\n" + t), fatal) == Drain(Hand(r.(buffer := t), p, fatal), fatal)
  {
    var b := raw + "\n\n" + t;
    var k := FindBreak(b);
    assert b[|raw|] == '\n' && b[|raw| + 1] == '\n';
    assert forall i | 0 <= i < |raw| :: b[i] == raw[i] && raw[i] in raw;
    assert k == |raw|;
    assert b[k + 2..] == t && b[..k] == raw;
    OneDataLine(raw, p);
    DrainStep(r.(buffer := b), fatal);
    hide FindBreak;
    hide Drain;
    hide FrameLines;
    hide FrameData;
    hide Trim;
  }

  lemma OneDataLine(raw: string, p: string)
    requires OneLine(p) && (raw == "data:" + p || raw == "data: " + p)
    ensures Trim(raw) != "" && FrameLines(raw) == [p] && FrameData(raw) == p
  {
    OneValue(raw, p);
    OneSplit(raw);
    DataPrefixIsInk(raw);
    TrimBlank(raw);
    hide TrimLeft;
    hide SplitLines;
    hide Trim;
    assert [raw][1..] == [] && DataLines([]) == [];
  }

  lemma OneValue(raw: string, p: string)
    requires OneLine(p) && (raw == "data:" + p || raw == "data: " + p)
    ensures IsData(raw) && TrimLeft(raw[5..]) == p && forall c <- raw :: c != '\n'
  {
    assert forall c <- "data: " :: c != '\n';
    assert forall c <- "data:" :: c != '\n';
    assert raw[5..] == p || raw[5..] == " " + p;
    assert (" " + p)[1..] == p && TrimLeft(p) == p && TrimLeft(" " + p) == p;
  }

  lemma {:induction false} OneSplit(l: string)
    requires forall c <- l :: c != '\n'
    ensures SplitLines(l) == [l]
  {
    if l != "" {
      assert forall c <- l[1..] :: c in l;
      OneSplit(l[1..]);
      assert l[0] in l && [l[0]] + l[1..] == l;
    }
  }

  lemma DoneIsOneLine()
    ensures OneLine(DONE)
  {
    assert DONE[0] == '[' && !IsSpace('[');
  }

  /** What the server writes: one frame for each payload, then the end marker. */
  function Encode(ps: seq<string>): string {
    if ps == [] then "data: [DONE]\n\n" else "data: " + ps[0] + "\n\n" + Encode(ps[1..])
  }

  predicate Sendable(p: string) { OneLine(p) && p != DONE && forall c <- p :: c != '\r' }

  lemma {:induction false} EncodeHasNoCr(ps: seq<string>)
    requires forall p <- ps :: Sendable(p)
    ensures forall c <- Encode(ps) :: c != '\r'
  {
    if ps == [] {
      assert forall c <- "data: [DONE]\n\n" :: c != '\r';
    } else {
      EncodeHasNoCr(ps[1..]);
      assert ps[0] in ps;
      assert forall c <- "data: " :: c != '\r';
      assert forall c <- "\n\n" :: c != '\r';
    }
  }

  lemma {:induction false} DrainEncoded(r: Reader, ps: seq<string>, fatal: string -> bool)
    requires !r.Stopped() && r.buffer == Encode(ps)
    requires forall p <- ps :: Sendable(p) && !fatal(p)
    ensures Drain(r, fatal) == Reader("", r.out + ps, true, false)
    decreases |ps|
  {
    hide Drain;
    if ps == [] {
      DrainNil(r.(buffer := "", done := true), fatal);
      assert r.out + [] == r.out;
      assert r.buffer == "data: [DONE]" + "\n\n" + "";
      DoneIsOneLine();
      assert "data: " + DONE == "data: [DONE]";
      OneFrame(r, "data: [DONE]", DONE, "", fatal);
    } else {
      var p, t := ps[0], Encode(ps[1..]);
      assert p in ps;
      OneFrame(r, "data: " + p, p, t, fatal);
      var next := r.(buffer := t, out := r.out + [p]);
      DrainEncoded(next, ps[1..], fatal);
      assert r.out + [p] + ps[1..] == r.out + ps;
    }
  }

  /** However the network cuts the stream up, the page gets back the payloads that were sent. */
  lemma DeliversWhatWasSent(ps: seq<string>, chunks: seq<string>, fatal: string -> bool)
    requires forall p <- ps :: Sendable(p) && !fatal(p)
    requires Flatten(chunks) == Encode(ps)
    ensures Outcome(chunks, "", fatal) == Result(ps, true, false)
  {
    hide Norm;
    hide Drain;
    hide Encode;
    hide Finish;
    var s := Encode(ps);
    EncodeHasNoCr(ps);
    assert forall i | 0 <= i < |s| :: s[i] in s;
    NormOfClean(s);
    DrainEncoded(INIT.(buffer := s), ps, fatal);
    assert [] + ps == ps;
    TailNil();
    ChunkingIsIrrelevant(chunks, "", fatal);
    RunOfOne(s, fatal);
    FinishNil(Whole(s, fatal), fatal);
  }
}
