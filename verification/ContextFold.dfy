/** Folding of the conversation context: tool results first, then a summary of the middle, then a cut of the
    rendered text, all under one length bound.

    The thresholds of one half, seven and eight tenths are compared exactly.
 */
module ContextFold {
  import opened Wrappers
  import opened Text

  datatype Message = Message(role: string, content: string, chars: nat)

  const ROLES: seq<string> := ["user", "assistant", "system", "tool"]

  // ---- Rendering ----

  function Line(m: Message): string { m.role + ": " + m.content }

  function Lines(ms: seq<Message>): seq<string> { seq(|ms|, i requires 0 <= i < |ms| => Line(ms[i])) }

  function Join(parts: seq<string>): string {
    if parts == [] then []
    else if |parts| == 1 then parts[0]
    else parts[0] + "\n" + Join(parts[1..])
  }

  function Render(ms: seq<Message>): string { Join(Lines(ms)) }

  lemma {:induction false} JoinSnoc(parts: seq<string>, x: string)
    ensures Join(parts + [x]) == if parts == [] then x else Join(parts) + "\n" + x
  {
    if |parts| > 0 {
      JoinSnoc(parts[1..], x);
      assert (parts + [x])[1..] == parts[1..] + [x];
    }
  }

  /** One message is shown below the other, each with its role. */
  lemma RenderMeans(ms: seq<Message>, m: Message)
    ensures Render([]) == "" && Render([m]) == m.role + ": " + m.content
    ensures ms != [] ==> Render(ms + [m]) == Render(ms) + "\n" + (m.role + ": " + m.content)
  {
    assert Lines(ms + [m]) == Lines(ms) + [Line(m)];
    JoinSnoc(Lines(ms), Line(m));
  }

  // ---- Folding of old tool results ----

  predicate IsTool(m: Message) { m.role == "tool" }

  function Tools(ms: seq<Message>): seq<Message> {
    if ms == [] then [] else if IsTool(ms[0]) then [ms[0]] + Tools(ms[1..]) else Tools(ms[1..])
  }

  function Others(ms: seq<Message>): seq<Message> {
    if ms == [] then [] else if IsTool(ms[0]) then Others(ms[1..]) else [ms[0]] + Others(ms[1..])
  }

  function Marker(n: nat): Message {
    var text := "[MICROCOMPACT] " + Decimal(n) + " older tool results folded";
    Message("system", text, 8 + |text|)
  }

  /** Without the first `drop` tool results; the first of them leaves the marker behind. */
  function Folded(ms: seq<Message>, drop: nat, marker: Message, marked: bool): seq<Message> {
    if ms == [] then []
    else if IsTool(ms[0]) && drop > 0 then
      if marked then Folded(ms[1..], drop - 1, marker, true) else [marker] + Folded(ms[1..], drop - 1, marker, true)
    else [ms[0]] + Folded(ms[1..], drop, marker, marked)
  }

  /** All but the last three. */
  function Old(ms: seq<Message>): nat { if |Tools(ms)| > 3 then |Tools(ms)| - 3 else 0 }

  function Microcompacted(ms: seq<Message>): seq<Message> {
    if Old(ms) == 0 then ms else Folded(ms, Old(ms), Marker(Old(ms)), false)
  }

  lemma FoldedNext(ms: seq<Message>, i: nat, drop: nat, marker: Message, marked: bool)
    requires i < |ms|
    ensures Folded(ms[i..], drop, marker, marked)
         == if IsTool(ms[i]) && drop > 0 then
              if marked then Folded(ms[i + 1..], drop - 1, marker, true)
              else [marker] + Folded(ms[i + 1..], drop - 1, marker, true)
            else [ms[i]] + Folded(ms[i + 1..], drop, marker, marked)
  {
    hide IsTool;
    assert ms[i..][1..] == ms[i + 1..];
  }

  lemma {:induction false} ToolsSplit(a: seq<Message>, b: seq<Message>)
    ensures Tools(a + b) == Tools(a) + Tools(b)
  {
    hide IsTool;
    if a == [] {
      assert a + b == b;
    } else {
      ToolsSplit(a[1..], b);
      assert (a + b)[1..] == a[1..] + b;
    }
  }

  lemma ToolsSnoc(ms: seq<Message>, i: nat)
    requires i < |ms|
    ensures |Tools(ms[..i + 1])| == |Tools(ms[..i])| + if IsTool(ms[i]) then 1 else 0
  {
    hide IsTool;
    assert ms[..i + 1] == ms[..i] + [ms[i]];
    ToolsSplit(ms[..i], [ms[i]]);
  }

  /** The indices of the tool results before `end`, in order. */
  predicate ArePositions(ms: seq<Message>, positions: seq<nat>, end: nat)
    requires end <= |ms|
  {
    && (forall k | 0 <= k < |positions| :: positions[k] < end && IsTool(ms[positions[k]]))
    && (forall k, l | 0 <= k < l < |positions| :: positions[k] < positions[l])
    && (forall j | 0 <= j < end && IsTool(ms[j]) :: j in positions)
  }

  method ToolPositions(ms: seq<Message>) returns (positions: seq<nat>)
    ensures ArePositions(ms, positions, |ms|) && |positions| == |Tools(ms)|
  {
    hide IsTool, Tools;
    positions := [];
    assert Tools([]) == [] by { NoTools(); }
    for i := 0 to |ms|
      invariant ArePositions(ms, positions, i) && |positions| == |Tools(ms[..i])|
    {
      ToolsSnoc(ms, i);
      if IsTool(ms[i]) { positions := positions + [i]; }
    }
    assert ms[..|ms|] == ms;
  }

  lemma NoTools()
    ensures Tools([]) == []
  {}

  /** `seen` tool results lie before i. */
  predicate Seen(positions: seq<nat>, seen: nat, i: nat) {
    && seen <= |positions|
    && (forall k | 0 <= k < seen :: positions[k] < i)
    && (forall k | seen <= k < |positions| :: positions[k] >= i)
  }

  lemma SeenNext(ms: seq<Message>, positions: seq<nat>, seen: nat, i: nat, surplus: nat)
    requires i < |ms| && ArePositions(ms, positions, |ms|) && Seen(positions, seen, i) && surplus <= |positions|
    ensures Seen(positions, if IsTool(ms[i]) then seen + 1 else seen, i + 1)
    ensures i in positions[..surplus] <==> IsTool(ms[i]) && seen < surplus
  {
    hide IsTool;
    if IsTool(ms[i]) {
      assert i in positions && seen < |positions| && positions[seen] == i;
      if seen < surplus { assert positions[..surplus][seen] == i; }
    }
  }

  /** The loop over the messages: the first `surplus` tool results are skipped, the first of them for the marker. */
  method DropSurplus(ms: seq<Message>, positions: seq<nat>, surplus: nat, marker: Message) returns (folded: seq<Message>)
    requires ArePositions(ms, positions, |ms|) && 0 < surplus <= |positions|
    ensures folded == Folded(ms, surplus, marker, false)
  {
    hide IsTool, Folded, ArePositions, Seen;
    var added := false;
    ghost var seen := 0;
    folded := [];
    assert ms[0..] == ms;
    assert Seen(positions, 0, 0) by { SeenNone(positions); }
    for i := 0 to |ms|
      invariant Seen(positions, seen, i) && (added <==> seen > 0)
      invariant Folded(ms, surplus, marker, false)
             == folded + Folded(ms[i..], if seen <= surplus then surplus - seen else 0, marker, added)
    {
      FoldedNext(ms, i, if seen <= surplus then surplus - seen else 0, marker, added);
      SeenNext(ms, positions, seen, i, surplus);
      if IsTool(ms[i]) { seen := seen + 1; }
      if i in positions[..surplus] {
        if !added {
          folded := folded + [marker];
          added := true;
        }
        continue;
      }
      folded := folded + [ms[i]];
    }
    assert ms[|ms|..] == [];
    FoldedNone(marker, added);
  }

  /** All tool results but the last three give way to one marker. */
  method Microcompact(ms: seq<Message>) returns (folded: seq<Message>, changed: bool)
    ensures folded == Microcompacted(ms)
    ensures changed <==> |Tools(ms)| > 3
  {
    hide IsTool, Folded, Tools, ArePositions, Marker;
    var positions := ToolPositions(ms);
    if |positions| <= 3 { return ms, false; }
    var surplus := |positions| - 3;
    folded := DropSurplus(ms, positions, surplus, Marker(surplus));
    changed := true;
  }

  lemma SeenNone(positions: seq<nat>)
    ensures Seen(positions, 0, 0)
  {}

  lemma FoldedNone(marker: Message, marked: bool)
    ensures forall drop: nat :: Folded([], drop, marker, marked) == []
  {}

  /** Folding keeps the last tool results and no other. */
  lemma {:induction false} FoldedTools(ms: seq<Message>, drop: nat, marker: Message, marked: bool)
    requires drop <= |Tools(ms)| && !IsTool(marker)
    ensures Tools(Folded(ms, drop, marker, marked)) == Tools(ms)[drop..]
  {
    hide IsTool;
    if ms != [] {
      if IsTool(ms[0]) && drop > 0 {
        FoldedTools(ms[1..], drop - 1, marker, true);
        var rest := Folded(ms[1..], drop - 1, marker, true);
        assert ([marker] + rest)[1..] == rest;
      } else {
        FoldedTools(ms[1..], drop, marker, marked);
        var rest := Folded(ms[1..], drop, marker, marked);
        assert ([ms[0]] + rest)[1..] == rest;
      }
    }
  }

  /** How many other messages precede the first tool result. */
  function Lead(ms: seq<Message>): nat { if ms == [] || IsTool(ms[0]) then 0 else 1 + Lead(ms[1..]) }

  lemma {:induction false} LeadBound(ms: seq<Message>)
    ensures Lead(ms) <= |Others(ms)|
  {
    hide IsTool;
    if ms != [] { LeadBound(ms[1..]); }
  }

  /** Folding keeps all other messages in order, with the marker where the first tool result was. */
  lemma {:induction false} FoldedOthers(ms: seq<Message>, drop: nat, marker: Message, marked: bool)
    requires drop <= |Tools(ms)| && !IsTool(marker) && (marked || drop > 0)
    ensures Lead(ms) <= |Others(ms)|
    ensures Others(Folded(ms, drop, marker, marked))
         == if marked then Others(ms) else Others(ms)[..Lead(ms)] + [marker] + Others(ms)[Lead(ms)..]
  {
    hide IsTool;
    LeadBound(ms);
    if ms != [] {
      if IsTool(ms[0]) && drop > 0 {
        FoldedOthers(ms[1..], drop - 1, marker, true);
        var rest := Folded(ms[1..], drop - 1, marker, true);
        assert ([marker] + rest)[1..] == rest;
      } else {
        LeadBound(ms[1..]);
        FoldedOthers(ms[1..], drop, marker, marked);
        var rest := Folded(ms[1..], drop, marker, marked);
        assert ([ms[0]] + rest)[1..] == rest;
      }
    }
  }

  lemma MarkerIsNoTool(n: nat)
    ensures !IsTool(Marker(n))
  {
    assert "system"[0] == 's' && "tool"[0] == 't';
  }

  /** With more than three tool results, exactly the last three are kept, every other message stays in order, and
      one marker with their number stands for the folded ones; otherwise nothing changes. */
  lemma MicrocompactMeans(ms: seq<Message>)
    ensures |Tools(ms)| <= 3 ==> Microcompacted(ms) == ms
    ensures |Tools(ms)| > 3 ==>
              && Tools(Microcompacted(ms)) == Tools(ms)[|Tools(ms)| - 3..]
              && Lead(ms) <= |Others(ms)|
              && Others(Microcompacted(ms)) == Others(ms)[..Lead(ms)] + [Marker(|Tools(ms)| - 3)] + Others(ms)[Lead(ms)..]
  {
    var n := Old(ms);
    if n > 0 {
      hide IsTool, Folded, Marker;
      MarkerIsNoTool(n);
      FoldedTools(ms, n, Marker(n), false);
      FoldedOthers(ms, n, Marker(n), false);
    }
  }

  // ---- The cut of a text ----

  const HEAD: nat := 900
  const TAIL: nat := 500

  function Note(head: nat, tail: nat): string { "[COLLAPSED head=" + Decimal(head) + " tail=" + Decimal(tail) + "]" }

  predicate Fits(head: nat, tail: nat, budget: nat) { head + tail + |Note(head, tail)| + 2 <= budget }

  datatype Windows = Windows(head: nat, tail: nat)

  function Min(a: nat, b: nat): nat { if a < b then a else b }

  function FirstWindows(n: nat): Windows {
    var head := Min(HEAD, n);
    var tail := Min(TAIL, n - head);
    if tail == 0 && n > 1 then Windows(Min(HEAD, n - Min(TAIL, n / 2)), Min(TAIL, n / 2)) else Windows(head, tail)
  }

  /** One character less, from the longer window. */
  function Narrower(w: Windows): Windows
    requires w.head + w.tail > 0
  {
    if w.head >= w.tail then Windows(w.head - 1, w.tail) else Windows(w.head, w.tail - 1)
  }

  /** The first windows on the way down that fit, or none. */
  function Shrink(w: Windows, budget: nat): Windows
    decreases w.head + w.tail
  {
    if Fits(w.head, w.tail, budget) || w.head + w.tail == 0 then w else Shrink(Narrower(w), budget)
  }

  function Cut(text: string, w: Windows): string
    requires w.head + w.tail <= |text|
  {
    (if w.head > 0 then text[..w.head] + "\n" else [])
    + Note(w.head, w.tail)
    + (if w.tail > 0 then "\n" + text[|text| - w.tail..] else [])
  }

  lemma {:induction false} ShrinkBound(w: Windows, budget: nat)
    ensures Shrink(w, budget).head <= w.head && Shrink(w, budget).tail <= w.tail
    ensures var v := Shrink(w, budget); Fits(v.head, v.tail, budget) || v == Windows(0, 0)
    decreases w.head + w.tail
  {
    hide Fits;
    if !(Fits(w.head, w.tail, budget) || w.head + w.tail == 0) { ShrinkBound(Narrower(w), budget); }
  }

  /** How long a text is that shows two pieces around its note. */
  function ShownLength(head: nat, tail: nat): nat {
    head + |"\n[COLLAPSED head="| + |Decimal(head)| + |" tail="| + |Decimal(tail)| + |"]\n"| + tail
  }

  /** The windows give way evenly: the tail is only touched when the head is not longer, and nothing is given away
      that would have fitted. */
  lemma {:induction false} ShrinkIsEven(w: Windows, budget: nat)
    requires w.head >= w.tail
    ensures var v := Shrink(w, budget); v.tail == w.tail || v.tail - 1 <= v.head <= v.tail
    ensures var v := Shrink(w, budget);
            v == w || ShownLength(v.head + 1, v.tail) > budget || ShownLength(v.head, v.tail + 1) > budget
  {
    EvenFrom(w, w, budget);
    hide Shrink, Decimal;
  }

  lemma {:induction false} EvenFrom(first: Windows, w: Windows, budget: nat)
    requires (w.tail == first.tail && w.head >= w.tail - 1) || w.tail - 1 <= w.head <= w.tail
    ensures var v := Shrink(w, budget); v.tail == first.tail || v.tail - 1 <= v.head <= v.tail
    ensures var v := Shrink(w, budget);
            v == w || !Fits(v.head + 1, v.tail, budget) || !Fits(v.head, v.tail + 1, budget)
    decreases w.head + w.tail
  {
    hide Fits;
    if !(Fits(w.head, w.tail, budget) || w.head + w.tail == 0) { EvenFrom(first, Narrower(w), budget); }
  }

  /** The first windows never overlap. */
  lemma FirstWindowsFit(n: nat)
    ensures FirstWindows(n).head + FirstWindows(n).tail <= n
    ensures n > 1 ==> FirstWindows(n).head > 0 && FirstWindows(n).tail > 0
  {}

  /** At first they are the first 900 and the last 500 characters; of a shorter text they are all of it, and the tail
      is what the head leaves, or half of a text that the head would take whole. */
  lemma FirstWindowsMean(n: nat)
    ensures n >= 1400 ==> FirstWindows(n) == Windows(900, 500)
    ensures 900 < n < 1400 ==> FirstWindows(n) == Windows(900, n - 900)
    ensures n <= 900 ==> FirstWindows(n) == if n > 1 then Windows(n - n / 2, n / 2) else Windows(n, 0)
  {}

  function Collapsed(text: string, budget: nat): string {
    if |text| <= budget then text
    else
      var w := Shrink(FirstWindows(|text|), budget);
      ShrinkBound(FirstWindows(|text|), budget);
      FirstWindowsFit(|text|);
      if Fits(w.head, w.tail, budget) then Cut(text, w) else Take(Note(0, 0), budget)
  }

  /** The cut text shows the first h and the last t characters, each on lines of its own, around a note that says so. */
  predicate Shows(text: string, h: nat, t: nat, r: string)
    requires h + t <= |text|
  {
    var note := "[COLLAPSED head=" + Decimal(h) + " tail=" + Decimal(t) + "]";
    if h > 0 && t > 0 then r == text[..h] + "\n" + note + "\n" + text[|text| - t..]
    else if h > 0 then r == text[..h] + "\n" + note
    else if t > 0 then r == note + "\n" + text[|text| - t..]
    else r == note
  }

  lemma CutShows(text: string, w: Windows, budget: nat)
    requires w.head + w.tail <= |text|
    ensures Shows(text, w.head, w.tail, Cut(text, w)) && (Fits(w.head, w.tail, budget) ==> |Cut(text, w)| <= budget)
  {
    hide Decimal;
  }

  lemma NoWindows()
    ensures Note(0, 0) == "[COLLAPSED head=0 tail=0]"
  {}

  /** Which pieces are shown: the first windows on the way down that fit. */
  lemma CollapsedShows(text: string, budget: nat)
    requires |text| > budget
    ensures var w := Shrink(FirstWindows(|text|), budget);
            && w.head + w.tail <= |text|
            && if Fits(w.head, w.tail, budget) then |Collapsed(text, budget)| <= budget && Shows(text, w.head, w.tail, Collapsed(text, budget))
               else Collapsed(text, budget) == Take("[COLLAPSED head=0 tail=0]", budget)
  {
    hide Shrink, FirstWindows, Note, Cut, Fits, Shows, Take;
    ShrinkBound(FirstWindows(|text|), budget);
    FirstWindowsFit(|text|);
    NoWindows();
    CutShows(text, Shrink(FirstWindows(|text|), budget), budget);
  }

  /** A collapsed text never exceeds its budget; it is the text itself, or a piece of its beginning and a piece of
      its end that do not overlap around the note, or, when not even that fits, the beginning of the note. */
  lemma CollapsedFits(text: string, budget: nat)
    ensures |Collapsed(text, budget)| <= budget
    ensures |text| <= budget ==> Collapsed(text, budget) == text
    ensures |text| > budget ==>
              || (exists h: nat, t: nat :: h + t <= |text| && Shows(text, h, t, Collapsed(text, budget)))
              || Collapsed(text, budget) <= "[COLLAPSED head=0 tail=0]"
  {
    hide Shrink, FirstWindows, Fits, Shows;
    if |text| > budget {
      CollapsedShows(text, budget);
      hide Collapsed;
    }
  }

  /** Narrow the windows one character at a time until they fit with their note, or are both gone. */
  method FitWindows(n: nat, budget: nat) returns (head: nat, tail: nat)
    ensures Windows(head, tail) == Shrink(FirstWindows(n), budget)
  {
    hide Note, Shrink;
    head, tail := Min(HEAD, n), Min(TAIL, n - Min(HEAD, n));
    if tail == 0 && n > 1 {
      tail := Min(TAIL, n / 2);
      head := Min(HEAD, n - tail);
    }
    while head + tail + |Note(head, tail)| + 2 > budget
      invariant Shrink(FirstWindows(n), budget) == Shrink(Windows(head, tail), budget)
      decreases head + tail
    {
      ShrinkNext(Windows(head, tail), budget);
      if head >= tail && head > 0 { head := head - 1; }
      else if tail > 0 { tail := tail - 1; }
      else { return; }
    }
    ShrinkNext(Windows(head, tail), budget);
  }

  lemma ShrinkNext(w: Windows, budget: nat)
    ensures Shrink(w, budget)
         == if Fits(w.head, w.tail, budget) || w.head + w.tail == 0 then w else Shrink(Narrower(w), budget)
  {}

  method Assemble(text: string, head: nat, tail: nat) returns (r: string)
    requires head + tail <= |text|
    ensures r == Cut(text, Windows(head, tail))
  {
    hide Note;
    var parts: seq<string> := [];
    if head > 0 { parts := parts + [text[..head]]; }
    parts := parts + [Note(head, tail)];
    if tail > 0 { parts := parts + [text[|text| - tail..]]; }
    r := Join(parts);
    JoinUpToThree(parts);
  }

  lemma JoinUpToThree(parts: seq<string>)
    ensures |parts| == 1 ==> Join(parts) == parts[0]
    ensures |parts| == 2 ==> Join(parts) == parts[0] + "\n" + parts[1]
    ensures |parts| == 3 ==> Join(parts) == parts[0] + "\n" + (parts[1] + "\n" + parts[2])
  {
    if |parts| == 3 { assert Join(parts[1..]) == parts[1] + "\n" + parts[2]; }
  }

  /** `maxChars` None is the mode without a budget. */
  method Collapse(text: string, maxChars: Option<int>) returns (r: string)
    ensures maxChars.Some? ==> r == Collapsed(text, if maxChars.value > 0 then maxChars.value else 0)
    ensures maxChars.None? ==> r == if |text| <= HEAD + TAIL then text else Cut(text, Windows(HEAD, TAIL))
  {
    hide Note, Cut, Shrink, FirstWindows;
    if maxChars.None? {
      if |text| <= HEAD + TAIL { return text; }
      r := Assemble(text, HEAD, TAIL);
      return;
    }
    var budget: nat := if maxChars.value > 0 then maxChars.value else 0;
    CollapsedFits(text, budget);
    if budget == 0 { return []; }
    if |text| <= budget { return text; }
    ShrinkBound(FirstWindows(|text|), budget);
    FirstWindowsFit(|text|);
    var head, tail := FitWindows(|text|, budget);
    if head + tail + |Note(head, tail)| + 2 > budget { return Take(Note(head, tail), budget); }
    r := Assemble(text, head, tail);
    if |r| > budget { assert false; }
  }

  // ---- Folding into a summary ----

  function LowerChar(c: char): char { if 'A' <= c <= 'Z' then (c as int + 32) as char else c }

  function Lower(s: string): string { seq(|s|, i requires 0 <= i < |s| => LowerChar(s[i])) }

  const PREFIX := "[EMBEDDING_SUMMARY embedding] "
  const SHORTEST: nat := |"[EMBEDDING_SUMMARY"|

  /** `summary` stands for the embedding summary: of everything up to four messages, else of all but the first two
      and the last two. */
  function Embedded(ms: seq<Message>, summary: string, max: nat): string {
    if |ms| <= 4 then
      if |summary| <= max then summary
      else if Occurs("embedding", Lower(Take(summary, max))) then Take(summary, max)
      else Take(PREFIX + Take(summary, max), max)
    else
      var head, tail := Lines(ms[..2]), Lines(ms[|ms| - 2..]);
      var whole := Join(head + [summary] + tail);
      if |whole| <= max then whole
      else
        var reserved := |Join(head)| + 1 + |Join(tail)| + 1;
        var remaining := if max > reserved then max - reserved else 0;
        var shorter := if remaining >= SHORTEST && |summary| > remaining
                       then Join(head + [Take(summary, remaining)] + tail) else whole;
        Collapsed(shorter, max)
  }

  lemma EmbeddedFits(ms: seq<Message>, summary: string, max: nat)
    ensures |Embedded(ms, summary, max)| <= max
  {
    hide Collapsed, Lower, Occurs, Join, Lines;
    if |ms| > 4 {
      var head, tail := Lines(ms[..2]), Lines(ms[|ms| - 2..]);
      var whole := Join(head + [summary] + tail);
      var reserved := |Join(head)| + 1 + |Join(tail)| + 1;
      var remaining := if max > reserved then max - reserved else 0;
      CollapsedFits(whole, max);
      CollapsedFits(Join(head + [Take(summary, remaining)] + tail), max);
    }
  }

  /** Up to four messages give way to their summary, which says that it is one if it had to be cut; of more, the first
      two and the last two stay around it. */
  lemma EmbeddedMeans(ms: seq<Message>, summary: string, max: nat)
    ensures |ms| <= 4 && |summary| <= max ==> Embedded(ms, summary, max) == summary
    ensures |ms| <= 4 && |summary| > max ==>
              Embedded(ms, summary, max)
              == if (exists a: string, b: string :: Lower(summary[..max]) == a + "embedding" + b) then summary[..max]
                 else ("[EMBEDDING_SUMMARY embedding] " + summary[..max])[..max]
    ensures |ms| > 4 ==>
              var first, last := Render(ms[..2]), Render(ms[|ms| - 2..]);
              var room := max - |first| - |last| - 2;
              && (|summary| <= room ==> Embedded(ms, summary, max) == first + "\n" + summary + "\n" + last)
              && (18 <= room < |summary| ==> Embedded(ms, summary, max) == first + "\n" + summary[..room] + "\n" + last)
              && (room < 18 && room < |summary| ==>
                    Embedded(ms, summary, max) == Collapsed(first + "\n" + summary + "\n" + last, max))
  {
    hide Collapsed, Lower, Occurs, Join;
    if |ms| > 4 {
      var first, last := Render(ms[..2]), Render(ms[|ms| - 2..]);
      var room := max - |first| - |last| - 2;
      AroundSummary(Lines(ms[..2]), summary, Lines(ms[|ms| - 2..]));
      if 18 <= room < |summary| {
        AroundSummary(Lines(ms[..2]), summary[..room], Lines(ms[|ms| - 2..]));
        CollapsedFits(first + "\n" + summary[..room] + "\n" + last, max);
      }
    } else if |summary| > max {
      OccursMeans("embedding", Lower(summary[..max]));
    }
  }

  lemma LowerMeans(s: string)
    ensures |Lower(s)| == |s|
    ensures forall i | 0 <= i < |s| :: if 'A' <= s[i] <= 'Z' then Lower(s)[i] as int == s[i] as int + 32 else Lower(s)[i] == s[i]
  {}

  lemma AroundSummary(head: seq<string>, summary: string, tail: seq<string>)
    requires head != [] && |tail| == 2
    ensures Join(head + [summary] + tail) == Join(head) + "\n" + summary + "\n" + Join(tail)
  {
    hide Join;
    assert tail == [tail[0]] + [tail[1]] && [] + [tail[0]] == [tail[0]];
    assert head + [summary] + tail == head + [summary] + [tail[0]] + [tail[1]];
    JoinSnoc(head, summary);
    JoinSnoc(head + [summary], tail[0]);
    JoinSnoc(head + [summary] + [tail[0]], tail[1]);
    JoinSnoc([tail[0]], tail[1]);
    JoinSnoc([], tail[0]);
    Below(Join(head) + "\n" + summary, tail[0], tail[1]);
  }

  lemma Below(x: string, y: string, z: string)
    ensures x + "\n" + y + "\n" + z == x + "\n" + (y + "\n" + z)
  {}

  lemma MarkerMeans(n: nat)
    ensures Marker(n).role == "system" && Marker(n).content == "[MICROCOMPACT] " + Decimal(n) + " older tool results folded"
    ensures Marker(n).chars == |Render([Marker(n)])|
  {}

  // ---- The manager ----

  /** The deepest stage that a compaction went through, as its banner tells. */
  datatype Banner = Unfolded | OldToolResults | HeadAndTail | Summary

  datatype Result = Result(truncated: bool, banner: Banner, text: string)

  /** The stages of a compaction; `summary` is None when the summariser raises an exception. */
  function Compacted(ms: seq<Message>, max: nat, summary: seq<Message> -> Option<string>): Result {
    var text := Render(ms);
    if 10 * |text| <= 5 * max then Result(false, Unfolded, text)
    else
      var work := Microcompacted(ms);
      var shown := Render(work);
      var sum := summary(if |work| <= 4 then work else work[2..|work| - 2]);
      if 10 * |shown| > 8 * max && sum.Some? then Result(true, Summary, Embedded(work, sum.value, max))
      else if 10 * |shown| > 7 * max then Result(true, HeadAndTail, Collapsed(shown, max))
      else if |Tools(ms)| > 3 then Result(true, OldToolResults, shown)
      else Result(false, Unfolded, text)
  }

  /** What the summariser says of the messages that are not kept: all of up to four, or those between the first two and
      the last two. */
  function Summarised(ms: seq<Message>, summary: seq<Message> -> Option<string>): Option<string> {
    var work := Microcompacted(ms);
    summary(if |work| > 4 then work[2..][..|work| - 4] else work)
  }

  /** Whatever the messages are and whatever the summariser does, the text stays within the bound, and a result
      that is not marked as truncated is the complete rendering.  The banner names the stage that gave the
      text, and only what folding had to change is marked. */
  lemma CompactedFits(ms: seq<Message>, max: nat, summary: seq<Message> -> Option<string>)
    ensures |Compacted(ms, max, summary).text| <= max
    ensures !Compacted(ms, max, summary).truncated ==> Compacted(ms, max, summary).text == Render(ms)
    ensures var (r, shown) := (Compacted(ms, max, summary), Render(Microcompacted(ms)));
            && (r.truncated <==> r.banner != Unfolded)
            && (r.banner.OldToolResults? ==> r.text == shown)
            && r.banner == (if 10 * |Render(ms)| <= 5 * max then Unfolded
                           else if 10 * |shown| > 8 * max && Summarised(ms, summary).Some? then Summary
                           else if 10 * |shown| > 7 * max then HeadAndTail
                           else if Microcompacted(ms) != ms then OldToolResults
                           else Unfolded)
            && (r.banner.Summary? ==> r.text == Embedded(Microcompacted(ms), Summarised(ms, summary).value, max))
            && (r.banner.HeadAndTail? ==> r.text == Collapsed(shown, max))
  {
    hide Render, Microcompacted, Embedded, Collapsed, Tools;
    var work := Microcompacted(ms);
    var sum := summary(if |work| <= 4 then work else work[2..|work| - 2]);
    if |work| > 4 { assert work[2..][..|work| - 4] == work[2..|work| - 2]; }
    assert sum == Summarised(ms, summary);
    if sum.Some? { EmbeddedFits(work, sum.value, max); }
    CollapsedFits(Render(work), max);
    MicrocompactMeans(ms);
  }

  class ContextManager {
    const maxChars: nat
    var messages: seq<Message>

    /** A bound that is not positive becomes 100. */
    constructor (max: int)
      ensures maxChars == (if max > 0 then max else 100) && messages == []
    {
      maxChars := if max > 0 then max else 100;
      messages := [];
    }

    method Add(role: string, content: string) returns (ok: bool)
      modifies this
      ensures ok <==> role in ROLES
      ensures messages == if ok then old(messages) + [Message(role, content, |role + ": " + content|)] else old(messages)
    {
      ok := role in ROLES;
      if ok { messages := messages + [Message(role, content, |role + ": " + content|)]; }
    }

    method Embed(ms: seq<Message>, summary: string) returns (text: string)
      ensures text == Embedded(ms, summary, maxChars)
    {
      hide Lines, Join, Occurs, Lower, Collapsed;
      if |ms| <= 4 {
        text := summary;
        if |text| > maxChars {
          text := text[..maxChars];
          if !Occurs("embedding", Lower(text)) {
            text := PREFIX + text;
            text := Take(text, maxChars);
          }
        }
        return;
      }
      var head, tail := Lines(ms[..2]), Lines(ms[|ms| - 2..]);
      text := Join(head + [summary] + tail);
      if |text| > maxChars {
        var reserved := |Join(head)| + 1 + |Join(tail)| + 1;
        var remaining := if maxChars > reserved then maxChars - reserved else 0;
        if remaining >= SHORTEST && |summary| > remaining {
          text := Join(head + [summary[..remaining]] + tail);
        }
        CollapsedFits(text, maxChars);
        if |text| > maxChars { text := Collapse(text, Some(maxChars)); }
      }
    }

    /** Folding never changes the messages themselves. */
    method Compact(summary: seq<Message> -> Option<string>) returns (r: Result)
      ensures r == Compacted(messages, maxChars, summary)
      ensures |r.text| <= maxChars
      ensures !r.truncated ==> r.text == Render(messages)
    {
      hide Render, Microcompacted, Embedded, Collapsed, Tools;
      CompactedFits(messages, maxChars, summary);
      var text := Render(messages);
      if 10 * |text| <= 5 * maxChars { return Result(false, Unfolded, text); }
      var work, folded := Microcompact(messages);
      var shown := Render(work);
      if 10 * |shown| > 8 * maxChars {
        var sum := summary(if |work| <= 4 then work else work[2..|work| - 2]);
        if sum.Some? {
          var e := Embed(work, sum.value);
          return Result(true, Summary, e);
        }
      }
      if 10 * |shown| > 7 * maxChars {
        var c := Collapse(shown, Some(maxChars));
        return Result(true, HeadAndTail, c);
      }
      if folded { return Result(true, OldToolResults, shown); }
      r := Result(false, Unfolded, text);
    }
  }
}
