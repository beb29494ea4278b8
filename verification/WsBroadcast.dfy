/** Broadcasting trace events to the WebSocket connections of every worker.

    A worker publishes each event to one Redis stream and then delivers it to its own connections; a
    consumer on every worker relays the entries of the others.  Each worker has its own consumer group,
    created at the start of the stream, and a fresh identity after every restart.
 */
module WsBroadcast {
  import opened Wrappers
  import opened Text

  type Worker = nat
  type Event = nat

  const COUNT: nat := 20

  /** A stream entry; `ms` is the first half of its ID. */
  datatype Entry = Entry(ms: int, origin: Worker, channel: string, event: Event)

  /** `cursor` counts the entries the group has handed out, `batch` holds those not yet looked at.
      `base` remembers how long the stream was when the consumer started. */
  datatype Consumer = Consumer(started: int, base: nat, cursor: nat, batch: seq<Entry>)

  /** An event handed to the local connection manager of a worker. */
  datatype Arrival = Arrival(worker: Worker, event: Event, channel: string, direct: bool)

  datatype State = State(
    now: int,
    stream: seq<Entry>,
    consumers: map<Worker, Consumer>,
    origins: seq<Worker>,         // who broadcast event 0, 1, ...
    owed: map<Event, string>,     // published, not yet delivered locally
    arrivals: seq<Arrival>)

  const INIT: State := State(0, [], map[], [], map[], [])

  datatype Step =
    | Tick(ms: nat)
    | Start(w: Worker, skew: int)               // the consumer's clock is ahead of the stream's by `skew`
    | Publish(w: Worker, channel: string, ok: bool)
    | Local(event: Event, ok: bool)
    | Read(w: Worker, ok: bool)                 // the next entries of the group; the reply may get lost
    | Fallback(w: Worker)                       // the group read failed: read the stream from its start
    | Handle(w: Worker, ok: bool)               // one entry of the batch

  predicate Wanted(x: Entry, w: Worker, started: int) { x.ms >= started && x.origin != w }

  function Min(a: nat, b: nat): nat { if a < b then a else b }

  /** The next read of the group: at most COUNT entries from the cursor on. */
  function Fill(stream: seq<Entry>, c: Consumer): Consumer
    requires c.cursor <= |stream|
  {
    var end := Min(c.cursor + COUNT, |stream|);
    c.(cursor := end, batch := stream[c.cursor..end])
  }

  function Pop(c: Consumer): Consumer
    requires c.batch != []
  {
    c.(batch := c.batch[1..])
  }

  function Next(s: State, step: Step): State {
    match step
    case Tick(ms) => s.(now := s.now + ms)
    case Start(w, skew) =>
      if w in s.consumers then s else s.(consumers := s.consumers[w := Consumer(s.now + skew, |s.stream|, 0, [])])
    case Publish(w, channel, ok) =>
      var e := |s.origins|;
      s.(origins := s.origins + [w], owed := s.owed[e := channel],
         stream := if ok then s.stream + [Entry(s.now, w, channel, e)] else s.stream)
    case Local(e, ok) =>
      if e !in s.owed || e >= |s.origins| then s
      else s.(owed := s.owed - {e},
              arrivals := if ok then s.arrivals + [Arrival(s.origins[e], e, s.owed[e], true)] else s.arrivals)
    case Read(w, ok) =>
      if w !in s.consumers || s.consumers[w].batch != [] || s.consumers[w].cursor > |s.stream| then s
      else
        var c := s.consumers[w];
        s.(consumers := s.consumers[w := if ok then Fill(s.stream, c) else Fill(s.stream, c).(batch := [])])
    case Fallback(w) =>
      if w !in s.consumers || s.consumers[w].batch != [] then s
      else s.(consumers := s.consumers[w := s.consumers[w].(batch := s.stream[..Min(COUNT, |s.stream|)])])
    case Handle(w, ok) =>
      if w !in s.consumers || s.consumers[w].batch == [] then s
      else
        var c := s.consumers[w];
        var x := c.batch[0];
        s.(consumers := s.consumers[w := Pop(c)],
           arrivals := if Wanted(x, w, c.started) && ok then s.arrivals + [Arrival(w, x.event, x.channel, false)]
                       else s.arrivals)
  }

  function Exec(s: State, steps: seq<Step>): State {
    if steps == [] then s else Next(Exec(s, steps[..|steps| - 1]), steps[|steps| - 1])
  }

  // ---- What a worker has heard ----

  /** The events that reached the manager of `w`, directly or through the stream. */
  function Heard(arrivals: seq<Arrival>, w: Worker, direct: bool): seq<Event> {
    if arrivals == [] then []
    else
      var front, last := Heard(arrivals[..|arrivals| - 1], w, direct), arrivals[|arrivals| - 1];
      if last.worker == w && last.direct == direct then front + [last.event] else front
  }

  /** How often `w` has heard an event. */
  function Times(s: State, w: Worker, e: Event): nat {
    multiset(Heard(s.arrivals, w, true))[e] + multiset(Heard(s.arrivals, w, false))[e]
  }

  lemma HeardSnoc(arrivals: seq<Arrival>, a: Arrival, w: Worker, direct: bool)
    ensures Heard(arrivals + [a], w, direct)
         == if a.worker == w && a.direct == direct then Heard(arrivals, w, direct) + [a.event]
            else Heard(arrivals, w, direct)
  {
    assert (arrivals + [a])[..|arrivals|] == arrivals;
  }

  predicate Rising(list: seq<Event>) { forall i, j | 0 <= i < j < |list| :: list[i] < list[j] }

  predicate Below(list: seq<Event>, e: Event) { forall r <- list :: r < e }

  lemma RisingSnoc(list: seq<Event>, e: Event)
    requires Rising(list) && Below(list, e)
    ensures Rising(list + [e]) && e !in list
  {
    assert forall i | 0 <= i < |list| :: list[i] in list;
  }

  lemma {:induction false} RisingOnce(list: seq<Event>, e: Event)
    requires Rising(list)
    ensures multiset(list)[e] == if e in list then 1 else 0
  {
    if list != [] {
      var front := list[..|list| - 1];
      RisingOnce(front, e);
      assert list == front + [list[|list| - 1]];
    }
  }

  predicate Distinct(list: seq<Event>) { forall i, j | 0 <= i < j < |list| :: list[i] != list[j] }

  lemma {:induction false} DistinctOnce(list: seq<Event>, e: Event)
    requires Distinct(list)
    ensures multiset(list)[e] == if e in list then 1 else 0
  {
    if list != [] {
      var front := list[..|list| - 1];
      DistinctOnce(front, e);
      assert list == front + [list[|list| - 1]];
    }
  }

  // ---- What every run without a fallback read keeps, whatever fails ----

  predicate StreamOk(stream: seq<Entry>, origins: seq<Worker>) {
    && (forall x <- stream :: x.event < |origins| && origins[x.event] == x.origin)
    && (forall i, j | 0 <= i < j < |stream| :: stream[i].event < stream[j].event)
  }

  /** The batch is the stretch of the stream that ends at the group's cursor. */
  predicate ConsumerOk(stream: seq<Entry>, c: Consumer) {
    |c.batch| <= c.cursor <= |stream| && c.batch == stream[c.cursor - |c.batch|..c.cursor]
  }

  function Handled(c: Consumer): int { c.cursor - |c.batch| }

  lemma FillOk(stream: seq<Entry>, c: Consumer)
    requires ConsumerOk(stream, c) && c.batch == []
    ensures ConsumerOk(stream, Fill(stream, c)) && Handled(Fill(stream, c)) == Handled(c)
    ensures Fill(stream, c).started == c.started
    ensures 0 <= Handled(c) <= |stream|
    ensures ConsumerOk(stream, Fill(stream, c).(batch := [])) && Handled(Fill(stream, c).(batch := [])) >= Handled(c)
  {}

  lemma PopOk(stream: seq<Entry>, c: Consumer)
    requires ConsumerOk(stream, c) && c.batch != []
    ensures ConsumerOk(stream, Pop(c)) && Handled(Pop(c)) == Handled(c) + 1 && Pop(c).started == c.started
    ensures 0 <= Handled(c) < |stream| && c.batch[0] == stream[Handled(c)]
  {}

  lemma GrowOk(stream: seq<Entry>, x: Entry, c: Consumer)
    requires ConsumerOk(stream, c)
    ensures ConsumerOk(stream + [x], c) && 0 <= Handled(c) <= |stream|
  {}

  /** The relayed events are in stream order and lie before everything still to be handled. */
  predicate RelayList(heard: seq<Event>, stream: seq<Entry>, origins: seq<Worker>, w: Worker, c: Consumer) {
    && ConsumerOk(stream, c)
    && forall i | Handled(c) <= i < |stream| :: Below(heard, stream[i].event)
  }

  predicate RelayOk(s: State, w: Worker) {
    var heard := Heard(s.arrivals, w, false);
    && Rising(heard)
    && (forall e <- heard :: e < |s.origins| && s.origins[e] != w)
    && if w in s.consumers then RelayList(heard, s.stream, s.origins, w, s.consumers[w]) else heard == []
  }

  predicate DirectOk(s: State, w: Worker) {
    var heard := Heard(s.arrivals, w, true);
    && Distinct(heard)
    && forall e <- heard :: e < |s.origins| && s.origins[e] == w && e !in s.owed
  }

  ghost predicate Inv(s: State) {
    && StreamOk(s.stream, s.origins)
    && (forall e <- s.owed :: e < |s.origins|)
    && (forall w: Worker :: RelayOk(s, w))
    && (forall w: Worker :: DirectOk(s, w))
  }

  lemma RelayPublish(s: State, v: Worker, channel: string, ok: bool, w: Worker)
    requires StreamOk(s.stream, s.origins) && RelayOk(s, w)
    ensures RelayOk(Next(s, Publish(v, channel, ok)), w)
  {
    assert Below(Heard(s.arrivals, w, false), |s.origins|);
    if w in s.consumers {
      GrowOk(s.stream, Entry(s.now, v, channel, |s.origins|), s.consumers[w]);
      hide ConsumerOk, Handled, Rising;
      assert RelayOk(Next(s, Publish(v, channel, ok)), w);
    }
  }

  lemma RelayRead(s: State, v: Worker, ok: bool, w: Worker)
    requires RelayOk(s, w)
    ensures RelayOk(Next(s, Read(v, ok)), w)
  {
    if v == w && w in s.consumers && s.consumers[w].batch == [] {
      FillOk(s.stream, s.consumers[w]);
      hide ConsumerOk, Handled, Rising, Fill;
      assert RelayOk(Next(s, Read(v, ok)), w);
    }
  }

  lemma RelayListPop(heard: seq<Event>, stream: seq<Entry>, origins: seq<Worker>, w: Worker, c: Consumer)
    requires StreamOk(stream, origins) && RelayList(heard, stream, origins, w, c) && Rising(heard) && c.batch != []
    ensures RelayList(heard, stream, origins, w, Pop(c))
    ensures Rising(heard + [c.batch[0].event]) && RelayList(heard + [c.batch[0].event], stream, origins, w, Pop(c))
    ensures c.batch[0] in stream
  {
    var e := c.batch[0].event;
    PopOk(stream, c);
    assert Below(heard, e);
    RisingSnoc(heard, e);
    hide ConsumerOk, Handled, Pop, Rising;
    forall i | Handled(Pop(c)) <= i < |stream| ensures Below(heard + [e], stream[i].event) {
      assert Below(heard, stream[i].event) && e < stream[i].event;
    }
  }

  lemma StreamHas(stream: seq<Entry>, origins: seq<Worker>, x: Entry)
    requires StreamOk(stream, origins)
    ensures x in stream ==> x.event < |origins| && origins[x.event] == x.origin
  {}

  lemma RelayHandle(s: State, ok: bool, w: Worker)
    requires StreamOk(s.stream, s.origins) && RelayOk(s, w) && w in s.consumers && s.consumers[w].batch != []
    ensures RelayOk(Next(s, Handle(w, ok)), w)
  {
    hide Heard, Pop, Rising, RelayList, StreamOk;
    var c := s.consumers[w];
    var x := c.batch[0];
    HeardSnoc(s.arrivals, Arrival(w, x.event, x.channel, false), w, false);
    StreamHas(s.stream, s.origins, x);
    RelayListPop(Heard(s.arrivals, w, false), s.stream, s.origins, w, c);
    var t := Next(s, Handle(w, ok));
    assert t.consumers[w] == Pop(c) && t.stream == s.stream && t.origins == s.origins;
  }

  lemma RelayStep(s: State, step: Step, w: Worker)
    requires StreamOk(s.stream, s.origins) && RelayOk(s, w) && !step.Fallback?
    ensures RelayOk(Next(s, step), w)
  {
    match step
    case Publish(v, channel, ok) => RelayPublish(s, v, channel, ok, w);
    case Read(v, ok) => RelayRead(s, v, ok, w);
    case Handle(v, ok) =>
      if v in s.consumers && s.consumers[v].batch != [] {
        if v == w { RelayHandle(s, ok, w); }
        else {
          OthersArrival(s, step, w);
        }
      }
    case Local(e, ok) => OthersArrival(s, step, w);
    case Start(v, skew) =>
    case Tick(ms) =>
  }

  /** Direct deliveries, and relays on other workers, change nothing for the relay of `w`. */
  lemma OthersArrival(s: State, step: Step, w: Worker)
    requires step.Local? || (step.Handle? && step.w != w)
    ensures var t := Next(s, step);
            && Heard(t.arrivals, w, false) == Heard(s.arrivals, w, false)
            && t.stream == s.stream && t.origins == s.origins
            && (w in t.consumers <==> w in s.consumers) && (w in s.consumers ==> t.consumers[w] == s.consumers[w])
  {
    var t := Next(s, step);
    if t.arrivals != s.arrivals {
      var a := t.arrivals[|s.arrivals|];
      assert t.arrivals == s.arrivals + [a];
      HeardSnoc(s.arrivals, a, w, false);
    }
  }

  lemma RelayIsNotDirect(s: State, step: Step, w: Worker)
    requires !step.Local?
    ensures Heard(Next(s, step).arrivals, w, true) == Heard(s.arrivals, w, true)
  {
    var t := Next(s, step);
    if t.arrivals != s.arrivals {
      var a := t.arrivals[|s.arrivals|];
      assert t.arrivals == s.arrivals + [a];
      HeardSnoc(s.arrivals, a, w, true);
    }
  }

  lemma DirectLocal(s: State, e: Event, ok: bool, w: Worker)
    requires DirectOk(s, w) && e in s.owed && e < |s.origins|
    ensures DirectOk(Next(s, Local(e, ok)), w)
  {
    hide Heard;
    var heard := Heard(s.arrivals, w, true);
    HeardSnoc(s.arrivals, Arrival(s.origins[e], e, s.owed[e], true), w, true);
    assert e !in heard;
    var later := Heard(Next(s, Local(e, ok)).arrivals, w, true);
    assert later == heard || later == heard + [e];
    assert forall i | 0 <= i < |heard| :: heard[i] in heard;
  }

  lemma DirectStep(s: State, step: Step, w: Worker)
    requires DirectOk(s, w) && forall e <- s.owed :: e < |s.origins|
    ensures DirectOk(Next(s, step), w)
  {
    if step.Local? {
      if step.event in s.owed { DirectLocal(s, step.event, step.ok, w); }
    } else {
      RelayIsNotDirect(s, step, w);
      hide Heard, Fill, Pop, Distinct;
      assert DirectOk(Next(s, step), w);
    }
  }

  lemma StepKeeps(s: State, step: Step)
    requires Inv(s) && !step.Fallback?
    ensures Inv(Next(s, step))
  {
    assert StreamOk(Next(s, step).stream, Next(s, step).origins);
    assert forall e <- Next(s, step).owed :: e < |Next(s, step).origins|;
    hide RelayOk, DirectOk, StreamOk, Next;
    forall w: Worker ensures RelayOk(Next(s, step), w) && DirectOk(Next(s, step), w) {
      RelayStep(s, step, w);
      DirectStep(s, step, w);
    }
  }

  predicate NoFallback(steps: seq<Step>) { forall step <- steps :: !step.Fallback? }

  lemma {:induction false} ExecKeeps(s: State, steps: seq<Step>)
    requires Inv(s) && NoFallback(steps)
    ensures Inv(Exec(s, steps))
  {
    hide Inv, Next;
    if steps != [] {
      ExecKeeps(s, steps[..|steps| - 1]);
      StepKeeps(Exec(s, steps[..|steps| - 1]), steps[|steps| - 1]);
    }
  }

  lemma InitOk()
    ensures Inv(INIT)
  {}

  /** In every run without a fallback read, however many publishes, forwards and deliveries fail, no worker
      hears an event twice, the origin hears its own events only directly, and the others only through the
      stream and in the order of publication. */
  lemma AtMostOnce(steps: seq<Step>, w: Worker, e: Event)
    requires NoFallback(steps)
    ensures var s := Exec(INIT, steps);
            && Times(s, w, e) <= 1
            && (Times(s, w, e) == 1 ==> e < |s.origins| && (e in Heard(s.arrivals, w, true) <==> s.origins[e] == w))
            && Rising(Heard(s.arrivals, w, false))
  {
    InitOk();
    ExecKeeps(INIT, steps);
    var s := Exec(INIT, steps);
    assert RelayOk(s, w) && DirectOk(s, w);
    RisingOnce(Heard(s.arrivals, w, false), e);
    DistinctOnce(Heard(s.arrivals, w, true), e);
  }

  // ---- A forward that failed is not tried again ----

  /** Never relayed to `w`, and the group is past it. */
  predicate Missed(s: State, w: Worker, e: Event) {
    && w in s.consumers && ConsumerOk(s.stream, s.consumers[w]) && e < |s.origins|
    && e !in Heard(s.arrivals, w, false)
    && (forall i | Handled(s.consumers[w]) <= i < |s.stream| :: e < s.stream[i].event)
  }

  lemma MissedStep(s: State, step: Step, w: Worker, e: Event)
    requires StreamOk(s.stream, s.origins) && Missed(s, w, e) && !step.Fallback?
    ensures Missed(Next(s, step), w, e)
  {
    var c := s.consumers[w];
    match step
    case Publish(v, channel, ok) => GrowOk(s.stream, Entry(s.now, v, channel, |s.origins|), c);
    case Read(v, ok) => if v == w && c.batch == [] { FillOk(s.stream, c); }
    case Handle(v, ok) =>
      if v == w && c.batch != [] {
        PopOk(s.stream, c);
        HeardSnoc(s.arrivals, Arrival(w, c.batch[0].event, c.batch[0].channel, false), w, false);
      } else if v != w {
        OthersArrival(s, step, w);
      }
    case Local(l, ok) => OthersArrival(s, step, w);
    case _ =>
    hide ConsumerOk, Handled, Heard, Fill, Pop;
  }

  lemma {:induction false} MissedStays(s: State, steps: seq<Step>, w: Worker, e: Event)
    requires Inv(s) && Missed(s, w, e) && NoFallback(steps)
    ensures Missed(Exec(s, steps), w, e)
  {
    hide Inv, Missed, Next;
    if steps != [] {
      MissedStays(s, steps[..|steps| - 1], w, e);
      ExecKeeps(s, steps[..|steps| - 1]);
      InvRelay(Exec(s, steps[..|steps| - 1]), w);
      MissedStep(Exec(s, steps[..|steps| - 1]), steps[|steps| - 1], w, e);
    }
  }

  /** Unacknowledged or not, an entry whose forward failed is lost to the worker: the group hands out only
      new entries, so no later step relays it. */
  lemma FailedForwardIsLost(s: State, w: Worker, later: seq<Step>)
    requires Inv(s) && w in s.consumers && s.consumers[w].batch != [] && NoFallback(later)
    ensures s.consumers[w].batch[0].event !in Heard(Exec(Next(s, Handle(w, false)), later).arrivals, w, false)
  {
    var c := s.consumers[w];
    var x := c.batch[0];
    assert RelayOk(s, w);
    assert x == s.stream[Handled(c)];
    var t := Next(s, Handle(w, false));
    StepKeeps(s, Handle(w, false));
    assert RelayOk(t, w);
    assert Missed(t, w, x.event);
    MissedStays(t, later, w, x.event);
  }

  // ---- When nothing fails ----

  predicate SmoothStep(step: Step) {
    !step.Fallback? && (step.Publish? || step.Local? || step.Read? || step.Handle? ==> step.ok)
  }

  predicate Smooth(steps: seq<Step>) { forall step <- steps :: SmoothStep(step) }

  /** The events a consumer has to relay from a stretch of the stream. */
  function Foreign(entries: seq<Entry>, w: Worker, started: int): seq<Event> {
    if entries == [] then []
    else
      var front, x := Foreign(entries[..|entries| - 1], w, started), entries[|entries| - 1];
      if Wanted(x, w, started) then front + [x.event] else front
  }

  lemma ForeignSnoc(entries: seq<Entry>, x: Entry, w: Worker, started: int)
    ensures Foreign(entries + [x], w, started)
         == if Wanted(x, w, started) then Foreign(entries, w, started) + [x.event] else Foreign(entries, w, started)
  {
    assert (entries + [x])[..|entries|] == entries;
  }

  /** The consumer has relayed exactly the wanted entries of what it has handled, in stream order. */
  predicate Relays(s: State, w: Worker) {
    if w !in s.consumers then Heard(s.arrivals, w, false) == []
    else
      && ConsumerOk(s.stream, s.consumers[w])
      && Heard(s.arrivals, w, false) == Foreign(s.stream[..Handled(s.consumers[w])], w, s.consumers[w].started)
  }

  /** Entry e is event e, and its origin has delivered it or owes it. */
  predicate Complete(s: State) {
    && |s.stream| == |s.origins|
    && (forall e | 0 <= e < |s.stream| :: s.stream[e].event == e && s.stream[e].origin == s.origins[e])
    && (forall e | 0 <= e < |s.origins| :: e in s.owed || e in Heard(s.arrivals, s.origins[e], true))
  }

  lemma RelaysPop(stream: seq<Entry>, w: Worker, c: Consumer)
    requires ConsumerOk(stream, c) && c.batch != []
    ensures 0 <= Handled(c) <= |stream| && 0 <= Handled(Pop(c)) <= |stream|
    ensures Foreign(stream[..Handled(Pop(c))], w, c.started)
         == Foreign(stream[..Handled(c)], w, c.started) + if Wanted(c.batch[0], w, c.started) then [c.batch[0].event] else []
  {
    PopOk(stream, c);
    assert stream[..Handled(c) + 1] == stream[..Handled(c)] + [c.batch[0]];
    ForeignSnoc(stream[..Handled(c)], c.batch[0], w, c.started);
  }

  lemma RelaysPublish(s: State, v: Worker, channel: string, w: Worker)
    requires Relays(s, w)
    ensures Relays(Next(s, Publish(v, channel, true)), w)
  {
    hide Heard, Foreign;
    assert Next(s, Publish(v, channel, true)).consumers == s.consumers;
    if w in s.consumers {
      var c, x := s.consumers[w], Entry(s.now, v, channel, |s.origins|);
      GrowOk(s.stream, x, c);
      hide ConsumerOk, Handled;
      assert (s.stream + [x])[..Handled(c)] == s.stream[..Handled(c)];
    }
  }

  lemma RelaysStart(s: State, v: Worker, skew: int, w: Worker)
    requires Relays(s, w)
    ensures Relays(Next(s, Start(v, skew)), w)
  {
    var t := Next(s, Start(v, skew));
    assert t.arrivals == s.arrivals && t.stream == s.stream;
    if w in s.consumers {
      assert t.consumers[w] == s.consumers[w];
    } else if w in t.consumers {
      RelaysNothing(s.stream, t.consumers[w], w);
    }
    hide Next, ConsumerOk, Handled, Heard, Foreign;
  }

  lemma RelaysNothing(stream: seq<Entry>, c: Consumer, w: Worker)
    requires c.cursor == 0 && c.batch == []
    ensures ConsumerOk(stream, c) && Handled(c) == 0 && Foreign(stream[..Handled(c)], w, c.started) == []
  {}

  lemma RelaysHandle(s: State, w: Worker)
    requires Relays(s, w) && w in s.consumers && s.consumers[w].batch != []
    ensures Relays(Next(s, Handle(w, true)), w)
  {
    hide ConsumerOk, Heard, Foreign, Pop;
    PopOk(s.stream, s.consumers[w]);
    RelaysPop(s.stream, w, s.consumers[w]);
    HandleOne(s, w);
    hide Handled, Wanted;
    assert Next(s, Handle(w, true)).stream == s.stream;
  }

  lemma RelaysStep(s: State, step: Step, w: Worker)
    requires Relays(s, w) && SmoothStep(step)
    ensures Relays(Next(s, step), w)
  {
    hide ConsumerOk, Heard, Foreign, Fill, Pop;
    match step
    case Publish(v, channel, ok) => RelaysPublish(s, v, channel, w);
    case Read(v, ok) => if v == w && w in s.consumers && s.consumers[w].batch == [] { FillOk(s.stream, s.consumers[w]); }
    case Handle(v, ok) =>
      if v == w && w in s.consumers && s.consumers[w].batch != [] { RelaysHandle(s, w); }
      else if v != w { OthersArrival(s, step, w); }
    case Local(l, ok) => OthersArrival(s, step, w);
    case Start(v, skew) => RelaysStart(s, v, skew, w);
    case Tick(ms) =>
  }

  lemma CompleteStep(s: State, step: Step)
    requires Complete(s) && SmoothStep(step)
    ensures Complete(Next(s, step))
  {
    hide Heard, Fill, Pop, Wanted;
    var t := Next(s, step);
    forall e | 0 <= e < |t.origins| ensures e in t.owed || e in Heard(t.arrivals, t.origins[e], true) {
      if t.arrivals != s.arrivals {
        var a := t.arrivals[|s.arrivals|];
        assert t.arrivals == s.arrivals + [a];
        HeardSnoc(s.arrivals, a, t.origins[e], true);
      }
    }
  }

  lemma {:induction false} SmoothKeeps(steps: seq<Step>, w: Worker)
    requires Smooth(steps)
    ensures var s := Exec(INIT, steps); Inv(s) && Relays(s, w) && Complete(s)
  {
    hide Inv, Next, Complete, Relays;
    if steps == [] {
      InitOk();
      assert Relays(INIT, w) && Complete(INIT) by { SmoothInit(w); }
    } else {
      var front := steps[..|steps| - 1];
      SmoothKeeps(front, w);
      var s := Exec(INIT, front);
      InvRelay(s, w);
      assert SmoothStep(steps[|steps| - 1]);
      StepKeeps(s, steps[|steps| - 1]);
      RelaysStep(s, steps[|steps| - 1], w);
      CompleteStep(s, steps[|steps| - 1]);
    }
  }

  lemma SmoothInit(w: Worker)
    ensures Relays(INIT, w) && Complete(INIT)
  {}

  lemma InvRelay(s: State, w: Worker)
    requires Inv(s)
    ensures RelayOk(s, w) && DirectOk(s, w) && StreamOk(s.stream, s.origins)
  {}

  lemma {:induction false} ForeignHas(entries: seq<Entry>, w: Worker, started: int, e: Event)
    ensures e in Foreign(entries, w, started) <==> exists x <- entries :: Wanted(x, w, started) && x.event == e
  {
    if entries != [] {
      var front, x := entries[..|entries| - 1], entries[|entries| - 1];
      ForeignHas(front, w, started, e);
      assert entries == front + [x];
    }
  }

  /** When publishes, forwards and deliveries succeed, a worker whose consumer has caught up has heard every
      event exactly once if it broadcast it or its consumer started no later than the entry's timestamp, and
      not at all otherwise: no echo, no replay after a restart, nothing missed. */
  lemma ExactlyOnce(steps: seq<Step>, w: Worker, e: Event)
    requires Smooth(steps)
    requires var s := Exec(INIT, steps);
             w in s.consumers && Handled(s.consumers[w]) == |s.stream| && e < |s.origins| && e !in s.owed
    ensures var s := Exec(INIT, steps);
            && |s.stream| == |s.origins| && s.stream[e].event == e
            && Times(s, w, e) == if s.origins[e] == w || s.stream[e].ms >= s.consumers[w].started then 1 else 0
  {
    hide Inv, Exec, Next, Heard, Foreign;
    SmoothKeeps(steps, w);
    var s := Exec(INIT, steps);
    var c := s.consumers[w];
    InvRelay(s, w);
    assert Complete(s) && Relays(s, w);
    assert s.stream[..|s.stream|] == s.stream;
    ForeignHas(s.stream, w, c.started, e);
    assert e in Heard(s.arrivals, w, false) <==> Wanted(s.stream[e], w, c.started) by {
      assert s.stream[e] in s.stream;
    }
    RisingOnce(Heard(s.arrivals, w, false), e);
    DistinctOnce(Heard(s.arrivals, w, true), e);
  }

  // ---- Clocks ----

  predicate ClocksAgree(steps: seq<Step>) { forall step <- steps :: step.Start? ==> step.skew == 0 }

  /** What was in the stream when a consumer started is not newer than its start, the rest not older. */
  predicate Dated(s: State) {
    && (forall x <- s.stream :: x.ms <= s.now)
    && forall w <- s.consumers :: DatedFor(s.stream, s.consumers[w], s.now)
  }

  predicate DatedFor(stream: seq<Entry>, c: Consumer, now: int) {
    && c.base <= |stream| && c.started <= now
    && (forall i | 0 <= i < c.base :: stream[i].ms <= c.started)
    && (forall i | c.base <= i < |stream| :: stream[i].ms >= c.started)
  }

  lemma DatedStep(s: State, step: Step)
    requires Dated(s) && (step.Start? ==> step.skew == 0)
    ensures Dated(Next(s, step))
  {
    var t := Next(s, step);
    forall w <- t.consumers ensures DatedFor(t.stream, t.consumers[w], t.now) {
      if w in s.consumers {
        assert DatedFor(s.stream, s.consumers[w], s.now);
        assert t.consumers[w].base == s.consumers[w].base && t.consumers[w].started == s.consumers[w].started;
      } else {
        assert forall i | 0 <= i < |s.stream| :: s.stream[i] in s.stream;
      }
    }
  }

  lemma {:induction false} DatedKeeps(steps: seq<Step>)
    requires ClocksAgree(steps)
    ensures Dated(Exec(INIT, steps))
  {
    if steps == [] {
      assert Dated(INIT);
    } else {
      DatedKeeps(steps[..|steps| - 1]);
      DatedStep(Exec(INIT, steps[..|steps| - 1]), steps[|steps| - 1]);
    }
    hide Dated, Next;
  }

  /** With agreeing clocks a caught-up worker hears exactly once whatever was published after its consumer
      started, and never relays what was published in an earlier millisecond than its start. */
  lemma NewIsHeardOldIsNot(steps: seq<Step>, w: Worker, e: Event)
    requires Smooth(steps) && ClocksAgree(steps)
    requires var s := Exec(INIT, steps);
             w in s.consumers && Handled(s.consumers[w]) == |s.stream| && e < |s.origins| && e !in s.owed
    ensures var s := Exec(INIT, steps);
            && |s.stream| == |s.origins|
            && (e >= s.consumers[w].base ==> Times(s, w, e) == 1)
            && (s.origins[e] != w && s.stream[e].ms < s.consumers[w].started ==> Times(s, w, e) == 0)
  {
    ExactlyOnce(steps, w, e);
    DatedKeeps(steps);
  }

  // ---- Channels stay with their events ----

  /** The workers that broadcast, and the channels they gave, in the order of the events. */
  function Publishers(steps: seq<Step>): seq<Worker> {
    if steps == [] then []
    else
      var front, step := Publishers(steps[..|steps| - 1]), steps[|steps| - 1];
      if step.Publish? then front + [step.w] else front
  }

  function Announced(steps: seq<Step>): seq<string> {
    if steps == [] then []
    else
      var front, step := Announced(steps[..|steps| - 1]), steps[|steps| - 1];
      if step.Publish? then front + [step.channel] else front
  }

  /** The entries are those of announced events, each with its channel and its publisher. */
  predicate Labelled(entries: seq<Entry>, channels: seq<string>, origins: seq<Worker>) {
    |origins| == |channels|
    && forall x <- entries :: x.event < |channels| && x.channel == channels[x.event] && x.origin == origins[x.event]
  }

  predicate ArrivalsOk(arrivals: seq<Arrival>, channels: seq<string>, origins: seq<Worker>) {
    |origins| == |channels|
    && forall a <- arrivals :: a.event < |channels| && a.channel == channels[a.event] && (a.direct <==> a.worker == origins[a.event])
  }

  predicate BatchesOk(s: State, channels: seq<string>) {
    forall w <- s.consumers :: Labelled(s.consumers[w].batch, channels, s.origins)
  }

  predicate OwedOk(owed: map<Event, string>, channels: seq<string>) {
    forall e <- owed :: e < |channels| && owed[e] == channels[e]
  }

  predicate ChannelsOk(s: State, channels: seq<string>) {
    && Labelled(s.stream, channels, s.origins) && BatchesOk(s, channels)
    && OwedOk(s.owed, channels) && ArrivalsOk(s.arrivals, channels, s.origins)
  }

  lemma PublishLabels(s: State, w: Worker, channel: string, ok: bool, channels: seq<string>)
    requires ChannelsOk(s, channels)
    ensures ChannelsOk(Next(s, Publish(w, channel, ok)), channels + [channel])
  {
    var t, more := Next(s, Publish(w, channel, ok)), channels + [channel];
    assert Labelled(t.stream, more, t.origins);
    assert BatchesOk(t, more) by {
      forall v <- t.consumers ensures Labelled(t.consumers[v].batch, more, t.origins) {
        assert Labelled(s.consumers[v].batch, channels, s.origins);
      }
    }
    assert ArrivalsOk(t.arrivals, more, t.origins);
  }

  lemma PartLabelled(entries: seq<Entry>, part: seq<Entry>, channels: seq<string>, origins: seq<Worker>)
    requires Labelled(entries, channels, origins) && forall x <- part :: x in entries
    ensures Labelled(part, channels, origins)
  {}

  /** What any worker is handed is labelled too. */
  lemma ConsumersLabelled(s: State, step: Step, channels: seq<string>)
    requires ChannelsOk(s, channels) && (step.Read? || step.Fallback? || step.Handle? || step.Start?)
    ensures BatchesOk(Next(s, step), channels)
  {
    var t := Next(s, step);
    forall v <- t.consumers ensures Labelled(t.consumers[v].batch, channels, t.origins) {
      if v in s.consumers {
        assert Labelled(s.consumers[v].batch, channels, s.origins);
        assert forall x <- t.consumers[v].batch :: x in s.stream || x in s.consumers[v].batch;
      }
    }
  }

  lemma ArrivesLabelled(s: State, step: Step, channels: seq<string>)
    requires ChannelsOk(s, channels) && (step.Local? || step.Handle?)
    ensures ArrivalsOk(Next(s, step).arrivals, channels, Next(s, step).origins)
  {
    if step.Handle? && step.w in s.consumers && s.consumers[step.w].batch != [] {
      var x := s.consumers[step.w].batch[0];
      assert x in s.consumers[step.w].batch && Labelled(s.consumers[step.w].batch, channels, s.origins);
    }
  }

  lemma ChannelsStep(s: State, step: Step, channels: seq<string>)
    requires ChannelsOk(s, channels)
    ensures ChannelsOk(Next(s, step), if step.Publish? then channels + [step.channel] else channels)
  {
    match step
    case Publish(w, channel, ok) => PublishLabels(s, w, channel, ok, channels);
    case Local(e, ok) => ArrivesLabelled(s, step, channels);
    case Handle(w, ok) =>
      ArrivesLabelled(s, step, channels);
      ConsumersLabelled(s, step, channels);
    case Tick(_) =>
    case _ => ConsumersLabelled(s, step, channels);
  }

  lemma {:induction false} ChannelsKept(steps: seq<Step>)
    ensures ChannelsOk(Exec(INIT, steps), Announced(steps)) && Exec(INIT, steps).origins == Publishers(steps)
  {
    hide ChannelsOk, Next;
    if steps == [] {
      assert ChannelsOk(INIT, []) by { NothingLabelled(); }
    } else {
      var front := steps[..|steps| - 1];
      ChannelsKept(front);
      ChannelsStep(Exec(INIT, front), steps[|steps| - 1], Announced(front));
      OriginsStep(Exec(INIT, front), steps[|steps| - 1]);
    }
  }

  lemma OriginsStep(s: State, step: Step)
    ensures Next(s, step).origins == if step.Publish? then s.origins + [step.w] else s.origins
  {}

  lemma NothingLabelled()
    ensures ChannelsOk(INIT, [])
  {}

  /** Over every run, whatever fails and however often entries are read again: an event arrives on the channel that
      it was published for and no other, directly on the worker that published it and through the stream on the
      others. */
  lemma ArrivesOnItsChannel(steps: seq<Step>, a: Arrival)
    requires a in Exec(INIT, steps).arrivals
    ensures |Publishers(steps)| == |Announced(steps)| && a.event < |Announced(steps)|
    ensures a.channel == Announced(steps)[a.event] && (a.direct <==> a.worker == Publishers(steps)[a.event])
  {
    ChannelsKept(steps);
  }

  // ---- The fallback read ----

  function HandleSteps(w: Worker, n: nat): seq<Step> { if n == 0 then [] else HandleSteps(w, n - 1) + [Handle(w, true)] }

  lemma ExecSnoc(s: State, steps: seq<Step>, step: Step)
    ensures Exec(s, steps + [step]) == Next(Exec(s, steps), step)
  {
    assert (steps + [step])[..|steps|] == steps;
  }

  lemma HandleOne(s: State, w: Worker)
    requires w in s.consumers && s.consumers[w].batch != []
    ensures var c, t := s.consumers[w], Next(s, Handle(w, true));
            && w in t.consumers && t.consumers[w] == Pop(c)
            && Heard(t.arrivals, w, false) == Heard(s.arrivals, w, false)
                                              + if Wanted(c.batch[0], w, c.started) then [c.batch[0].event] else []
  {
    var x := s.consumers[w].batch[0];
    HeardSnoc(s.arrivals, Arrival(w, x.event, x.channel, false), w, false);
  }

  lemma {:induction false} HandlePrefix(s: State, w: Worker, n: nat)
    requires w in s.consumers && n <= |s.consumers[w].batch|
    ensures var c, t := s.consumers[w], Exec(s, HandleSteps(w, n));
            && w in t.consumers && t.consumers[w] == c.(batch := c.batch[n..])
            && Heard(t.arrivals, w, false) == Heard(s.arrivals, w, false) + Foreign(c.batch[..n], w, c.started)
  {
    hide Heard, Next, Exec, Foreign;
    var c := s.consumers[w];
    if n == 0 {
      assert c.batch[0..] == c.batch;
      HandleNone(s, w, c.started);
    } else {
      HandlePrefix(s, w, n - 1);
      ExecSnoc(s, HandleSteps(w, n - 1), Handle(w, true));
      HandleOne(Exec(s, HandleSteps(w, n - 1)), w);
      assert c.batch[..n] == c.batch[..n - 1] + [c.batch[n - 1]] && c.batch[n - 1..][1..] == c.batch[n..];
      ForeignSnoc(c.batch[..n - 1], c.batch[n - 1], w, c.started);
    }
  }

  lemma HandleNone(s: State, w: Worker, started: int)
    ensures Exec(s, HandleSteps(w, 0)) == s && Foreign([], w, started) == []
  {}

  /** A consumer that has caught up and then falls back once hears events twice, exactly those of the first
      COUNT entries of the stream that it relays at all. */
  lemma FallbackRepeats(steps: seq<Step>, w: Worker, e: Event)
    requires Smooth(steps)
    requires var s := Exec(INIT, steps);
             w in s.consumers && s.consumers[w].batch == [] && s.consumers[w].cursor == |s.stream|
    ensures var s := Exec(INIT, steps);
            var m := if |s.stream| < 20 then |s.stream| else 20;
            var t := Exec(Next(s, Fallback(w)), HandleSteps(w, m));
            (multiset(Heard(t.arrivals, w, false))[e] == 2)
            == exists x <- s.stream[..m] :: x.ms >= s.consumers[w].started && x.origin != w && x.event == e
  {
    SmoothKeeps(steps, w);
    var s := Exec(INIT, steps);
    InvRelay(s, w);
    RepeatAt(s, w, e);
    hide *;
  }

  lemma RepeatAt(s: State, w: Worker, e: Event)
    requires Relays(s, w) && StreamOk(s.stream, s.origins)
    requires w in s.consumers && s.consumers[w].batch == [] && s.consumers[w].cursor == |s.stream|
    ensures var m := Min(COUNT, |s.stream|);
            var t := Exec(Next(s, Fallback(w)), HandleSteps(w, m));
            (multiset(Heard(t.arrivals, w, false))[e] == 2) == exists x <- s.stream[..m] :: Wanted(x, w, s.consumers[w].started) && x.event == e
  {
    var m, f := Min(COUNT, |s.stream|), Next(s, Fallback(w));
    assert f.consumers[w].batch == s.stream[..m] && f.arrivals == s.arrivals && s.stream[..|s.stream|] == s.stream;
    RepeatCount(s.stream, m, w, s.consumers[w].started, e);
    hide StreamOk, Next, Exec, Heard, Foreign, Wanted;
    HandlePrefix(f, w, m);
    assert s.stream[..m][..m] == s.stream[..m];
  }

  lemma RepeatCount(stream: seq<Entry>, m: nat, w: Worker, started: int, e: Event)
    requires m <= |stream| && forall i, j | 0 <= i < j < |stream| :: stream[i].event < stream[j].event
    ensures (multiset(Foreign(stream, w, started) + Foreign(stream[..m], w, started))[e] == 2)
            == exists x <- stream[..m] :: Wanted(x, w, started) && x.event == e
  {
    ForeignHas(stream[..m], w, started, e);
    ForeignHas(stream, w, started, e);
    ForeignRises(stream[..m], w, started);
    ForeignRises(stream, w, started);
    RisingOnce(Foreign(stream[..m], w, started), e);
    RisingOnce(Foreign(stream, w, started), e);
    assert forall x <- stream[..m] :: x in stream;
  }

  lemma {:induction false} ForeignRises(entries: seq<Entry>, w: Worker, started: int)
    requires forall i, j | 0 <= i < j < |entries| :: entries[i].event < entries[j].event
    ensures Rising(Foreign(entries, w, started))
    ensures forall e <- Foreign(entries, w, started) :: exists x <- entries :: x.event == e
  {
    if entries != [] {
      var front, x := entries[..|entries| - 1], entries[|entries| - 1];
      ForeignRises(front, w, started);
      assert Below(Foreign(front, w, started), x.event);
      RisingSnoc(Foreign(front, w, started), x.event);
    }
  }

  // ---- Catching up ----

  lemma {:induction false} ExecConcat(s: State, a: seq<Step>, b: seq<Step>)
    ensures Exec(s, a + b) == Exec(Exec(s, a), b)
  {
    hide Next;
    if b == [] {
      assert a + b == a;
    } else {
      ExecConcat(s, a, b[..|b| - 1]);
      assert (a + b)[..|a + b| - 1] == a + b[..|b| - 1];
    }
  }

  /** One read of the group and the forwarding of what it hands out, until `lag` entries are handled. */
  function CatchUpSteps(w: Worker, lag: nat): seq<Step> {
    if lag == 0 then []
    else [Read(w, true)] + HandleSteps(w, Min(COUNT, lag)) + CatchUpSteps(w, lag - Min(COUNT, lag))
  }

  function ReadCount(steps: seq<Step>): nat {
    if steps == [] then 0 else ReadCount(steps[..|steps| - 1]) + if steps[|steps| - 1].Read? then 1 else 0
  }

  lemma {:induction false} ReadCountConcat(a: seq<Step>, b: seq<Step>)
    ensures ReadCount(a + b) == ReadCount(a) + ReadCount(b)
  {
    if b == [] {
      assert a + b == a;
    } else {
      ReadCountConcat(a, b[..|b| - 1]);
      assert (a + b)[..|a + b| - 1] == a + b[..|b| - 1];
    }
  }

  lemma {:induction false} HandlesReadNothing(w: Worker, n: nat)
    ensures ReadCount(HandleSteps(w, n)) == 0 && Smooth(HandleSteps(w, n))
  {
    if n > 0 {
      HandlesReadNothing(w, n - 1);
      assert HandleSteps(w, n)[..|HandleSteps(w, n)| - 1] == HandleSteps(w, n - 1);
    }
  }

  lemma {:induction false} CatchUpReads(w: Worker, lag: nat)
    ensures ReadCount(CatchUpSteps(w, lag)) == (lag + COUNT - 1) / COUNT && Smooth(CatchUpSteps(w, lag))
  {
    if lag > 0 {
      var n := Min(COUNT, lag);
      CatchUpReads(w, lag - n);
      HandlesReadNothing(w, n);
      ReadCountConcat([Read(w, true)], HandleSteps(w, n));
      ReadCountConcat([Read(w, true)] + HandleSteps(w, n), CatchUpSteps(w, lag - n));
      assert ReadCount([Read(w, true)]) == 1;
    }
  }

  /** What broadcasting itself changes: nothing that a consumer does touches it. */
  predicate SameBroadcasts(s: State, t: State) { t.stream == s.stream && t.origins == s.origins && t.owed == s.owed }

  lemma {:induction false} HandlesKeepBroadcasts(s: State, w: Worker, n: nat)
    ensures SameBroadcasts(s, Exec(s, HandleSteps(w, n)))
  {
    if n > 0 {
      HandlesKeepBroadcasts(s, w, n - 1);
      ExecSnoc(s, HandleSteps(w, n - 1), Handle(w, true));
    }
  }

  lemma SameTwice(s: State, m: State, t: State)
    requires SameBroadcasts(s, m) && SameBroadcasts(m, t)
    ensures SameBroadcasts(s, t)
  {}

  /** One read of the group, and its batch handled to the end. */
  lemma OneBatch(s: State, w: Worker)
    requires w in s.consumers && s.consumers[w].batch == [] && s.consumers[w].cursor < |s.stream|
    ensures var c := s.consumers[w];
            var n := Min(COUNT, |s.stream| - c.cursor);
            var t := Exec(s, [Read(w, true)] + HandleSteps(w, n));
            && SameBroadcasts(s, t) && w in t.consumers && t.consumers[w] == c.(cursor := c.cursor + n)
  {
    hide Heard, Foreign, Exec;
    var c := s.consumers[w];
    var n := Min(COUNT, |s.stream| - c.cursor);
    var r := Next(s, Read(w, true));
    assert r.consumers[w] == Fill(s.stream, c) && |Fill(s.stream, c).batch| == n;
    ExecSnoc(s, [], Read(w, true));
    assert [] + [Read(w, true)] == [Read(w, true)] && Exec(s, []) == s by { ExecNone(s); }
    ExecConcat(s, [Read(w, true)], HandleSteps(w, n));
    HandlePrefix(r, w, n);
    HandlesKeepBroadcasts(r, w, n);
  }

  lemma ExecNone(s: State)
    ensures Exec(s, []) == s
  {}

  lemma {:induction false} CatchUpDone(s: State, w: Worker, lag: nat)
    requires w in s.consumers && s.consumers[w].batch == [] && s.consumers[w].cursor + lag == |s.stream|
    ensures var t := Exec(s, CatchUpSteps(w, lag));
            SameBroadcasts(s, t) && w in t.consumers && t.consumers[w] == s.consumers[w].(cursor := |s.stream|)
    decreases lag
  {
    hide Exec, Next;
    if lag == 0 {
      ExecNone(s);
    } else {
      var n := Min(COUNT, lag);
      OneBatch(s, w);
      ExecConcat(s, [Read(w, true)] + HandleSteps(w, n), CatchUpSteps(w, lag - n));
      CatchUpDone(Exec(s, [Read(w, true)] + HandleSteps(w, n)), w, lag - n);
    }
  }

  /** The rest of the batch, then everything the group has not handed out yet. */
  function FinishSteps(s: State, w: Worker): seq<Step>
    requires w in s.consumers && s.consumers[w].cursor <= |s.stream|
  {
    HandleSteps(w, |s.consumers[w].batch|) + CatchUpSteps(w, |s.stream| - s.consumers[w].cursor)
  }

  lemma BatchDone(s: State, w: Worker)
    requires w in s.consumers
    ensures var t := Exec(s, HandleSteps(w, |s.consumers[w].batch|));
            SameBroadcasts(s, t) && w in t.consumers && t.consumers[w] == s.consumers[w].(batch := [])
  {
    hide Heard, Foreign, Exec, Next, HandleSteps;
    var c := s.consumers[w];
    HandlePrefix(s, w, |c.batch|);
    HandlesKeepBroadcasts(s, w, |c.batch|);
    assert c.batch[|c.batch|..] == [];
  }

  lemma FinishDone(s: State, w: Worker)
    requires w in s.consumers && s.consumers[w].cursor <= |s.stream|
    ensures var t := Exec(s, FinishSteps(s, w));
            && SameBroadcasts(s, t) && w in t.consumers
            && t.consumers[w] == s.consumers[w].(cursor := |s.stream|, batch := [])
  {
    var n, lag := |s.consumers[w].batch|, |s.stream| - s.consumers[w].cursor;
    var m := Exec(s, HandleSteps(w, n));
    BatchDone(s, w);
    assert Exec(s, FinishSteps(s, w)) == Exec(m, CatchUpSteps(w, lag)) by {
      hide Exec;
      ExecConcat(s, HandleSteps(w, n), CatchUpSteps(w, lag));
    }
    hide *;
    CatchUpDone(m, w, lag);
    SameTwice(s, m, Exec(m, CatchUpSteps(w, lag)));
  }

  /** However far behind a consumer is, one read for every COUNT entries begun, with the forwarding of what the
      reads hand out, makes its worker hear everything it should, exactly once. */
  lemma CatchesUp(steps: seq<Step>, w: Worker, e: Event)
    requires Smooth(steps)
    requires var s := Exec(INIT, steps); w in s.consumers && e < |s.origins| && e !in s.owed
    ensures var s := Exec(INIT, steps);
            var c := s.consumers[w];
            && c.cursor <= |s.stream| == |s.origins|
            && var finish := FinishSteps(s, w);
            && ReadCount(finish) == (|s.stream| - c.cursor + 19) / 20
            && Times(Exec(s, finish), w, e) == if s.origins[e] == w || s.stream[e].ms >= c.started then 1 else 0
  {
    hide Inv, Exec, Next, Complete, Heard, Times, CatchUpSteps;
    SmoothKeeps(steps, w);
    var s := Exec(INIT, steps);
    var c := s.consumers[w];
    assert |s.stream| == |s.origins| by { CompleteLength(s); }
    assert c.cursor <= |s.stream| && ConsumerOk(s.stream, c);
    hide Relays, ConsumerOk;
    var finish := FinishSteps(s, w);
    HandlesReadNothing(w, |c.batch|);
    CatchUpReads(w, |s.stream| - c.cursor);
    ReadCountConcat(HandleSteps(w, |c.batch|), CatchUpSteps(w, |s.stream| - c.cursor));
    FinishDone(s, w);
    ExecConcat(INIT, steps, finish);
    assert Smooth(steps + finish);
    ExactlyOnce(steps + finish, w, e);
  }

  lemma CompleteLength(s: State)
    requires Complete(s)
    ensures |s.stream| == |s.origins|
  {}

  // ---- The consumer's loop over one batch ----

  /** The data of an entry: an object, some other JSON value, or text that is no JSON. */
  datatype Payload = Object(event: Event) | Other | Broken

  /** An entry as it is read; `ms` is None when the ID cannot be parsed, and such an entry counts as new. */
  datatype Raw = Raw(ms: Option<int>, origin: Worker, channel: string, payload: Payload)

  datatype Delivery = Delivery(channel: string, event: Event)

  function Written(x: Entry): Raw { Raw(Some(x.ms), x.origin, x.channel, Object(x.event)) }

  predicate Considered(x: Raw, w: Worker, started: int) {
    (x.ms.Some? ==> x.ms.value >= started) && x.origin != w
  }

  function Target(channel: string): string { if channel == "" then TRACE_CHANNEL else channel }

  /** Whether an entry reaches the manager; `ok` says that its forward raises no exception. */
  predicate Goes(x: Raw, ok: bool, w: Worker, started: int) { Considered(x, w, started) && x.payload.Object? && ok }

  function Going(batch: seq<Raw>, ok: seq<bool>, w: Worker, started: int): seq<Delivery>
    requires |ok| == |batch|
  {
    if batch == [] then []
    else
      var n := |batch| - 1;
      var front := Going(batch[..n], ok[..n], w, started);
      if Goes(batch[n], ok[n], w, started) then front + [Delivery(Target(batch[n].channel), batch[n].payload.event)]
      else front
  }

  lemma GoingSnoc(batch: seq<Raw>, ok: seq<bool>, k: nat, w: Worker, started: int)
    requires |ok| == |batch| && k < |batch|
    ensures Going(batch[..k + 1], ok[..k + 1], w, started)
         == Going(batch[..k], ok[..k], w, started)
            + if Goes(batch[k], ok[k], w, started) then [Delivery(Target(batch[k].channel), batch[k].payload.event)] else []
  {
    assert batch[..k + 1][..k] == batch[..k] && ok[..k + 1][..k] == ok[..k];
  }

  function Events(sent: seq<Delivery>): seq<Event> { seq(|sent|, i requires 0 <= i < |sent| => sent[i].event) }

  function AllWritten(entries: seq<Entry>): seq<Raw> {
    seq(|entries|, i requires 0 <= i < |entries| => Written(entries[i]))
  }

  /** The deliveries are those of the entries at some places, in order: of all the entries that are not too old, not the
      worker's own, hold an object and meet no exception, each on its channel, or "trace" if it names none. */
  ghost predicate IsRelay(batch: seq<Raw>, ok: seq<bool>, w: Worker, started: int, sent: seq<Delivery>, at: seq<nat>)
    requires |ok| == |batch|
  {
    && |at| == |sent| && (forall k, l | 0 <= k < l < |at| :: at[k] < at[l])
    && (forall i: nat :: i in at <==> i < |batch| && Passes(batch[i], ok[i], w, started))
    && (forall k | 0 <= k < |at| :: at[k] < |batch| && Carries(batch[at[k]], sent[k]))
  }

  predicate Passes(x: Raw, ok: bool, w: Worker, started: int) {
    (x.ms == None || x.ms.value >= started) && x.origin != w && x.payload.Object? && ok
  }

  predicate Carries(x: Raw, d: Delivery) {
    x.payload == Object(d.event) && d.channel == if x.channel == "" then "trace" else x.channel
  }

  lemma RelaySnoc(batch: seq<Raw>, ok: seq<bool>, w: Worker, started: int, sent: seq<Delivery>, at: seq<nat>, d: Delivery)
    requires |ok| == |batch| > 0 && IsRelay(batch[..|batch| - 1], ok[..|ok| - 1], w, started, sent, at)
    requires Passes(batch[|batch| - 1], ok[|batch| - 1], w, started) ==> Carries(batch[|batch| - 1], d)
    ensures var n := |batch| - 1;
            if Passes(batch[n], ok[n], w, started) then IsRelay(batch, ok, w, started, sent + [d], at + [n])
            else IsRelay(batch, ok, w, started, sent, at)
  {
    hide Passes, Carries;
    var n := |batch| - 1;
    assert forall k | 0 <= k < |at| :: at[k] in at;
    assert forall k | 0 <= k < |at| :: at[k] < n && batch[..n][at[k]] == batch[at[k]];
    assert forall i: nat | i < n :: batch[..n][i] == batch[i] && ok[..n][i] == ok[i];
    assert forall i: nat :: i in at + [n] <==> i in at || i == n;
  }

  lemma {:induction false} GoingMeans(batch: seq<Raw>, ok: seq<bool>, w: Worker, started: int) returns (at: seq<nat>)
    requires |ok| == |batch|
    ensures IsRelay(batch, ok, w, started, Going(batch, ok, w, started), at)
  {
    at := [];
    if batch != [] {
      var n := |batch| - 1;
      at := GoingMeans(batch[..n], ok[..n], w, started);
      var x := batch[n];
      var d := Delivery(if x.channel == "" then "trace" else x.channel, if x.payload.Object? then x.payload.event else 0);
      assert Goes(x, ok[n], w, started) <==> Passes(x, ok[n], w, started);
      assert Passes(x, ok[n], w, started) ==> Carries(x, d);
      hide IsRelay, Carries, Passes;
      RelaySnoc(batch, ok, w, started, Going(batch[..n], ok[..n], w, started), at, d);
      if Goes(x, ok[n], w, started) { at := at + [n]; }
    }
  }

  /** On what workers publish, and with no failure, a batch is relayed as the steps above relay it. */
  lemma {:induction false} WrittenAreRelayed(entries: seq<Entry>, ok: seq<bool>, w: Worker, started: int)
    requires |ok| == |entries| && forall i | 0 <= i < |ok| :: ok[i]
    ensures Events(Going(AllWritten(entries), ok, w, started)) == Foreign(entries, w, started)
  {
    if entries != [] {
      var n := |entries| - 1;
      WrittenAreRelayed(entries[..n], ok[..n], w, started);
      assert AllWritten(entries)[..n] == AllWritten(entries[..n]);
      assert AllWritten(entries)[n] == Written(entries[n]);
      var front := Going(AllWritten(entries[..n]), ok[..n], w, started);
      assert Events(front + [Delivery(Target(entries[n].channel), entries[n].event)]) == Events(front) + [entries[n].event];
    }
  }

  /** Forward the batch; `ok` says which forwards raise no exception.  What is old, the worker's own or no
      object is acknowledged and dropped; what cannot be parsed or forwarded stays unacknowledged. */
  method ForwardBatch(batch: seq<Raw>, w: Worker, started: int, ok: seq<bool>) returns (sent: seq<Delivery>, unacked: set<nat>)
    requires |ok| == |batch|
    ensures sent == Going(batch, ok, w, started) && exists at: seq<nat> :: IsRelay(batch, ok, w, started, sent, at)
    ensures forall i: nat :: i in unacked <==>
              i < |batch| && Considered(batch[i], w, started) && (batch[i].payload.Broken? || (batch[i].payload.Object? && !ok[i]))
    ensures forall entries: seq<Entry> | batch == AllWritten(entries) && (forall i | 0 <= i < |ok| :: ok[i]) ::
              Events(sent) == Foreign(entries, w, started) && unacked == {}
  {
    sent, unacked := [], {};
    for k := 0 to |batch|
      invariant sent == Going(batch[..k], ok[..k], w, started)
      invariant forall i: nat :: i in unacked <==>
                  i < k && Considered(batch[i], w, started) && (batch[i].payload.Broken? || (batch[i].payload.Object? && !ok[i]))
    {
      hide Going;
      GoingSnoc(batch, ok, k, w, started);
      var x := batch[k];
      if x.ms.Some? && x.ms.value < started { continue; }
      if x.origin == w { continue; }
      if x.payload.Broken? || (x.payload.Object? && !ok[k]) {
        unacked := unacked + {k};
        continue;
      }
      if x.payload.Object? {
        sent := sent + [Delivery(if x.channel == "" then TRACE_CHANNEL else x.channel, x.payload.event)];
      }
    }
    assert batch[..|batch|] == batch && ok[..|batch|] == ok;
    hide Going, Foreign, Events, IsRelay;
    ghost var at := GoingMeans(batch, ok, w, started);
    forall entries: seq<Entry> | batch == AllWritten(entries) && (forall i | 0 <= i < |ok| :: ok[i])
      ensures Events(sent) == Foreign(entries, w, started) && unacked == {}
    {
      WrittenAreRelayed(entries, ok, w, started);
      assert forall i: nat | i < |batch| :: batch[i] == Written(entries[i]);
    }
  }

  // ---- Channels ----

  const TRACE_CHANNEL := "trace"
  const USER_PREFIX := "ws:channel:"
  const MAX_USER_LEN: nat := 128

  /** `sha` stands for the first eight hexadecimal digits of SHA-1. */
  ghost predicate IsShort(sha: string -> string) { forall u :: |sha(u)| == 8 }

  function NormUser(user: string, sha: string -> string): string {
    var u := Strip(user);
    if |u| <= 64 then u else u[..64] + "#" + sha(u)
  }

  /** The channel of an event for a user; None stands for no user given. */
  function UserChannel(user: string, sha: string -> string): string {
    var u := if |Strip(user)| > MAX_USER_LEN then "" else NormUser(user, sha);
    if u != "" then USER_PREFIX + u else TRACE_CHANNEL
  }

  predicate Personal(user: string) { 0 < |Strip(user)| <= MAX_USER_LEN }

  /** Two users beyond 64 characters that the eight digits do not tell apart. */
  predicate Alike(u: string, v: string, sha: string -> string) {
    |u| > 64 && |v| > 64 && u[..64] == v[..64] && sha(u) == sha(v)
  }

  /** A user has a channel of its own exactly up to 128 characters, and two users share one only if they are
      the same but for surrounding blanks, or alike. */
  lemma ChannelsSeparateUsers(u: string, v: string, sha: string -> string)
    requires IsShort(sha)
    ensures UserChannel(u, sha) == TRACE_CHANNEL <==> !Personal(u)
    ensures Strip(u) != "" && |Strip(u)| <= 64 ==> UserChannel(u, sha) == "ws:channel:" + Strip(u)
    ensures 64 < |Strip(u)| <= 128 ==> UserChannel(u, sha) == "ws:channel:" + Strip(u)[..64] + "#" + sha(Strip(u))
    ensures Personal(u) && Personal(v) ==>
              (UserChannel(u, sha) == UserChannel(v, sha) <==> Strip(u) == Strip(v) || Alike(Strip(u), Strip(v), sha))
  {
    assert USER_PREFIX[0] == 'w' && TRACE_CHANNEL[0] == 't';
    if Personal(u) {
      var a := NormUser(u, sha);
      assert (USER_PREFIX + a)[0] == 'w';
      if Personal(v) && UserChannel(u, sha) == UserChannel(v, sha) {
        var b := NormUser(v, sha);
        assert (USER_PREFIX + a)[|USER_PREFIX|..] == a && (USER_PREFIX + b)[|USER_PREFIX|..] == b;
        if |Strip(u)| > 64 && |Strip(v)| > 64 {
          assert a[..64] == Strip(u)[..64] && b[..64] == Strip(v)[..64];
          assert a[65..] == sha(Strip(u)) && b[65..] == sha(Strip(v));
        }
      }
    }
  }
}
