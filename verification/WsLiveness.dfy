/** Liveness of WebSocket channels: connections, heartbeats, server keepalives and eviction.

    The tasks of one event loop interleave only where they await; the steps below are the stretches
    between awaits.  Time is in seconds and does not go back.
 */
module WsLiveness {

  type Channel = string
  type Socket = int

  const TIMEOUT: real := 60.0
  const MAX_SERVER_KEEPALIVES: nat := 3

  // ---- The two dictionaries of the heartbeat monitor ----

  datatype Heart = Heart(last: map<Channel, real>, keep: map<Channel, nat>) {
    function Record(ch: Channel, now: real): Heart { Heart(last[ch := now], keep[ch := 0]) }

    /** How many server pongs in a row have renewed the channel. */
    function Spent(ch: Channel): nat { if ch in keep then keep[ch] else 0 }

    function Keepalive(ch: Channel, now: real): Heart {
      var n := Spent(ch) + 1;
      if n > MAX_SERVER_KEEPALIVES then this else Heart(last[ch := now], keep[ch := n])
    }

    function Remove(ch: Channel): Heart { Heart(last - {ch}, keep - {ch}) }

    predicate StaleAt(ch: Channel, at: real) { ch in last && at - last[ch] > TIMEOUT }
  }

  class HeartbeatMonitor {
    var lastActive: map<Channel, real>
    var serverKeepalives: map<Channel, nat>

    ghost function View(): Heart
      reads this
    {
      Heart(lastActive, serverKeepalives)
    }

    constructor ()
      ensures View() == Heart(map[], map[])
    {
      lastActive, serverKeepalives := map[], map[];
    }

    method Record(ch: Channel, now: real)
      modifies this
      ensures View() == old(View()).Record(ch, now)
    {
      lastActive := lastActive[ch := now];
      serverKeepalives := serverKeepalives[ch := 0];
    }

    method RecordKeepalive(ch: Channel, now: real) returns (renewed: bool)
      modifies this
      ensures View() == old(View()).Keepalive(ch, now)
      ensures renewed <==> old(View()).Spent(ch) < MAX_SERVER_KEEPALIVES
    {
      var n := (if ch in serverKeepalives then serverKeepalives[ch] else 0) + 1;
      if n > MAX_SERVER_KEEPALIVES { return false; }
      Record(ch, now);
      serverKeepalives := serverKeepalives[ch := n];
      assert serverKeepalives == old(serverKeepalives)[ch := n];
      renewed := true;
    }

    method Remove(ch: Channel)
      modifies this
      ensures View() == old(View()).Remove(ch)
    {
      lastActive := lastActive - {ch};
      serverKeepalives := serverKeepalives - {ch};
    }

    /** The channels whose last activity is too long ago, each once, in no particular order. */
    method Expired(now: real) returns (expired: seq<Channel>)
      ensures IsExpiredList(View(), now, expired)
    {
      var rest := lastActive.Keys;
      expired := [];
      while rest != {}
        invariant rest <= lastActive.Keys
        invariant forall ch :: ch in expired <==> ch in lastActive.Keys - rest && View().StaleAt(ch, now)
        invariant forall i, j | 0 <= i < j < |expired| :: expired[i] != expired[j]
        decreases rest
      {
        var ch :| ch in rest;
        assert ch !in expired;
        rest := rest - {ch};
        if now - lastActive[ch] > TIMEOUT { expired := expired + [ch]; }
      }
    }
  }

  predicate IsExpiredList(h: Heart, now: real, expired: seq<Channel>) {
    && (forall ch <- expired :: h.StaleAt(ch, now))
    && (forall ch <- h.last | h.StaleAt(ch, now) :: ch in expired)
    && forall i, j | 0 <= i < j < |expired| :: expired[i] != expired[j]
  }

  // ---- The connection table ----

  function Plus(conns: map<Channel, set<Socket>>, ch: Channel, ws: Socket): map<Channel, set<Socket>> {
    conns[ch := (if ch in conns then conns[ch] else {}) + {ws}]
  }

  /** Without one socket; a channel that loses its last one disappears. */
  function Minus(conns: map<Channel, set<Socket>>, ch: Channel, ws: Socket): map<Channel, set<Socket>> {
    if ch !in conns || ws !in conns[ch] then conns
    else if conns[ch] == {ws} then conns - {ch}
    else conns[ch := conns[ch] - {ws}]
  }

  class WSManager {
    var connections: map<Channel, set<Socket>>

    constructor ()
      ensures connections == map[]
    {
      connections := map[];
    }

    method Connect(ch: Channel, ws: Socket)
      modifies this
      ensures connections == Plus(old(connections), ch, ws)
    {
      if ch !in connections { connections := connections[ch := {}]; }
      connections := connections[ch := connections[ch] + {ws}];
      assert connections == Plus(old(connections), ch, ws);
    }

    method Disconnect(ch: Channel, ws: Socket)
      modifies this
      ensures connections == Minus(old(connections), ch, ws)
    {
      if ch in connections && ws in connections[ch] {
        var left := connections[ch] - {ws};
        connections := connections[ch := left];
        if left == {} {
          assert old(connections)[ch] == {ws};
          connections := connections - {ch};
        }
      }
    }

    /** The locked part of an eviction: look again, and only then take the channel out. */
    method EvictIfStale(monitor: HeartbeatMonitor, ch: Channel, snapshot: real) returns (evicted: bool, sockets: set<Socket>)
      modifies this
      ensures evicted <==> monitor.View().StaleAt(ch, snapshot)
      ensures connections == if evicted then old(connections) - {ch} else old(connections)
      ensures evicted ==> sockets == if ch in old(connections) then old(connections)[ch] else {}
    {
      sockets := {};
      if ch !in monitor.lastActive || snapshot - monitor.lastActive[ch] <= TIMEOUT { return false, sockets; }
      if ch in connections { sockets := connections[ch]; }
      connections := connections - {ch};
      evicted := true;
    }

    /** After the sockets are closed: forget the channel unless somebody has been heard meanwhile. */
    method FinishEviction(monitor: HeartbeatMonitor, ch: Channel, now: real)
      modifies monitor
      ensures monitor.View() == if ch !in old(monitor.View()).last || old(monitor.View()).StaleAt(ch, now)
                                then old(monitor.View()).Remove(ch) else old(monitor.View())
    {
      if ch !in monitor.lastActive || now - monitor.lastActive[ch] > TIMEOUT { monitor.Remove(ch); }
    }

    /** The second half of an endpoint's cleanup, after its socket has been closed. */
    method CleanUp(monitor: HeartbeatMonitor, ch: Channel)
      modifies monitor
      ensures monitor.View() == if ch in connections && connections[ch] != {} then old(monitor.View())
                                else old(monitor.View()).Remove(ch)
    {
      if !(ch in connections && connections[ch] != {}) { monitor.Remove(ch); }
    }
  }

  // ---- All tasks together ----

  /** The eviction loop between two awaits: asleep, going through its list, or closing sockets since `since`. */
  datatype Evictor =
    | Asleep
    | Scanning(snapshot: real, todo: seq<Channel>)
    | Closing(snapshot: real, channel: Channel, since: real, todo: seq<Channel>)

  datatype State = State(now: real, conns: map<Channel, set<Socket>>, heart: Heart, evictor: Evictor) {
    predicate Online(ch: Channel) { ch in conns }
  }

  const INIT: State := State(0.0, map[], Heart(map[], map[]), Asleep)

  datatype Step =
    | Tick(seconds: real)
    | Connect(ch: Channel, ws: Socket)      // accept, add the socket and record it
    | Message(ch: Channel)                  // any client message
    | Pong(ch: Channel)                     // a server pong after a silent wait
    | Drop(ch: Channel, ws: Socket)         // a failed send, or the first half of an endpoint's cleanup
    | CleanUp(ch: Channel)                  // the second half
    | Snapshot(expired: seq<Channel>)
    | Evict
    | Finish

  function Next(s: State, step: Step): State {
    match step
    case Tick(seconds) => if seconds < 0.0 then s else s.(now := s.now + seconds)
    case Connect(ch, ws) => s.(conns := Plus(s.conns, ch, ws), heart := s.heart.Record(ch, s.now))
    case Message(ch) => s.(heart := s.heart.Record(ch, s.now))
    case Pong(ch) => s.(heart := s.heart.Keepalive(ch, s.now))
    case Drop(ch, ws) => s.(conns := Minus(s.conns, ch, ws))
    case CleanUp(ch) => if s.Online(ch) then s else s.(heart := s.heart.Remove(ch))
    case Snapshot(expired) =>
      if s.evictor.Asleep? && IsExpiredList(s.heart, s.now, expired) then s.(evictor := Scanning(s.now, expired)) else s
    case Evict =>
      if !s.evictor.Scanning? then s
      else if s.evictor.todo == [] then s.(evictor := Asleep)
      else
        var ch, rest := s.evictor.todo[0], s.evictor.todo[1..];
        if s.heart.StaleAt(ch, s.evictor.snapshot)
        then s.(conns := s.conns - {ch}, evictor := Closing(s.evictor.snapshot, ch, s.now, rest))
        else s.(evictor := Scanning(s.evictor.snapshot, rest))
    case Finish =>
      if !s.evictor.Closing? then s
      else
        var ch := s.evictor.channel;
        var s' := s.(evictor := Scanning(s.evictor.snapshot, s.evictor.todo));
        if ch !in s.heart.last || s.heart.StaleAt(ch, s.now) then s'.(heart := s.heart.Remove(ch)) else s'
  }

  function Exec(s: State, steps: seq<Step>): State {
    if steps == [] then s else Next(Exec(s, steps[..|steps| - 1]), steps[|steps| - 1])
  }

  /** Closing the sockets of an evicted channel takes at most TIMEOUT. */
  predicate PromptStep(s: State, step: Step) {
    step.Finish? && s.evictor.Closing? ==> s.now - s.evictor.since <= TIMEOUT
  }

  predicate Prompt(s: State, steps: seq<Step>) {
    steps == []
    || (Prompt(s, steps[..|steps| - 1]) && PromptStep(Exec(s, steps[..|steps| - 1]), steps[|steps| - 1]))
  }

  // ---- Every open connection is watched ----

  predicate Watched(s: State) { forall ch <- s.conns :: ch in s.heart.last }

  /** While the evictor is closing the old sockets of a channel, a new connection to it is younger than that. */
  predicate Inv(s: State) {
    && Watched(s)
    && s.heart.keep.Keys == s.heart.last.Keys
    && (forall ch <- s.heart.keep :: s.heart.keep[ch] <= MAX_SERVER_KEEPALIVES)
    && (forall ch <- s.heart.last :: s.heart.last[ch] <= s.now)
    && (s.evictor.Closing? ==>
          && s.evictor.since <= s.now
          && (s.evictor.channel in s.conns ==> s.evictor.since <= s.heart.last[s.evictor.channel]))
  }

  lemma StepKeeps(s: State, step: Step)
    requires Inv(s) && PromptStep(s, step)
    ensures Inv(Next(s, step))
  {}

  lemma {:induction false} ExecKeeps(s: State, steps: seq<Step>)
    requires Inv(s) && Prompt(s, steps)
    ensures Inv(Exec(s, steps))
  {
    if steps != [] {
      ExecKeeps(s, steps[..|steps| - 1]);
      StepKeeps(Exec(s, steps[..|steps| - 1]), steps[|steps| - 1]);
    }
  }

  /** In every interleaving with prompt closing, a channel with an open connection has a liveness entry. */
  lemma OpenMeansWatched(steps: seq<Step>)
    requires Prompt(INIT, steps)
    ensures Watched(Exec(INIT, steps))
  {
    ExecKeeps(INIT, steps);
  }

  /** The step ends an eviction whose channel came back and has then been silent for longer than TIMEOUT. */
  predicate EndsLate(s: State, step: Step) {
    step.Finish? && s.evictor.Closing? && s.evictor.channel in s.conns && s.heart.StaleAt(s.evictor.channel, s.now)
  }

  /** A step loses the entry of an open connection exactly when it ends an eviction late. */
  lemma EntryLostIff(s: State, step: Step)
    requires Inv(s)
    ensures !Watched(Next(s, step)) <==> EndsLate(s, step)
  {
    if step.Finish? && s.evictor.Closing? {
      var ch := s.evictor.channel;
      assert ch in s.conns ==> ch in Next(s, step).conns;
    }
  }

  /** Prompt or not, a step that leaves every connection watched keeps the rest of the invariant. */
  lemma WatchedKeeps(s: State, step: Step)
    requires Inv(s) && Watched(Next(s, step))
    ensures Inv(Next(s, step))
  {}

  predicate AlwaysWatched(steps: seq<Step>) { forall k | 0 <= k <= |steps| :: Watched(Exec(INIT, steps[..k])) }

  predicate NeverEndsLate(steps: seq<Step>) { forall k | 0 <= k < |steps| :: !EndsLate(Exec(INIT, steps[..k]), steps[k]) }

  lemma {:induction false} InTimeKeeps(steps: seq<Step>, k: nat)
    requires NeverEndsLate(steps) && k <= |steps|
    ensures Inv(Exec(INIT, steps[..k]))
  {
    hide Inv, Next, EndsLate;
    if k == 0 {
      assert Inv(INIT) by { InitOk(); }
    } else {
      InTimeKeeps(steps, k - 1);
      ExecPrefix(INIT, steps, k - 1);
      EntryLostIff(Exec(INIT, steps[..k - 1]), steps[k - 1]);
      WatchedKeeps(Exec(INIT, steps[..k - 1]), steps[k - 1]);
    }
  }

  lemma InitOk()
    ensures Inv(INIT)
  {}

  /** Whatever the interleaving and however long closing takes: every open connection has an entry all along exactly
      if no eviction ends late. */
  lemma AlwaysWatchedIff(steps: seq<Step>)
    ensures AlwaysWatched(steps) <==> NeverEndsLate(steps)
  {
    hide Inv, Next, Exec, EndsLate;
    if NeverEndsLate(steps) {
      forall k | 0 <= k <= |steps| ensures Watched(Exec(INIT, steps[..k])) {
        InTimeKeeps(steps, k);
        InvWatched(Exec(INIT, steps[..k]));
      }
    } else {
      var k := FirstLate(steps);
      var early := steps[..k];
      assert NeverEndsLate(early) by {
        assert forall i | 0 <= i < k :: early[..i] == steps[..i] && early[i] == steps[i];
      }
      InTimeKeeps(early, k);
      assert early[..k] == early;
      EntryLostIff(Exec(INIT, early), steps[k]);
      ExecPrefix(INIT, steps, k);
      assert !Watched(Exec(INIT, steps[..k + 1]));
    }
  }

  lemma FirstLate(steps: seq<Step>) returns (k: nat)
    requires !NeverEndsLate(steps)
    ensures k < |steps| && EndsLate(Exec(INIT, steps[..k]), steps[k])
    ensures forall i | 0 <= i < k :: !EndsLate(Exec(INIT, steps[..i]), steps[i])
  {
    hide Exec, EndsLate;
    k := 0;
    while !EndsLate(Exec(INIT, steps[..k]), steps[k])
      invariant k < |steps| && forall i | 0 <= i < k :: !EndsLate(Exec(INIT, steps[..i]), steps[i])
      decreases |steps| - k
    {
      if k + 1 == |steps| { assert false; }
      k := k + 1;
    }
  }

  lemma ExecPrefix(s: State, steps: seq<Step>, k: nat)
    requires k < |steps|
    ensures Exec(s, steps[..k + 1]) == Next(Exec(s, steps[..k]), steps[k])
  {
    assert steps[..k + 1][..k] == steps[..k];
  }

  lemma ExecSeven(s: State, steps: seq<Step>)
    requires |steps| == 7
    ensures Exec(s, steps)
         == Next(Next(Next(Next(Next(Next(Next(s, steps[0]), steps[1]), steps[2]), steps[3]), steps[4]), steps[5]), steps[6])
  {
    assert steps[..0] == [] && Exec(s, []) == s && steps[..7] == steps;
    hide Next, Exec;
    ExecPrefix(s, steps, 0);
    ExecPrefix(s, steps, 1);
    ExecPrefix(s, steps, 2);
    ExecPrefix(s, steps, 3);
    ExecPrefix(s, steps, 4);
    ExecPrefix(s, steps, 5);
    ExecPrefix(s, steps, 6);
  }

  /** Without prompt closing it happens: the second connection of a channel is left unwatched. */
  lemma SlowCloseLosesEntry(ch: Channel)
    ensures !Watched(Exec(INIT, [Connect(ch, 1), Tick(61.0), Snapshot([ch]), Evict, Connect(ch, 2), Tick(61.0), Finish]))
  {
    hide Exec;
    ExecSeven(INIT, [Connect(ch, 1), Tick(61.0), Snapshot([ch]), Evict, Connect(ch, 2), Tick(61.0), Finish]);
    var s2 := Next(Next(INIT, Connect(ch, 1)), Tick(61.0));
    assert s2.heart.last == map[ch := 0.0] && s2.now == 61.0;
    assert IsExpiredList(s2.heart, s2.now, [ch]);
    var s4 := Next(Next(s2, Snapshot([ch])), Evict);
    assert s4.evictor == Closing(61.0, ch, 61.0, []);
    var s6 := Next(Next(s4, Connect(ch, 2)), Tick(61.0));
    assert ch in s6.conns && s6.heart.last[ch] == 61.0 && s6.now == 122.0;
    assert ch in Next(s6, Finish).conns && ch !in Next(s6, Finish).heart.last;
  }

  // ---- Which connections there are ----

  /** The evictor takes the channel out: it is next on the list, and still silent for a minute before the snapshot. */
  predicate TakesOut(s: State, step: Step, ch: Channel) {
    && step.Evict? && s.evictor.Scanning? && s.evictor.todo != [] && s.evictor.todo[0] == ch
    && ch in s.heart.last && s.evictor.snapshot - s.heart.last[ch] > 60.0
  }

  /** The socket has connected to the channel, and has neither left nor been taken out since. */
  predicate Connected(steps: seq<Step>, ch: Channel, ws: Socket) {
    steps != []
    && var front, step := steps[..|steps| - 1], steps[|steps| - 1];
       if step == Connect(ch, ws) then true
       else Connected(front, ch, ws) && step != Drop(ch, ws) && !TakesOut(Exec(INIT, front), step, ch)
  }

  lemma AnotherLeft(sockets: set<Socket>, w: Socket)
    requires w in sockets
    ensures sockets - {w} == {} <==> sockets == {w}
  {
    assert sockets == sockets - {w} + {w};
  }

  lemma SocketStep(s: State, step: Step, ch: Channel, ws: Socket)
    requires ch in s.conns ==> s.conns[ch] != {}
    ensures var t, was := Next(s, step), ch in s.conns && ws in s.conns[ch];
            && (ch in t.conns ==> t.conns[ch] != {})
            && ((ch in t.conns && ws in t.conns[ch])
                <==> step == Connect(ch, ws) || (was && step != Drop(ch, ws) && !TakesOut(s, step, ch)))
  {
    match step
    case Drop(c, w) =>
      if c == ch && ch in s.conns && w in s.conns[ch] { AnotherLeft(s.conns[ch], w); }
    case _ =>
  }

  /** Over every run a channel holds exactly the sockets that are connected to it, and disappears with the last. */
  lemma {:induction false} SocketsAreTracked(steps: seq<Step>, ch: Channel, ws: Socket)
    ensures var s := Exec(INIT, steps);
            && (ch in s.conns && ws in s.conns[ch] <==> Connected(steps, ch, ws))
            && (ch in s.conns ==> s.conns[ch] != {})
  {
    hide Next, TakesOut;
    if steps != [] {
      var front := steps[..|steps| - 1];
      SocketsAreTracked(front, ch, ws);
      SocketStep(Exec(INIT, front), steps[|steps| - 1], ch, ws);
    }
  }

  /** The channel has been heard, and since then neither a cleanup has found it without connections nor an eviction has
      ended with it still silent for a minute. */
  predicate Entered(steps: seq<Step>, ch: Channel) {
    steps != []
    && var front, step := steps[..|steps| - 1], steps[|steps| - 1];
       var s := Exec(INIT, front);
       if step == Message(ch) || step == Pong(ch) || (step.Connect? && step.ch == ch) then true
       else
         && Entered(front, ch)
         && !(step == CleanUp(ch) && ch !in s.conns)
         && !(step == Finish && s.evictor.Closing? && s.evictor.channel == ch && ch in s.heart.last && s.now - s.heart.last[ch] > 60.0)
  }

  lemma EntryStep(s: State, step: Step, ch: Channel)
    requires s.heart.keep.Keys == s.heart.last.Keys && s.heart.Spent(ch) <= 3
    ensures var t := Next(s, step);
            ch in t.heart.last <==>
              if step == Message(ch) || step == Pong(ch) || (step.Connect? && step.ch == ch) then true
              else
                && ch in s.heart.last
                && !(step == CleanUp(ch) && ch !in s.conns)
                && !(step == Finish && s.evictor.Closing? && s.evictor.channel == ch && ch in s.heart.last && s.now - s.heart.last[ch] > 60.0)
  {}

  /** The two dictionaries have the same channels, and no budget is overdrawn. */
  predicate InStep(h: Heart) { h.keep.Keys == h.last.Keys && forall ch <- h.keep :: h.keep[ch] <= 3 }

  lemma InStepStep(s: State, step: Step)
    requires InStep(s.heart)
    ensures InStep(Next(s, step).heart)
  {}

  lemma {:induction false} AlwaysInStep(steps: seq<Step>)
    ensures InStep(Exec(INIT, steps).heart)
  {
    if steps != [] {
      AlwaysInStep(steps[..|steps| - 1]);
      InStepStep(Exec(INIT, steps[..|steps| - 1]), steps[|steps| - 1]);
    }
    hide Next;
  }

  /** Over every run, when a channel has a liveness entry. */
  lemma {:induction false} EntryIff(steps: seq<Step>, ch: Channel)
    ensures ch in Exec(INIT, steps).heart.last <==> Entered(steps, ch)
  {
    hide Next;
    if steps != [] {
      var front := steps[..|steps| - 1];
      EntryIff(front, ch);
      AlwaysInStep(front);
      EntryStep(Exec(INIT, front), steps[|steps| - 1], ch);
    }
  }

  /** A word from the client renews the entry and the budget; a server pong renews the entry and takes from the budget
      of three, or does nothing when it is spent.  Other channels are not concerned. */
  lemma RenewalMeans(s: State, step: Step, ch: Channel)
    requires (step.Connect? || step.Message? || step.Pong?) && s.heart.Spent(ch) <= 3
    ensures var h, k := Next(s, step).heart, s.heart.Spent(ch);
            if step.ch != ch then h.Spent(ch) == k && (ch in h.last <==> ch in s.heart.last) && (ch in h.last ==> h.last[ch] == s.heart.last[ch])
            else if !step.Pong? then ch in h.last && h.last[ch] == s.now && h.Spent(ch) == 0
            else if k < 3 then ch in h.last && h.last[ch] == s.now && h.Spent(ch) == k + 1
            else h == s.heart
  {}

  // ---- Only silent channels are evicted ----

  /** The step is a sign of life of `ch`: a connection, a message, or a pong within the budget. */
  predicate Hears(s: State, step: Step, ch: Channel) {
    || (step.Connect? && step.ch == ch)
    || (step.Message? && step.ch == ch)
    || (step.Pong? && step.ch == ch && s.heart.Spent(ch) < MAX_SERVER_KEEPALIVES)
  }

  datatype Heard = Never | At(time: real)

  /** When `ch` last gave a sign of life in a run. */
  function LastHeard(s: State, steps: seq<Step>, ch: Channel): Heard {
    if steps == [] then Never
    else
      var before, step := Exec(s, steps[..|steps| - 1]), steps[|steps| - 1];
      if Hears(before, step, ch) then At(before.now) else LastHeard(s, steps[..|steps| - 1], ch)
  }

  /** The entry of a channel is its last sign of life. */
  lemma {:induction false} EntryIsLastHeard(steps: seq<Step>, ch: Channel)
    requires ch in Exec(INIT, steps).heart.last
    ensures LastHeard(INIT, steps, ch) == At(Exec(INIT, steps).heart.last[ch])
  {
    if steps != [] {
      var before := Exec(INIT, steps[..|steps| - 1]);
      if !Hears(before, steps[|steps| - 1], ch) {
        EntryIsLastHeard(steps[..|steps| - 1], ch);
      }
    }
  }

  /** A step by the evictor that takes away a channel's connections finds it silent for more than TIMEOUT
      before the snapshot, signs of life after the snapshot included. */
  lemma EvictedWasSilent(steps: seq<Step>, ch: Channel)
    requires var s := Exec(INIT, steps); s.Online(ch) && !Next(s, Evict).Online(ch)
    ensures var s := Exec(INIT, steps);
            LastHeard(INIT, steps, ch).At? && s.evictor.snapshot - LastHeard(INIT, steps, ch).time > TIMEOUT
  {
    EntryIsLastHeard(steps, ch);
  }

  // ---- Silent channels do become evictable ----

  predicate Silent(steps: seq<Step>, ch: Channel) {
    forall step <- steps :: !(step.Connect? && step.ch == ch) && !(step.Message? && step.ch == ch)
  }

  predicate StaysOnline(s: State, steps: seq<Step>, ch: Channel) {
    s.Online(ch) && forall i | 0 <= i <= |steps| :: Exec(s, steps[..i]).Online(ch)
  }

  /** How many server pongs renewed `ch` in a run. */
  function Renewals(s: State, steps: seq<Step>, ch: Channel): nat {
    if steps == [] then 0
    else
      var before, step := Exec(s, steps[..|steps| - 1]), steps[|steps| - 1];
      Renewals(s, steps[..|steps| - 1], ch) + if Hears(before, step, ch) then 1 else 0
  }

  lemma SpentWithinBudget(s: State, ch: Channel)
    requires Inv(s)
    ensures s.heart.Spent(ch) <= MAX_SERVER_KEEPALIVES
  {}

  lemma RenewalStep(s: State, step: Step, ch: Channel)
    requires Inv(s) && PromptStep(s, step) && Silent([step], ch)
    requires s.Online(ch) && Next(s, step).Online(ch)
    ensures Next(s, step).heart.Spent(ch) == s.heart.Spent(ch) + if Hears(s, step, ch) then 1 else 0
  {
    assert step in [step];
    StepKeeps(s, step);
  }

  /** Without a word from the client, the server renews an open channel at most MAX_SERVER_KEEPALIVES times. */
  lemma {:induction false} KeepalivesAreBounded(s: State, steps: seq<Step>, ch: Channel)
    requires Inv(s) && Prompt(s, steps) && Silent(steps, ch) && StaysOnline(s, steps, ch)
    ensures s.heart.Spent(ch) + Renewals(s, steps, ch) == Exec(s, steps).heart.Spent(ch) <= 3
  {
    hide Inv, Next, PromptStep;
    ExecKeeps(s, steps);
    SpentWithinBudget(Exec(s, steps), ch);
    if steps != [] {
      var front, step := steps[..|steps| - 1], steps[|steps| - 1];
      assert step in steps && forall st <- front :: st in steps;
      assert forall i | 0 <= i <= |front| :: front[..i] == steps[..i];
      assert StaysOnline(s, front, ch);
      ExecKeeps(s, front);
      KeepalivesAreBounded(s, front, ch);
      var before := Exec(s, front);
      assert before == Exec(s, steps[..|front|]) && before.Online(ch);
      assert steps[..|steps|] == steps && Next(before, step).Online(ch);
      RenewalStep(before, step, ch);
    }
  }

  /** Once the budget is spent the entry no longer moves, so it expires TIMEOUT later. */
  lemma {:induction false} SpentBudgetExpires(s: State, steps: seq<Step>, ch: Channel)
    requires Inv(s) && Prompt(s, steps) && Silent(steps, ch) && StaysOnline(s, steps, ch)
    requires s.heart.Spent(ch) == MAX_SERVER_KEEPALIVES
    ensures var s' := Exec(s, steps);
            && ch in s'.heart.last && ch in s.heart.last && s'.heart.last[ch] == s.heart.last[ch]
            && (s'.now - s.heart.last[ch] > TIMEOUT ==> s'.heart.StaleAt(ch, s'.now))
  {
    ExecKeeps(s, steps);
    KeepalivesAreBounded(s, steps, ch);
    if steps != [] {
      var front, step := steps[..|steps| - 1], steps[|steps| - 1];
      assert step in steps && forall st <- front :: st in steps;
      assert forall i | 0 <= i <= |front| :: front[..i] == steps[..i];
      assert StaysOnline(s, front, ch);
      SpentBudgetExpires(s, front, ch);
      KeepalivesAreBounded(s, front, ch);
    }
  }

  predicate Unheard(steps: seq<Step>, ch: Channel) {
    forall step <- steps :: !((step.Connect? || step.Message? || step.Pong?) && step.ch == ch)
  }

  predicate Pending(s: State, ch: Channel) { !s.evictor.Asleep? && ch in s.evictor.todo }

  /** Either the channel is still on the list and stale, or it has no connection any more. */
  predicate Doomed(s: State, ch: Channel) {
    if ch in s.conns then Pending(s, ch) && s.heart.StaleAt(ch, s.evictor.snapshot) else true
  }

  lemma UnheardStep(s: State, step: Step, ch: Channel)
    requires Watched(s) && Doomed(s, ch) && Unheard([step], ch)
    requires PromptStep(s, step) && Inv(s)
    ensures Doomed(Next(s, step), ch)
  {
    assert step in [step];
    if ch in Next(s, step).conns {
      match step
      case Finish => StepKeeps(s, step);
      case CleanUp(c) =>
      case Evict =>
      case _ =>
    }
  }

  /** A channel on the evictor's list that stays unheard has no connection left once its turn is over. */
  lemma {:induction false} ListedAndUnheardIsEvicted(s: State, steps: seq<Step>, ch: Channel)
    requires Inv(s) && Prompt(s, steps) && Unheard(steps, ch)
    requires Pending(s, ch) && s.heart.StaleAt(ch, s.evictor.snapshot)
    ensures Doomed(Exec(s, steps), ch)
    ensures !Pending(Exec(s, steps), ch) ==> !Exec(s, steps).Online(ch)
  {
    hide Inv, Next, PromptStep;
    if steps != [] {
      var front, step := steps[..|steps| - 1], steps[|steps| - 1];
      assert step in steps && forall st <- front :: st in steps;
      ListedAndUnheardIsEvicted(s, front, ch);
      ExecKeeps(s, front);
      assert Watched(Exec(s, front)) by { InvWatched(Exec(s, front)); }
      UnheardStep(Exec(s, front), step, ch);
    }
  }

  lemma InvWatched(s: State)
    requires Inv(s)
    ensures Watched(s)
  {}

  /** The evictor goes through its list without anybody else in between. */
  function Swept(s: State): State
    requires s.evictor.Scanning?
    decreases |s.evictor.todo|
  {
    var e := Next(s, Evict);
    if s.evictor.todo == [] then e else Swept(Next(e, Finish))
  }

  predicate Silent60(s: State, ch: Channel)
    requires !s.evictor.Asleep?
  {
    ch in s.heart.last && s.evictor.snapshot - s.heart.last[ch] > 60.0
  }

  lemma SweepStep(s: State)
    requires s.evictor.Scanning? && s.evictor.todo != [] && s.evictor.snapshot <= s.now && Inv(s)
    ensures var ch, t := s.evictor.todo[0], Next(Next(s, Evict), Finish);
            && t.evictor == Scanning(s.evictor.snapshot, s.evictor.todo[1..]) && t.now == s.now
            && t.conns == (if Silent60(s, ch) then s.conns - {ch} else s.conns)
            && t.heart == (if Silent60(s, ch) then s.heart.Remove(ch) else s.heart)
  {}

  /** An undisturbed sweep comes to its end, and takes exactly the channels of its list that were silent for a minute,
      with their connections and their entries. */
  lemma {:induction false} SweepTakesSilent(s: State)
    requires s.evictor.Scanning? && s.evictor.snapshot <= s.now && Inv(s)
    ensures var t := Swept(s);
            && t.evictor == Asleep && t.now == s.now
            && (forall ch :: ch in t.conns <==> ch in s.conns && !(ch in s.evictor.todo && Silent60(s, ch)))
            && (forall ch :: ch in t.heart.last <==> ch in s.heart.last && !(ch in s.evictor.todo && Silent60(s, ch)))
            && (forall ch <- t.conns :: t.conns[ch] == s.conns[ch])
            && (forall ch <- t.heart.last :: t.heart.last[ch] == s.heart.last[ch])
    decreases |s.evictor.todo|
  {
    if s.evictor.todo != [] {
      var u := Next(Next(s, Evict), Finish);
      SweepStep(s);
      StepKeeps(s, Evict);
      StepKeeps(Next(s, Evict), Finish);
      assert s.evictor.todo == [s.evictor.todo[0]] + s.evictor.todo[1..];
      hide Inv, Next;
      SweepTakesSilent(u);
    }
  }

  // ---- From the last keepalive to the eviction ----

  /** No connection any more, or listed, stale and without a keepalive left. */
  predicate Condemned(s: State, ch: Channel) {
    ch in s.conns ==>
      Pending(s, ch) && s.heart.StaleAt(ch, s.evictor.snapshot) && s.heart.Spent(ch) == MAX_SERVER_KEEPALIVES
  }

  lemma CondemnedStep(s: State, step: Step, ch: Channel)
    requires Inv(s) && Condemned(s, ch) && Silent([step], ch) && PromptStep(s, step)
    ensures Condemned(Next(s, step), ch)
  {
    assert step in [step];
    if ch in Next(s, step).conns {
      match step
      case Finish => StepKeeps(s, step);
      case CleanUp(c) =>
      case Evict =>
      case Pong(c) =>
      case _ =>
    }
  }

  lemma {:induction false} CondemnedStays(s: State, steps: seq<Step>, ch: Channel)
    requires Inv(s) && Condemned(s, ch) && Silent(steps, ch) && Prompt(s, steps)
    ensures Condemned(Exec(s, steps), ch)
  {
    hide Inv, Next, PromptStep, Condemned;
    if steps != [] {
      var front, step := steps[..|steps| - 1], steps[|steps| - 1];
      assert step in steps && forall st <- front :: st in steps;
      CondemnedStays(s, front, ch);
      ExecKeeps(s, front);
      CondemnedStep(Exec(s, front), step, ch);
    }
  }

  /** A channel whose client stays silent is evicted, whatever pongs the server still sends it: from a spent budget on,
      the first snapshot later than TIMEOUT after its last renewal lists it, and once its turn is over it has no
      connection left. */
  lemma SilentIsEvicted(s: State, a: seq<Step>, expired: seq<Channel>, b: seq<Step>, ch: Channel)
    requires Inv(s) && s.heart.Spent(ch) == MAX_SERVER_KEEPALIVES
    requires Prompt(s, a) && Silent(a, ch) && StaysOnline(s, a, ch)
    requires ch in s.heart.last && Exec(s, a).now - s.heart.last[ch] > TIMEOUT
    requires Exec(s, a).evictor.Asleep? && IsExpiredList(Exec(s, a).heart, Exec(s, a).now, expired)
    requires Silent(b, ch) && Prompt(Next(Exec(s, a), Snapshot(expired)), b)
    ensures ch in expired
    ensures var t := Exec(Next(Exec(s, a), Snapshot(expired)), b); !Pending(t, ch) ==> !t.Online(ch)
  {
    var s1 := Exec(s, a);
    var s2 := Next(s1, Snapshot(expired));
    ExecKeeps(s, a);
    SpentBudgetExpires(s, a, ch);
    KeepalivesAreBounded(s, a, ch);
    assert s2.evictor == Scanning(s1.now, expired) && s2.heart == s1.heart && s2.conns == s1.conns;
    StepKeeps(s1, Snapshot(expired));
    assert Condemned(s2, ch);
    hide Inv, Next, Exec, Silent, Prompt, StaysOnline;
    CondemnedStays(s2, b, ch);
  }
}
