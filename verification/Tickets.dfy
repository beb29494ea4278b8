/** Single-use tickets held in Redis, with a bounded in-memory store to fall back on.

    Every call to Redis may fail, before or after it took effect.  The atomic steps of all issuers and
    consumers are interleaved in any order; the methods of `TicketService` are sequences of such steps.
    Tokens are fresh: a step that would reuse one does nothing.
 */
module Tickets {
  import opened Wrappers
  import opened Text

  const MAX_TICKETS: nat := 10_000
  const DEFAULT_TTL: int := 60
  const MAX_TTL: int := 3600
  const SCOPES: set<string> := {"query", "metrics", "stream"}

  /** What a ticket was bound to when it was issued. */
  datatype Grant = Grant(user: string, scope: Option<string>, expiry: real)

  datatype Slot = Slot(token: string, grant: Grant)

  /** A call to Redis is answered, or fails without or after taking effect. */
  datatype Reply = Answered | FailedBefore | FailedAfter

  /** What a consumer asks of the ticket's scope. */
  datatype Requirement = AnyScope | OneScope(scope: string) | ScopeAmong(scopes: set<string>)

  datatype Verdict = Accepted(user: string) | Refused

  function ScopeAllowed(scope: Option<string>, req: Requirement): bool {
    || req.AnyScope?
    || scope.None?
    || (req.OneScope? && scope.value == req.scope)
    || (req.ScopeAmong? && scope.value in req.scopes)
  }

  function Judge(g: Grant, req: Requirement): Verdict {
    if ScopeAllowed(g.scope, req) then Accepted(g.user) else Refused
  }

  /** The stores, and what has happened so far: tickets handed out, and acceptances in order. */
  datatype State = State(
    now: real,
    redis: map<string, Grant>,
    memory: seq<Slot>,                // in order of insertion
    issued: map<string, Grant>,
    accepted: seq<Acceptance>)

  datatype Acceptance = Acceptance(token: string, user: string, at: real, req: Requirement)

  const INIT: State := State(0.0, map[], [], map[], [])

  datatype Step =
    | Tick(seconds: real)
    | RedisSet(token: string, grant: Grant, reply: Reply)
    | MemoryIssue(token: string, grant: Grant)
    | RedisTake(token: string, req: Requirement, reply: Reply)
    | MemoryTake(token: string, req: Requirement)

  function Unexpired(memory: seq<Slot>, now: real): seq<Slot> {
    if memory == [] then []
    else
      var kept, last := Unexpired(memory[..|memory| - 1], now), memory[|memory| - 1];
      if last.grant.expiry <= now then kept else kept + [last]
  }

  /** Purge, then make room by dropping the oldest. */
  function WithRoom(memory: seq<Slot>, now: real): seq<Slot> {
    var kept := Unexpired(memory, now);
    if |kept| >= MAX_TICKETS then kept[1..] else kept
  }

  function Find(memory: seq<Slot>, token: string): Option<Grant> {
    if memory == [] then None
    else if memory[|memory| - 1].token == token then Some(memory[|memory| - 1].grant)
    else Find(memory[..|memory| - 1], token)
  }

  function Without(memory: seq<Slot>, token: string): seq<Slot> {
    if memory == [] then []
    else
      var kept, last := Without(memory[..|memory| - 1], token), memory[|memory| - 1];
      if last.token == token then kept else kept + [last]
  }

  /** Redis drops a key at its expiry. */
  function RedisFind(s: State, token: string): Option<Grant> {
    if token in s.redis && s.now < s.redis[token].expiry then Some(s.redis[token]) else None
  }

  function MemoryFind(s: State, token: string): Option<Grant> { Find(Unexpired(s.memory, s.now), token) }

  function Accept(s: State, token: string, req: Requirement, v: Verdict): State {
    if v.Refused? then s else s.(accepted := s.accepted + [Acceptance(token, v.user, s.now, req)])
  }

  function Next(s: State, step: Step): State {
    match step
    case Tick(seconds) => if seconds < 0.0 then s else s.(now := s.now + seconds)
    case RedisSet(token, grant, reply) =>
      if token in s.issued then s
      else
        var s' := s.(issued := s.issued[token := grant]);
        if reply.FailedBefore? then s' else s'.(redis := s.redis[token := grant])
    case MemoryIssue(token, grant) =>
      if token in s.issued then s
      else s.(issued := s.issued[token := grant], memory := WithRoom(s.memory, s.now) + [Slot(token, grant)])
    case RedisTake(token, req, reply) =>
      var hit := RedisFind(s, token);
      if reply.FailedBefore? || hit.None? then s
      else
        var s' := s.(redis := s.redis - {token});
        if reply.FailedAfter? then s' else Accept(s', token, req, Judge(hit.value, req))
    case MemoryTake(token, req) =>
      var hit := MemoryFind(s, token);
      var s' := s.(memory := Without(Unexpired(s.memory, s.now), token));
      if hit.None? then s' else Accept(s', token, req, Judge(hit.value, req))
  }

  function Exec(s: State, steps: seq<Step>): State {
    if steps == [] then s else Next(Exec(s, steps[..|steps| - 1]), steps[|steps| - 1])
  }

  // ---- The memory store ----

  predicate Has(memory: seq<Slot>, token: string) { exists slot <- memory :: slot.token == token }

  predicate Distinct(memory: seq<Slot>) {
    forall i, j | 0 <= i < j < |memory| :: memory[i].token != memory[j].token
  }

  /** `part` keeps some of the slots of `memory`, in order. */
  predicate Picks(part: seq<Slot>, memory: seq<Slot>) { forall slot <- part :: slot in memory }

  lemma {:induction false} UnexpiredFacts(memory: seq<Slot>, now: real)
    requires Distinct(memory)
    ensures var kept := Unexpired(memory, now);
            && |kept| <= |memory| && Distinct(kept)
            && forall slot :: slot in kept <==> slot in memory && slot.grant.expiry > now
  {
    if memory != [] {
      var front, last := memory[..|memory| - 1], memory[|memory| - 1];
      UnexpiredFacts(front, now);
      assert memory == front + [last];
      assert forall slot <- Unexpired(front, now) :: slot in front;
    }
  }

  lemma {:induction false} WithoutFacts(memory: seq<Slot>, token: string)
    requires Distinct(memory)
    ensures var kept := Without(memory, token);
            && |kept| <= |memory| && Distinct(kept)
            && forall slot :: slot in kept <==> slot in memory && slot.token != token
  {
    if memory != [] {
      var front, last := memory[..|memory| - 1], memory[|memory| - 1];
      WithoutFacts(front, token);
      assert memory == front + [last];
      assert forall slot <- Without(front, token) :: slot in front;
    }
  }

  lemma {:induction false} FindFacts(memory: seq<Slot>, token: string)
    requires Distinct(memory)
    ensures Find(memory, token).None? <==> !Has(memory, token)
    ensures Find(memory, token).Some? ==> Slot(token, Find(memory, token).value) in memory
  {
    if memory != [] {
      var front, last := memory[..|memory| - 1], memory[|memory| - 1];
      FindFacts(front, token);
      assert memory == front + [last];
      assert last == Slot(last.token, last.grant);
    }
  }

  // ---- What every reachable state satisfies ----

  ghost predicate InStore(s: State, token: string) { token in s.redis || Has(s.memory, token) }

  ghost predicate StoresOk(s: State) {
    && |s.memory| <= MAX_TICKETS && Distinct(s.memory)
    && (forall slot <- s.memory :: slot.token in s.issued && s.issued[slot.token] == slot.grant && slot.token !in s.redis)
    && (forall token <- s.redis :: token in s.issued && s.issued[token] == s.redis[token])
  }

  /** An acceptance honours the ticket as issued, in time, and the ticket is gone. */
  ghost predicate AcceptanceOk(s: State, a: Acceptance) {
    && a.token in s.issued && !InStore(s, a.token)
    && a.user == s.issued[a.token].user && a.at < s.issued[a.token].expiry && a.at <= s.now
    && ScopeAllowed(s.issued[a.token].scope, a.req)
  }

  predicate OncePerTicket(accepted: seq<Acceptance>) {
    forall i, j | 0 <= i < j < |accepted| :: accepted[i].token != accepted[j].token
  }

  ghost predicate Inv(s: State) {
    && StoresOk(s) && OncePerTicket(s.accepted)
    && forall a <- s.accepted :: AcceptanceOk(s, a)
  }

  /** Steps that only take tickets away, or move time on. */
  lemma ShrinkKeeps(s: State, s': State)
    requires Inv(s) && s.now <= s'.now && s'.issued == s.issued && s'.accepted == s.accepted
    requires |s'.memory| <= |s.memory| && Distinct(s'.memory) && Picks(s'.memory, s.memory)
    requires s'.redis.Keys <= s.redis.Keys && forall t <- s'.redis :: s'.redis[t] == s.redis[t]
    ensures Inv(s')
  {
    forall a <- s'.accepted
      ensures AcceptanceOk(s', a)
    {
      assert AcceptanceOk(s, a);
    }
  }

  /** Booking the acceptance of a ticket that has just been taken out. */
  lemma AcceptKeeps(s: State, token: string, g: Grant, req: Requirement)
    requires Inv(s) && token in s.issued && s.issued[token] == g && s.now < g.expiry && !InStore(s, token)
    requires forall a <- s.accepted :: a.token != token
    ensures Inv(Accept(s, token, req, Judge(g, req)))
  {
    var s' := Accept(s, token, req, Judge(g, req));
    forall a <- s'.accepted
      ensures AcceptanceOk(s', a)
    {
      if a in s.accepted { assert AcceptanceOk(s, a); }
    }
    assert forall i | 0 <= i < |s.accepted| :: s.accepted[i] in s.accepted;
  }

  lemma StoredIsNotAccepted(s: State, token: string)
    requires Inv(s) && InStore(s, token)
    ensures forall a <- s.accepted :: a.token != token
  {
    forall a <- s.accepted
      ensures a.token != token
    {
      assert AcceptanceOk(s, a);
    }
  }

  lemma RedisTakeKeeps(s: State, token: string, req: Requirement, reply: Reply)
    requires Inv(s)
    ensures Inv(Next(s, RedisTake(token, req, reply)))
    ensures RedisFind(s, token).Some? && !reply.FailedBefore? ==> !InStore(Next(s, RedisTake(token, req, reply)), token)
  {
    var hit := RedisFind(s, token);
    if hit.Some? && !reply.FailedBefore? {
      var s' := s.(redis := s.redis - {token});
      StoredIsNotAccepted(s, token);
      ShrinkKeeps(s, s');
      if reply.Answered? { AcceptKeeps(s', token, hit.value, req); }
    }
  }

  lemma MemoryTakeKeeps(s: State, token: string, req: Requirement)
    requires Inv(s)
    ensures Inv(Next(s, MemoryTake(token, req)))
    ensures MemoryFind(s, token).Some? ==> !InStore(Next(s, MemoryTake(token, req)), token)
  {
    var live := Unexpired(s.memory, s.now);
    var s' := s.(memory := Without(live, token));
    UnexpiredFacts(s.memory, s.now);
    WithoutFacts(live, token);
    FindFacts(live, token);
    ShrinkKeeps(s, s');
    if MemoryFind(s, token).Some? {
      var slot := Slot(token, MemoryFind(s, token).value);
      assert slot in s.memory && Has(s.memory, token);
      StoredIsNotAccepted(s, token);
      AcceptKeeps(s', token, slot.grant, req);
    }
  }

  lemma RedisSetKeeps(s: State, token: string, grant: Grant, reply: Reply)
    requires Inv(s)
    ensures Inv(Next(s, RedisSet(token, grant, reply)))
  {
    var s' := Next(s, RedisSet(token, grant, reply));
    if token !in s.issued {
      assert forall slot <- s.memory :: slot.token in s.issued;
      forall a <- s'.accepted
        ensures AcceptanceOk(s', a)
      {
        assert AcceptanceOk(s, a);
      }
    }
  }

  lemma RoomFacts(memory: seq<Slot>, now: real)
    requires Distinct(memory) && |memory| <= MAX_TICKETS
    ensures var kept := WithRoom(memory, now);
            |kept| < MAX_TICKETS && Distinct(kept) && Picks(kept, memory)
  {
    UnexpiredFacts(memory, now);
    assert forall slot <- WithRoom(memory, now) :: slot in Unexpired(memory, now);
  }

  lemma MemoryIssueKeeps(s: State, token: string, grant: Grant)
    requires Inv(s)
    ensures Inv(Next(s, MemoryIssue(token, grant)))
  {
    var s' := Next(s, MemoryIssue(token, grant));
    if token !in s.issued {
      var kept := WithRoom(s.memory, s.now);
      RoomFacts(s.memory, s.now);
      assert s'.memory == kept + [Slot(token, grant)];
      hide WithRoom;
      assert forall slot <- kept :: slot in s.memory && slot.token in s.issued;
      assert Distinct(s'.memory) by { assert forall i | 0 <= i < |kept| :: kept[i] in kept; }
      assert StoresOk(s');
      forall a <- s'.accepted
        ensures AcceptanceOk(s', a)
      {
        assert AcceptanceOk(s, a);
      }
    }
  }

  lemma StepKeeps(s: State, step: Step)
    requires Inv(s)
    ensures Inv(Next(s, step))
  {
    match step
    case Tick(seconds) => if seconds >= 0.0 { ShrinkKeeps(s, Next(s, step)); }
    case RedisTake(token, req, reply) => RedisTakeKeeps(s, token, req, reply);
    case MemoryTake(token, req) => MemoryTakeKeeps(s, token, req);
    case RedisSet(token, grant, reply) => RedisSetKeeps(s, token, grant, reply);
    case MemoryIssue(token, grant) => MemoryIssueKeeps(s, token, grant);
  }

  lemma {:induction false} ExecKeeps(s: State, steps: seq<Step>)
    requires Inv(s)
    ensures Inv(Exec(s, steps))
  {
    if steps != [] {
      ExecKeeps(s, steps[..|steps| - 1]);
      StepKeeps(Exec(s, steps[..|steps| - 1]), steps[|steps| - 1]);
    }
  }

  // ---- The theorems ----

  /** A consumer asks for no scope, or the ticket has none, or the ticket's is among those asked for. */
  predicate InScope(scope: Option<string>, req: Requirement) {
    match req
    case AnyScope => true
    case OneScope(asked) => scope in {None, Some(asked)}
    case ScopeAmong(asked) => scope == None || scope.value in asked
  }

  lemma ScopeMeans(scope: Option<string>, req: Requirement)
    ensures ScopeAllowed(scope, req) <==> InScope(scope, req)
  {}

  /** However issuers and consumers interleave and Redis fails: a ticket is accepted at most once, for the
      user it was bound to, before its expiry, where its scope is asked for if it has one, and lives in one store at
      most; memory stays bounded. */
  lemma EveryRunIsSafe(steps: seq<Step>)
    ensures var s := Exec(INIT, steps);
            && OncePerTicket(s.accepted)
            && |s.memory| <= MAX_TICKETS
            && (forall token :: !(token in s.redis && Has(s.memory, token)))
            && forall a <- s.accepted ::
                 && a.token in s.issued && a.user == s.issued[a.token].user && a.at < s.issued[a.token].expiry
                 && InScope(s.issued[a.token].scope, a.req)
  {
    ExecKeeps(INIT, steps);
    var s := Exec(INIT, steps);
    assert forall a <- s.accepted :: AcceptanceOk(s, a);
    hide Exec, Next;
    forall a <- s.accepted
      ensures a.token in s.issued && InScope(s.issued[a.token].scope, a.req)
    {
      ScopeMeans(s.issued[a.token].scope, a.req);
    }
  }

  lemma GoneStep(s: State, step: Step, token: string)
    requires Inv(s) && token in s.issued && !InStore(s, token)
    ensures var s' := Next(s, step);
            && token in s'.issued && !InStore(s', token)
            && forall a <- s'.accepted | a.token == token :: a in s.accepted
  {
    UnexpiredFacts(s.memory, s.now);
    match step
    case Tick(seconds) =>
    case RedisSet(t, grant, reply) =>
    case RedisTake(t, req, reply) =>
    case MemoryIssue(t, grant) => RoomFacts(s.memory, s.now);
    case MemoryTake(t, req) =>
      WithoutFacts(Unexpired(s.memory, s.now), t);
      FindFacts(Unexpired(s.memory, s.now), t);
  }

  /** A ticket that has left the stores never comes back and is never accepted again. */
  lemma {:induction false} GoneStaysGone(s: State, steps: seq<Step>, token: string)
    requires Inv(s) && token in s.issued && !InStore(s, token)
    ensures var s' := Exec(s, steps);
            && token in s'.issued && !InStore(s', token)
            && forall a <- s'.accepted | a.token == token :: a in s.accepted
  {
    if steps != [] {
      var front := steps[..|steps| - 1];
      GoneStaysGone(s, front, token);
      ExecKeeps(s, front);
      hide Inv;
      hide InStore;
      hide Next;
      GoneStep(Exec(s, front), steps[|steps| - 1], token);
    }
  }

  /** A consumer that asks for the wrong scope burns the ticket: nobody gets in with it afterwards. */
  lemma WrongScopeBurns(before: seq<Step>, step: Step, after: seq<Step>)
    requires step.RedisTake? || step.MemoryTake?
    requires var s := Exec(INIT, before);
             var hit := if step.RedisTake? then RedisFind(s, step.token) else MemoryFind(s, step.token);
             hit.Some? && !ScopeAllowed(hit.value.scope, step.req) && (step.RedisTake? ==> step.reply.Answered?)
    ensures var s := Exec(Next(Exec(INIT, before), step), after);
            forall a <- s.accepted :: a.token != step.token
  {
    var s := Exec(INIT, before);
    ExecKeeps(INIT, before);
    if step.RedisTake? {
      StoredIsNotAccepted(s, step.token);
      RedisTakeKeeps(s, step.token, step.req, step.reply);
    } else {
      UnexpiredFacts(s.memory, s.now);
      FindFacts(Unexpired(s.memory, s.now), step.token);
      StoredIsNotAccepted(s, step.token);
      MemoryTakeKeeps(s, step.token, step.req);
    }
    GoneStaysGone(Next(s, step), after, step.token);
  }

  // ---- Issuing and consuming, as sequences of steps ----

  /** What the caller passes as time to live: a number, or something that is none. */
  function ClampTtl(ttl: Option<int>): int {
    if ttl.None? then DEFAULT_TTL else if ttl.value > MAX_TTL then MAX_TTL else ttl.value
  }

  function NormalScope(scope: Option<string>): Option<string> {
    if scope.Some? && Strip(scope.value) in SCOPES then Some(Strip(scope.value)) else None
  }

  function Bind(s: State, user: string, scope: Option<string>, ttl: Option<int>): Grant {
    Grant(Strip(user), NormalScope(scope), s.now + ClampTtl(ttl) as real)
  }

  /** A drawn token that Redis still holds, so that a set that asks for a new key is refused. */
  predicate Clashes(s: State, token: string) { token in s.issued && RedisFind(s, token).Some? }

  predicate Drawn(s: State, token: string) { (token !in s.issued && token !in s.redis) || Clashes(s, token) }

  /** The second attempt has a token and a reply of its own; whatever fails ends in memory. */
  function IssueSteps(s: State, tokens: (string, string, string), g: Grant, seconds: int, up: bool,
                      replies: (Reply, Reply)): seq<Step>
  {
    if seconds <= 0 then []
    else if !up then [MemoryIssue(tokens.2, g)]
    else if !replies.0.Answered? then [RedisSet(tokens.0, g, replies.0), MemoryIssue(tokens.2, g)]
    else if !Clashes(s, tokens.0) then [RedisSet(tokens.0, g, replies.0)]
    else if !replies.1.Answered? then [RedisSet(tokens.1, g, replies.1), MemoryIssue(tokens.2, g)]
    else if !Clashes(s, tokens.1) then [RedisSet(tokens.1, g, replies.1)]
    else [MemoryIssue(tokens.2, g)]
  }

  /** Redis hands a stored ticket over at the first or the second call. */
  predicate Handed(take: Reply, retry: Reply) { take.Answered? || (take.FailedBefore? && retry.Answered?) }

  class TicketService {
    var redis: map<string, Grant>
    var memory: seq<Slot>
    ghost var now: real
    ghost var issued: map<string, Grant>
    ghost var accepted: seq<Acceptance>

    ghost function View(): State
      reads this
    {
      State(now, redis, memory, issued, accepted)
    }

    constructor ()
      ensures View() == INIT
    {
      redis, memory, now, issued, accepted := map[], [], 0.0, map[], [];
    }

    method Purge(clock: real)
      requires clock == now
      modifies this`memory
      ensures memory == Unexpired(old(memory), now)
    {
      var kept := [];
      for i := 0 to |memory|
        invariant memory == old(memory)
        invariant kept == Unexpired(memory[..i], now)
      {
        assert memory[..i + 1][..i] == memory[..i];
        if !(memory[i].grant.expiry <= clock) { kept := kept + [memory[i]]; }
      }
      assert memory[..|memory|] == memory;
      memory := kept;
    }

    method IssueMemory(token: string, g: Grant, clock: real)
      requires clock == now && token !in issued
      modifies this
      ensures View() == Next(old(View()), MemoryIssue(token, g))
      ensures Slot(token, g) in memory && token in issued && issued[token] == g
    {
      Purge(clock);
      if |memory| >= MAX_TICKETS { memory := memory[1..]; }
      memory := memory + [Slot(token, g)];
      issued := issued[token := g];
    }

    /** Set a key that must be new. */
    method SetRedis(token: string, g: Grant, clock: real, reply: Reply) returns (ok: Option<bool>)
      requires Drawn(View(), token) && clock == now
      modifies this`redis, this`issued
      ensures View() == Next(old(View()), RedisSet(token, g, reply))
      ensures ok == if reply.Answered? then Some(!Clashes(old(View()), token)) else None
      ensures Clashes(old(View()), token) ==> View() == old(View())
      ensures ok == Some(true) ==> token !in old(issued) && token in redis && token in issued && issued[token] == g
      ensures issued.Keys <= old(issued).Keys + {token}
    {
      var taken := token in redis && clock < redis[token].expiry;
      if !taken {
        issued := issued[token := g];
        if reply != FailedBefore { redis := redis[token := g]; }
      }
      ok := if reply == Answered then Some(!taken) else None;
    }

    /** Try Redis twice if the first token is taken there; `up` says whether there is a Redis client at all.
        A failed call, or a second clash, falls back to memory. */
    method Issue(tokens: (string, string, string), user: string, scope: Option<string>, ttl: Option<int>,
                 clock: real, up: bool, replies: (Reply, Reply)) returns (ticket: string)
      requires Drawn(View(), tokens.0) && Drawn(View(), tokens.1) && tokens.2 !in issued && clock == now
      requires tokens.0 != tokens.2 && tokens.1 != tokens.2
      modifies this
      ensures View() == Exec(old(View()), IssueSteps(old(View()), tokens, Bind(old(View()), user, scope, ttl),
                                                     ClampTtl(ttl), up, replies))
      ensures ClampTtl(ttl) > 0 ==> && ticket !in old(issued) && ticket in issued
                                    && issued[ticket] == Bind(old(View()), user, scope, ttl)
      ensures ClampTtl(ttl) > 0 ==> InStore(View(), ticket)
      ensures ClampTtl(ttl) <= 0 ==> View() == old(View()) && ticket == tokens.0
    {
      hide Clashes, Drawn, Exec, Next;
      var seconds := ClampTtl(ttl);
      if seconds <= 0 {
        ExecNone(View());
        return tokens.0;
      }
      var g := Grant(Strip(user), NormalScope(scope), clock + seconds as real);
      ghost var s := View();
      if up {
        var ok := SetRedis(tokens.0, g, clock, replies.0);
        ExecOne(s, RedisSet(tokens.0, g, replies.0));
        ExecTwo(s, RedisSet(tokens.0, g, replies.0), MemoryIssue(tokens.2, g));
        if ok == Some(true) { return tokens.0; }
        if ok == Some(false) {
          ok := SetRedis(tokens.1, g, clock, replies.1);
          ExecOne(s, RedisSet(tokens.1, g, replies.1));
          ExecTwo(s, RedisSet(tokens.1, g, replies.1), MemoryIssue(tokens.2, g));
          if ok == Some(true) { return tokens.1; }
        }
      }
      ExecOne(s, MemoryIssue(tokens.2, g));
      IssueMemory(tokens.2, g, clock);
      ticket := tokens.2;
    }

    method ConsumeMemory(ticket: string, req: Requirement, clock: real) returns (v: Verdict)
      requires clock == now
      modifies this
      ensures View() == Next(old(View()), MemoryTake(ticket, req))
      ensures v == var hit := MemoryFind(old(View()), ticket); if hit.None? then Refused else Judge(hit.value, req)
    {
      Purge(clock);
      var entry := Find(memory, ticket);
      memory := Without(memory, ticket);
      if entry.None? { return Refused; }
      v := Judge(entry.value, req);
      if v.Accepted? { accepted := accepted + [Acceptance(ticket, v.user, now, req)]; }
    }

    /** One atomic read-and-delete in Redis; no verdict when the call fails or misses. */
    method TakeRedis(ticket: string, req: Requirement, clock: real, reply: Reply) returns (v: Option<Verdict>)
      requires clock == now
      modifies this
      ensures View() == Next(old(View()), RedisTake(ticket, req, reply))
      ensures v == var hit := RedisFind(old(View()), ticket);
                   if hit.Some? && reply.Answered? then Some(Judge(hit.value, req)) else None
    {
      if ticket !in redis || clock >= redis[ticket].expiry || reply == FailedBefore { return None; }
      var g := redis[ticket];
      redis := redis - {ticket};
      if reply == FailedAfter { return None; }
      var verdict := Judge(g, req);
      if verdict.Accepted? { accepted := accepted + [Acceptance(ticket, verdict.user, now, req)]; }
      v := Some(verdict);
    }

    /** Take from Redis, retry with a script when the call fails, and look into memory on a miss. */
    method Consume(ticket: string, req: Requirement, clock: real, up: bool, take: Reply, retry: Reply) returns (v: Verdict)
      requires Inv(View()) && clock == now
      modifies this
      ensures Inv(View()) && now == old(now) && issued == old(issued)
      ensures accepted == if v.Accepted? then old(accepted) + [Acceptance(ticket, v.user, now, req)] else old(accepted)
      ensures v.Accepted? ==> !InStore(View(), ticket) && ticket in issued && v.user == issued[ticket].user
      // A ticket is accepted exactly when it is alive, asked for in its scope, and handed over by a store.
      ensures ticket != "" ==>
                (v.Accepted? <==> && InStore(old(View()), ticket) && now < issued[ticket].expiry
                                  && ScopeAllowed(issued[ticket].scope, req)
                                  && (Has(old(memory), ticket) || (up && Handed(take, retry))))
    {
      if ticket == "" { return Refused; }
      hide Inv, Next, RedisFind, MemoryFind, ScopeAllowed, Has;
      if up {
        var found := TakeEither(ticket, req, clock, take, retry);
        if found.Some? { return found.value; }
      }
      MemoryTakeFacts(View(), ticket, req);
      v := ConsumeMemory(ticket, req, clock);
    }

    /** The two calls to Redis: the second only when the first fails. */
    method TakeEither(ticket: string, req: Requirement, clock: real, take: Reply, retry: Reply) returns (v: Option<Verdict>)
      requires Inv(View()) && clock == now
      modifies this
      ensures Inv(View()) && now == old(now) && issued == old(issued) && memory == old(memory) && redis.Keys <= old(redis).Keys
      ensures v.Some? <==> ticket in old(redis) && now < issued[ticket].expiry && Handed(take, retry)
      ensures v.None? ==> accepted == old(accepted)
      ensures v.Some? ==>
                && ticket in issued && !InStore(View(), ticket) && v.value == Judge(issued[ticket], req)
                && accepted == Booked(old(View()), ticket, req)
    {
      hide Inv, Next, RedisFind, Judge, ScopeAllowed, Has;
      RedisTakeFacts(View(), ticket, req, take);
      v := TakeRedis(ticket, req, clock, take);
      if take != Answered {
        RedisTakeFacts(View(), ticket, req, retry);
        v := TakeRedis(ticket, req, clock, retry);
      }
    }
  }

  /** The acceptances after a ticket has been handed over. */
  function Booked(s: State, token: string, req: Requirement): seq<Acceptance>
    requires token in s.issued
  {
    if ScopeAllowed(s.issued[token].scope, req) then s.accepted + [Acceptance(token, s.issued[token].user, s.now, req)]
    else s.accepted
  }

  /** What one read-and-delete does to the state, and what it may answer. */
  lemma RedisTakeFacts(s: State, token: string, req: Requirement, reply: Reply)
    requires Inv(s)
    ensures var (s', hit) := (Next(s, RedisTake(token, req, reply)), RedisFind(s, token));
            && Inv(s') && s'.now == s.now && s'.issued == s.issued && s'.memory == s.memory
            && (hit.Some? <==> token in s.redis && s.now < s.issued[token].expiry)
            && (hit.Some? ==> token in s.issued && hit.value == s.issued[token])
            && s'.accepted == (if hit.Some? && reply.Answered? then Booked(s, token, req) else s.accepted)
            && (hit.Some? && !reply.FailedBefore? ==> !InStore(s', token))
            && (hit.None? || reply.FailedBefore? ==> s' == s)
            && s'.redis.Keys <= s.redis.Keys
  {
    FindIsIssued(s, token);
    RedisTakeKeeps(s, token, req, reply);
  }

  lemma MemoryTakeFacts(s: State, token: string, req: Requirement)
    requires Inv(s)
    ensures var (s', hit) := (Next(s, MemoryTake(token, req)), MemoryFind(s, token));
            && Inv(s') && s'.now == s.now && s'.issued == s.issued
            && (hit.Some? <==> Has(s.memory, token) && s.now < s.issued[token].expiry)
            && (hit.Some? ==> token in s.issued && hit.value == s.issued[token])
            && s'.accepted == (if hit.Some? then Booked(s, token, req) else s.accepted)
            && (hit.Some? ==> !InStore(s', token))
  {
    FindIsIssued(s, token);
    MemoryTakeKeeps(s, token, req);
  }

  /** A lookup finds just the live tickets of a store, as they were issued. */
  lemma FindIsIssued(s: State, token: string)
    requires Inv(s)
    ensures RedisFind(s, token).Some? <==> token in s.redis && s.now < s.issued[token].expiry
    ensures MemoryFind(s, token).Some? <==> Has(s.memory, token) && s.now < s.issued[token].expiry
    ensures token in s.issued ==> RedisFind(s, token).Some? ==> RedisFind(s, token).value == s.issued[token]
    ensures token in s.issued ==> MemoryFind(s, token).Some? ==> MemoryFind(s, token).value == s.issued[token]
  {
    var live := Unexpired(s.memory, s.now);
    UnexpiredFacts(s.memory, s.now);
    FindFacts(live, token);
    assert forall slot <- live :: slot in s.memory;
  }

  /** A consumer that finds a live ticket accepts it, for the user it was bound to, exactly if it asks for no scope, or
      the ticket has none, or it is one of those asked for. */
  lemma FoundIsAcceptedIff(s: State, step: Step)
    requires Inv(s) && ((step.RedisTake? && step.reply.Answered? && step.token in s.redis) || (step.MemoryTake? && Has(s.memory, step.token)))
    requires s.now < s.issued[step.token].expiry
    ensures var g, t := s.issued[step.token], Next(s, step);
            var asked := match step.req case AnyScope => {} case OneScope(x) => {x} case ScopeAmong(xs) => xs;
            t.accepted == if step.req.AnyScope? || g.scope == None || g.scope.value in asked
                          then s.accepted + [Acceptance(step.token, g.user, s.now, step.req)] else s.accepted
  {
    if step.RedisTake? {
      RedisTakeFacts(s, step.token, step.req, step.reply);
    } else {
      MemoryTakeFacts(s, step.token, step.req);
    }
    hide Inv, Next;
  }

  /** A set that fails after it took effect leaves a ticket in Redis that nobody has been given. */
  lemma SetMeans(s: State, token: string, grant: Grant, reply: Reply)
    requires token !in s.issued
    ensures var t := Next(s, RedisSet(token, grant, reply));
            && t.redis == (if reply == FailedBefore then s.redis else s.redis[token := grant])
            && t.issued == s.issued[token := grant] && t.memory == s.memory && t.accepted == s.accepted
  {}

  /** A ticket is bound to the user without surrounding blanks, to one of three scopes or none, and for an hour at
      most. */
  lemma BindMeans(s: State, user: string, scope: Option<string>, ttl: Option<int>)
    ensures var g := Bind(s, user, scope, ttl);
            && g.user == Strip(user)
            && g.scope == (if scope != None && Strip(scope.value) in ["query", "metrics", "stream"] then Some(Strip(scope.value)) else None)
            && g.expiry - s.now == if ttl == None then 60.0 else if ttl.value > 3600 then 3600.0 else ttl.value as real
  {}

  /** A ticket that goes to memory is stored there with all live ones, except for the oldest of 10000. */
  lemma IssueKeepsOthers(s: State, token: string, grant: Grant)
    requires Inv(s) && token !in s.issued
    ensures var live := Unexpired(s.memory, s.now);
            && (forall slot :: slot in live <==> slot in s.memory && slot.grant.expiry > s.now)
            && Next(s, MemoryIssue(token, grant)).memory
               == (if |live| < 10000 then live else live[1..]) + [Slot(token, grant)]
            && |live| <= 10000
  {
    UnexpiredFacts(s.memory, s.now);
  }

  lemma ExecOne(s: State, a: Step)
    ensures Exec(s, [a]) == Next(s, a)
  {
    assert [a][..0] == [];
  }

  lemma ExecNone(s: State)
    ensures Exec(s, []) == s
  {}

  lemma ExecTwo(s: State, a: Step, b: Step)
    ensures Exec(s, [a, b]) == Next(Next(s, a), b)
  {
    assert [a, b][..1] == [a];
    ExecOne(s, a);
  }
}
