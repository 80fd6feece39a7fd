/** The worker protocol: many callers, one bounded queue, one loop. The state machine takes any step of
    any party in any order; a run is a sequence of such steps. */
module WorkerProtocol {
  import opened WorkerLoop
  import opened Options

  const CAPACITY: nat := 64
  const CLOSE_WAIT_MS: nat := 5 * 1000

  // ---------------------------------------------------------------- calls

  /** How sending goes on when the queue is full: give up at once, or try again for up to `max` ms. */
  datatype Policy = Once | Retry(max: Option<nat>)

  datatype Outcome = Reply | Sent | Busy | Timeout | WorkerClosed

  /** The caller's side: still sending, waiting for the reply, finished, or dropped before it finished. */
  datatype Phase = Sending | Waiting | Done(out: Outcome) | Gone

  /** The request's side. New: not in the queue yet. Refused: it never gets there. Unanswered: its
      response channel was dropped, with or without the request being served. */
  datatype Stage = New | Queued | Serving | Answered | Unanswered(served: bool) | Refused

  /** `born` is when the request was created, `sent` when it entered the queue; `limit` in seconds. */
  datatype Call = Call(kind: Kind, policy: Policy, limit: Option<nat>, born: nat, sent: nat, phase: Phase, stage: Stage)

  /** The calls the worker handle offers: one attempt for Open and tools, retries for Close and Shutdown.
      Timeouts are cut to 600 seconds. */
  predicate Offered(kind: Kind, policy: Policy, limit: Option<nat>) {
    match kind
    case Open(_) => policy.Once? && limit.None?
    case Tool => policy.Once? && (limit.Some? ==> limit.value <= 600)
    case Close => (policy == Retry(Some(CLOSE_WAIT_MS)) || policy == Retry(None)) && limit.None?
    case Shutdown => policy == Retry(None) && limit.None?
  }

  /** A requested timeout: 120 seconds by default, at most 600. */
  function Limit(requested: Option<nat>): (t: nat)
    ensures Offered(Tool, Once, Some(t)) && (requested.None? ==> t == 120)
    ensures requested.Some? ==> t <= requested.value && (t == requested.value || t == 600)
  {
    var t := if requested.Some? then requested.value else 120;
    if t <= 600 then t else 600
  }

  predicate GivesUp(p: Policy, elapsed: nat) {
    p.Once? || (p.max.Some? && elapsed >= p.max.value)
  }

  // ---------------------------------------------------------------- the system

  datatype Status = Looping | Shut | Abandoned

  /** A request taken from the queue: what became of it, whether its caller was there, how old it was. */
  datatype Taken = Taken(id: nat, kind: Kind, verdict: Verdict, live: bool, age: nat)

  /** `accepted` lists the requests in the order they entered the queue, `taken` those the loop has taken,
      `dropped` those still queued when it ended. */
  datatype Sys = Sys(now: nat, calls: seq<Call>, queue: seq<nat>, serving: Option<nat>, status: Status, handles: nat,
                     locals: Locals, accepted: seq<nat>, taken: seq<Taken>, dropped: seq<nat>)

  function Init(handles: nat): (s: Sys) {
    Sys(0, [], [], None, Looping, handles, FRESH, [], [], [])
  }

  datatype Step =
    | Tick
    | Clone
    | DropHandle
    | Start(kind: Kind, policy: Policy, limit: Option<nat>)
    | TrySend(id: nat)
    | Cancel(id: nat)
    | Expire(id: nat)
    | Collect(id: nat)
    | SeeClosed(id: nat)
    | Take
    | Finish(open: OpenResult)
    | Disconnect

  predicate Active(c: Call) {
    c.phase.Sending? || c.phase.Waiting?
  }

  ghost predicate Enabled(s: Sys, t: Step) {
    match t
    case Tick => true
    case Clone => s.handles > 0
    case DropHandle =>
      s.handles > 1 || (s.handles == 1 && forall i :: 0 <= i < |s.calls| ==> !Active(s.calls[i]))
    case Start(kind, policy, limit) => s.handles > 0 && Offered(kind, policy, limit)
    case TrySend(id) => id < |s.calls| && s.calls[id].phase.Sending?
    case Cancel(id) => id < |s.calls| && Active(s.calls[id])
    case Expire(id) =>
      && id < |s.calls| && s.calls[id].phase.Waiting? && s.calls[id].limit.Some?
      && s.now >= s.calls[id].sent + s.calls[id].limit.value * 1000
    case Collect(id) => id < |s.calls| && s.calls[id].phase.Waiting? && s.calls[id].stage.Answered?
    case SeeClosed(id) => id < |s.calls| && s.calls[id].phase.Waiting? && s.calls[id].stage.Unanswered?
    case Take => s.status.Looping? && s.serving.None? && |s.queue| > 0 && s.queue[0] < |s.calls|
    case Finish(_) => s.status.Looping? && s.serving.Some? && s.serving.value < |s.calls|
    case Disconnect => s.status.Looping? && s.serving.None? && s.queue == [] && s.handles == 0
  }

  function SetCall(s: Sys, id: nat, c: Call): (r: Sys)
    requires id < |s.calls|
  {
    s.(calls := s.calls[id := c])
  }

  function Create(s: Sys, kind: Kind, policy: Policy, limit: Option<nat>): (r: Sys) {
    s.(calls := s.calls + [Call(kind, policy, limit, s.now, 0, Sending, New)])
  }

  /** One attempt to put the request into the queue. */
  function Attempt(s: Sys, id: nat): (r: Sys)
    requires id < |s.calls|
  {
    var c := s.calls[id];
    if !s.status.Looping? then SetCall(s, id, c.(phase := Done(WorkerClosed), stage := Refused))
    else if |s.queue| < CAPACITY then
      SetCall(s, id, c.(phase := if c.kind.Shutdown? then Done(Sent) else Waiting, stage := Queued, sent := s.now))
        .(queue := s.queue + [id], accepted := s.accepted + [id])
    else if GivesUp(c.policy, Age(s, id)) then SetCall(s, id, c.(phase := Done(Busy), stage := Refused))
    else s
  }

  function Abort(s: Sys, id: nat): (r: Sys)
    requires id < |s.calls|
  {
    var c := s.calls[id];
    SetCall(s, id, c.(phase := Gone, stage := if c.stage.New? then Refused else c.stage))
  }

  function Age(s: Sys, id: nat): (a: nat)
    requires id < |s.calls|
  {
    if s.now >= s.calls[id].born then s.now - s.calls[id].born else 0
  }

  /** The caller's half of the response channel is gone; Shutdown has no such channel. */
  predicate RespClosed(c: Call) {
    !c.kind.Shutdown? && !c.phase.Waiting?
  }

  function TakeOne(s: Sys): (r: Sys)
    requires |s.queue| > 0 && s.queue[0] < |s.calls|
  {
    var id := s.queue[0];
    var c, age := s.calls[id], Age(s, id);
    var q := s.(queue := s.queue[1..]);
    if Skips(c.kind, RespClosed(c), age) then
      SetCall(q, id, c.(stage := Unanswered(false)))
        .(taken := s.taken + [Taken(id, c.kind, Skipped, !RespClosed(c), age)])
    else
      SetCall(q, id, c.(stage := Serving))
        .(serving := Some(id), locals := s.locals.(lib := true),
          taken := s.taken + [Taken(id, c.kind, Served, !RespClosed(c), age)])
  }

  /** Queued requests lose their response channels when the receiver goes. */
  function Drain(calls: seq<Call>): (r: seq<Call>)
    ensures |r| == |calls|
    ensures forall i :: 0 <= i < |calls| ==>
              r[i] == if calls[i].stage.Queued? then calls[i].(stage := Unanswered(false)) else calls[i]
  {
    seq(|calls|, i requires 0 <= i < |calls| =>
      if calls[i].stage.Queued? then calls[i].(stage := Unanswered(false)) else calls[i])
  }

  /** The request being served is over; the reply goes out if its caller still waits. */
  function Over(s: Sys, l: Locals): (r: Sys)
    requires s.serving.Some? && s.serving.value < |s.calls|
  {
    var id := s.serving.value;
    var c := s.calls[id];
    SetCall(s, id, c.(stage := if c.phase.Waiting? then Answered else Unanswered(true))).(serving := None, locals := l)
  }

  /** The loop ends with Shutdown: the queue is dropped. */
  function Ended(s: Sys): (r: Sys) {
    s.(status := Shut, queue := [], dropped := s.queue, calls := Drain(s.calls))
  }

  function Complete(s: Sys, open: OpenResult): (r: Sys)
    requires s.serving.Some? && s.serving.value < |s.calls|
  {
    var k := s.calls[s.serving.value].kind;
    var done := Over(s, Handle(s.locals, k, open));
    if k.Shutdown? then Ended(done) else done
  }

  function Apply(s: Sys, t: Step): (r: Sys)
    requires Enabled(s, t)
  {
    match t
    case Tick => s.(now := s.now + 1)
    case Clone => s.(handles := s.handles + 1)
    case DropHandle => s.(handles := s.handles - 1)
    case Start(kind, policy, limit) => Create(s, kind, policy, limit)
    case TrySend(id) => Attempt(s, id)
    case Cancel(id) => Abort(s, id)
    case Expire(id) => SetCall(s, id, s.calls[id].(phase := Done(Timeout)))
    case Collect(id) => SetCall(s, id, s.calls[id].(phase := Done(Reply)))
    case SeeClosed(id) => SetCall(s, id, s.calls[id].(phase := Done(WorkerClosed)))
    case Take => TakeOne(s)
    case Finish(open) => Complete(s, open)
    case Disconnect => s.(status := Abandoned, locals := Disconnected(s.locals))
  }

  // ---------------------------------------------------------------- invariant, call by call

  /** Caller and request are in step. */
  predicate CallOk(c: Call, now: nat) {
    && c.born <= now
    && (c.phase.Sending? <==> c.stage.New?)
    && (c.phase.Waiting? ==> !c.kind.Shutdown? && !c.stage.Refused? && c.stage != Unanswered(true))
    && (c.stage.Refused? ==> c.phase == Done(Busy) || c.phase == Done(WorkerClosed) || c.phase.Gone?)
    && (c.phase.Done? ==> OutcomeOk(c))
  }

  /** What an outcome says about the request. */
  predicate OutcomeOk(c: Call)
    requires c.phase.Done?
  {
    match c.phase.out
    case Reply => c.stage.Answered?
    case Sent => c.kind.Shutdown? && !c.stage.Refused? && !c.stage.New?
    case Busy => c.stage.Refused?
    case Timeout => !c.stage.Refused? && !c.stage.New?
    case WorkerClosed => c.stage.Refused? || c.stage == Unanswered(false)
  }

  ghost predicate CallsOk(s: Sys) {
    forall i :: 0 <= i < |s.calls| ==> CallOk(s.calls[i], s.now)
  }

  /** The queue holds exactly the queued requests, each once; the loop serves exactly the serving one. */
  ghost predicate QueueOk(s: Sys) {
    && (forall i :: 0 <= i < |s.queue| ==> s.queue[i] < |s.calls| && s.calls[s.queue[i]].stage.Queued?)
    && (forall i, j :: 0 <= i < j < |s.queue| ==> s.queue[i] != s.queue[j])
    && (forall id :: 0 <= id < |s.calls| && s.calls[id].stage.Queued? ==> id in s.queue)
    && |s.queue| <= CAPACITY
    && (s.serving.Some? ==> s.serving.value < |s.calls|)
    && (forall id :: 0 <= id < |s.calls| ==> (s.calls[id].stage.Serving? <==> s.serving == Some(id)))
    && (!s.status.Looping? ==> s.queue == [] && s.serving.None?)
  }

  function Ids(taken: seq<Taken>): (ids: seq<nat>)
    ensures |ids| == |taken|
  {
    seq(|taken|, i requires 0 <= i < |taken| => taken[i].id)
  }

  /** First in, first out: what was accepted is what was taken, then what was dropped, then the queue. */
  ghost predicate FifoOk(s: Sys) {
    && s.accepted == Ids(s.taken) + s.dropped + s.queue
    && (s.status.Looping? ==> s.dropped == [])
    && (forall i :: 0 <= i < |s.accepted| ==>
          && s.accepted[i] < |s.calls|
          && !s.calls[s.accepted[i]].stage.New? && !s.calls[s.accepted[i]].stage.Refused?)
    && (forall i, j :: 0 <= i < j < |s.accepted| ==> s.accepted[i] != s.accepted[j])
  }

  /** Served: a control request, or one whose caller was there within the deadline. Skipped: neither. */
  predicate TakenOk(t: Taken) {
    && (t.verdict == Served <==> IsControl(t.kind) || (t.live && t.age <= DEADLINE_MS))
  }

  ghost predicate TakenAllOk(s: Sys) {
    forall i :: 0 <= i < |s.taken| ==>
      && TakenOk(s.taken[i]) && s.taken[i].id < |s.calls| && s.calls[s.taken[i].id].kind == s.taken[i].kind
      && (s.calls[s.taken[i].id].stage == Unanswered(false) ==> s.taken[i].verdict == Skipped)
  }

  /** The lock is given up before the database is dropped only when the loop was abandoned with a
      database open. */
  ghost predicate LocalsOk(s: Sys) {
    match s.status
    case Looping => Consistent(s.locals) && !ReplayOf(s.locals.log).early
    case Shut => Consistent(s.locals) && !ReplayOf(s.locals.log).early && s.locals.idb.None? && !s.locals.lockFile
    case Abandoned =>
      var p := ReplayOf(s.locals.log);
      s.locals.idb.None? && !s.locals.lockFile && !p.db && !p.lock && (p.early <==> p.onDisk)
  }

  ghost predicate Inv(s: Sys) {
    CallsOk(s) && QueueOk(s) && FifoOk(s) && TakenAllOk(s) && LocalsOk(s)
  }

  // ---------------------------------------------------------------- every step keeps it

  /** A step that only moves the caller of call `id`. */
  lemma {:induction false} CallerMoves(s: Sys, id: nat, c: Call)
    requires Inv(s) && id < |s.calls| && CallOk(c, s.now) && c.kind == s.calls[id].kind && c.stage == s.calls[id].stage
    ensures Inv(SetCall(s, id, c))
  {
  }

  /** A request that will never enter the queue. */
  lemma {:induction false} RequestRefused(s: Sys, id: nat, c: Call)
    requires Inv(s) && id < |s.calls| && CallOk(c, s.now) && c.kind == s.calls[id].kind
    requires s.calls[id].stage.New? && c.stage.Refused?
    ensures Inv(SetCall(s, id, c))
  {
  }

  lemma {:induction false} CreateInv(s: Sys, kind: Kind, policy: Policy, limit: Option<nat>)
    requires Inv(s)
    ensures Inv(Create(s, kind, policy, limit))
  {
  }

  lemma {:induction false} AcceptFifo(s: Sys, id: nat, r: Sys)
    requires FifoOk(s) && s.status.Looping? && id < |s.calls| && s.calls[id].stage.New?
    requires r.accepted == s.accepted + [id] && r.queue == s.queue + [id]
    requires r.taken == s.taken && r.dropped == s.dropped
    requires r.status == s.status && |r.calls| == |s.calls| && r.calls[id].stage.Queued?
    requires forall i :: 0 <= i < |s.calls| && i != id ==> r.calls[i] == s.calls[i]
    ensures FifoOk(r)
  {
    assert r.accepted == Ids(r.taken) + r.dropped + r.queue;
  }

  lemma {:induction false} AcceptInv(s: Sys, id: nat)
    requires Inv(s) && id < |s.calls| && s.calls[id].phase.Sending? && s.status.Looping? && |s.queue| < CAPACITY
    ensures Inv(Attempt(s, id))
  {
    AcceptFifo(s, id, Attempt(s, id));
  }

  lemma {:induction false} IdsSnoc(taken: seq<Taken>, t: Taken)
    ensures Ids(taken + [t]) == Ids(taken) + [t.id]
  {
  }

  /** The head of the queue moves to the end of what was taken. */
  lemma {:induction false} HeadMoves(taken: seq<Taken>, t: Taken, queue: seq<nat>)
    requires |queue| > 0 && t.id == queue[0]
    ensures Ids(taken) + [] + queue == Ids(taken + [t]) + [] + queue[1..]
  {
    IdsSnoc(taken, t);
    assert queue == [queue[0]] + queue[1..];
  }

  lemma {:induction false} SkipInv(s: Sys)
    requires Inv(s) && Enabled(s, Take)
    requires var c := s.calls[s.queue[0]]; Skips(c.kind, RespClosed(c), Age(s, s.queue[0]))
    ensures Inv(TakeOne(s))
  {
    var r, id := TakeOne(s), s.queue[0];
    HeadMoves(s.taken, r.taken[|s.taken|], s.queue);
    TakeQueue(s, r, id);
    TakeFifo(s, r, id);
    forall i | 0 <= i < |s.taken|
      ensures s.taken[i].id != id
    {
      TakenNotQueued(s, i);
    }
  }

  lemma {:induction false} ServeInv(s: Sys)
    requires Inv(s) && Enabled(s, Take)
    requires var c := s.calls[s.queue[0]]; !Skips(c.kind, RespClosed(c), Age(s, s.queue[0]))
    ensures Inv(TakeOne(s))
  {
    var r, id := TakeOne(s), s.queue[0];
    HeadMoves(s.taken, r.taken[|s.taken|], s.queue);
    TakeQueue(s, r, id);
    TakeFifo(s, r, id);
  }

  /** The queue after its head `id` was taken. */
  lemma {:induction false} TakeQueue(s: Sys, r: Sys, id: nat)
    requires QueueOk(s) && Enabled(s, Take) && id == s.queue[0]
    requires r.queue == s.queue[1..] && r.status == s.status && |r.calls| == |s.calls|
    requires forall i :: 0 <= i < |s.calls| && i != id ==> r.calls[i] == s.calls[i]
    requires || (r.serving.None? && r.calls[id].stage == Unanswered(false))
             || (r.serving == Some(id) && r.calls[id].stage.Serving?)
    ensures QueueOk(r)
  {
    forall i | 0 <= i < |r.calls| && r.calls[i].stage.Queued?
      ensures i in r.queue
    {
      assert i in s.queue;
    }
  }

  /** A request found in the order of acceptance was not refused, so the head can be taken. */
  lemma {:induction false} TakeFifo(s: Sys, r: Sys, id: nat)
    requires FifoOk(s) && s.status.Looping? && |s.queue| > 0 && id == s.queue[0]
    requires r.accepted == s.accepted && r.dropped == s.dropped && r.queue == s.queue[1..] && r.status == s.status
    requires |r.taken| == |s.taken| + 1 && r.taken == s.taken + [r.taken[|s.taken|]] && r.taken[|s.taken|].id == id
    requires |r.calls| == |s.calls| && id < |s.calls| && !r.calls[id].stage.New? && !r.calls[id].stage.Refused?
    requires forall i :: 0 <= i < |s.calls| && i != id ==> r.calls[i] == s.calls[i]
    ensures FifoOk(r)
  {
    HeadMoves(s.taken, r.taken[|s.taken|], s.queue);
  }

  /** What the loop's data cannot break. */
  ghost predicate Core(s: Sys) {
    CallsOk(s) && QueueOk(s) && FifoOk(s) && TakenAllOk(s)
  }

  lemma {:induction false} OverCore(s: Sys, l: Locals)
    requires Core(s) && s.status.Looping? && s.serving.Some?
    ensures Core(Over(s, l))
  {
  }

  lemma {:induction false} EndedTaken(s: Sys)
    requires Core(s) && s.status.Looping?
    ensures TakenAllOk(Ended(s))
  {
    forall i | 0 <= i < |s.taken|
      ensures s.calls[s.taken[i].id].stage != Queued
    {
      TakenNotQueued(s, i);
    }
  }

  lemma {:induction false} EndedCore(s: Sys)
    requires Core(s) && s.status.Looping? && s.serving.None?
    ensures Core(Ended(s))
  {
    EndedTaken(s);
    assert Ids(s.taken) + [] + s.queue == Ids(s.taken) + s.queue + [];
  }

  lemma {:induction false} FinishInv(s: Sys, open: OpenResult)
    requires Inv(s) && Enabled(s, Finish(open))
    ensures Inv(Complete(s, open))
  {
    var k := s.calls[s.serving.value].kind;
    var l := Handle(s.locals, k, open);
    HandleConsistent(s.locals, k, open);
    OverCore(s, l);
    if k.Shutdown? {
      EndedCore(Over(s, l));
    }
  }

  lemma {:induction false} TakenNotQueued(s: Sys, i: nat)
    requires FifoOk(s) && s.status.Looping? && i < |s.taken|
    ensures s.taken[i].id !in s.queue
  {
    var t, q := Ids(s.taken), s.queue;
    assert s.accepted == t + q;
    forall j | 0 <= j < |q|
      ensures q[j] != t[i]
    {
      assert s.accepted[i] == t[i] && s.accepted[|t| + j] == q[j];
    }
  }

  lemma {:induction false} DisconnectInv(s: Sys)
    requires Inv(s) && Enabled(s, Disconnect)
    ensures Inv(Apply(s, Disconnect))
  {
    DisconnectedEarly(s.locals);
  }

  lemma {:induction false} AttemptInv(s: Sys, id: nat)
    requires Inv(s) && Enabled(s, TrySend(id))
    ensures Inv(Attempt(s, id))
  {
    var c := s.calls[id];
    if !s.status.Looping? {
      RequestRefused(s, id, c.(phase := Done(WorkerClosed), stage := Refused));
    } else if |s.queue| < CAPACITY {
      AcceptInv(s, id);
    } else if GivesUp(c.policy, Age(s, id)) {
      RequestRefused(s, id, c.(phase := Done(Busy), stage := Refused));
    }
  }

  lemma {:induction false} AbortInv(s: Sys, id: nat)
    requires Inv(s) && Enabled(s, Cancel(id))
    ensures Inv(Abort(s, id))
  {
    var c := s.calls[id];
    if c.stage.New? {
      RequestRefused(s, id, c.(phase := Gone, stage := Refused));
    } else {
      CallerMoves(s, id, c.(phase := Gone));
    }
  }

  /** Every step of every party keeps the invariant. */
  lemma {:induction false} StepInv(s: Sys, t: Step)
    requires Inv(s) && Enabled(s, t)
    ensures Inv(Apply(s, t))
  {
    match t
    case Tick =>
    case Clone =>
    case DropHandle =>
    case Start(kind, policy, limit) => CreateInv(s, kind, policy, limit);
    case TrySend(id) => AttemptInv(s, id);
    case Cancel(id) => AbortInv(s, id);
    case Expire(id) => CallerMoves(s, id, s.calls[id].(phase := Done(Timeout)));
    case Collect(id) => CallerMoves(s, id, s.calls[id].(phase := Done(Reply)));
    case SeeClosed(id) => CallerMoves(s, id, s.calls[id].(phase := Done(WorkerClosed)));
    case Take =>
      var c := s.calls[s.queue[0]];
      if Skips(c.kind, RespClosed(c), Age(s, s.queue[0])) {
        SkipInv(s);
      } else {
        ServeInv(s);
      }
    case Finish(open) => FinishInv(s, open);
    case Disconnect => DisconnectInv(s);
  }
}
