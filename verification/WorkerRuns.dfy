/** What holds over whole runs of the worker protocol. */
module WorkerRuns {
  import opened WorkerLoop
  import opened WorkerProtocol
  import opened Options

  ghost predicate Next(s: Sys, s': Sys) {
    exists t :: Enabled(s, t) && s' == Apply(s, t)
  }

  ghost predicate Moves(r: seq<Sys>, k: nat)
    requires k + 1 < |r|
  {
    Next(r[k], r[k + 1])
  }

  /** A run: any interleaving of steps, from the start. */
  ghost predicate IsRun(h: nat, r: seq<Sys>) {
    && |r| > 0 && r[0] == Init(h)
    && forall k: nat :: k + 1 < |r| ==> Moves(r, k)
  }

  lemma {:induction false} InitInv(h: nat)
    ensures Inv(Init(h))
  {
  }

  lemma {:induction false} RunInv(h: nat, r: seq<Sys>, k: nat)
    requires IsRun(h, r) && k < |r|
    ensures Inv(r[k])
  {
    if k == 0 {
      InitInv(h);
    } else {
      RunInv(h, r, k - 1);
      assert Moves(r, k - 1);
      var t :| Enabled(r[k - 1], t) && r[k] == Apply(r[k - 1], t);
      StepInv(r[k - 1], t);
    }
  }

  // ---------------------------------------------------------------- outcomes are final

  /** What a call cannot take back. */
  predicate Later(c: Call, c': Call) {
    && c'.kind == c.kind && (c.phase.Done? ==> c'.phase == c.phase) && (c.stage.Refused? ==> c'.stage.Refused?)
  }

  lemma {:induction false} StepLater(s: Sys, t: Step, id: nat)
    requires Inv(s) && Enabled(s, t) && id < |s.calls|
    ensures id < |Apply(s, t).calls| && Later(s.calls[id], Apply(s, t).calls[id])
  {
    match t
    case Take => assert s.calls[s.queue[0]].stage.Queued?;
    case Finish(open) =>
    case _ =>
  }

  lemma {:induction false} LaterAt(h: nat, r: seq<Sys>, k: nat, id: nat)
    requires IsRun(h, r) && k + 1 < |r| && id < |r[k].calls|
    ensures id < |r[k + 1].calls| && Later(r[k].calls[id], r[k + 1].calls[id])
  {
    RunInv(h, r, k);
    assert Moves(r, k);
    var t :| Enabled(r[k], t) && r[k + 1] == Apply(r[k], t);
    StepLater(r[k], t, id);
  }

  lemma {:induction false} RunLater(h: nat, r: seq<Sys>, i: nat, j: nat, id: nat)
    requires IsRun(h, r) && i <= j < |r| && id < |r[i].calls|
    ensures id < |r[j].calls| && Later(r[i].calls[id], r[j].calls[id])
    decreases j - i
  {
    if i < j {
      RunLater(h, r, i, j - 1, id);
      LaterAt(h, r, j - 1, id);
      LaterTrans(r[i].calls[id], r[j - 1].calls[id], r[j].calls[id]);
    }
  }

  lemma {:induction false} LaterTrans(a: Call, b: Call, c: Call)
    requires Later(a, b) && Later(b, c)
    ensures Later(a, c)
  {
  }

  /** A call has at most one outcome: once it has one it keeps it. */
  lemma {:induction false} OneOutcome(h: nat, r: seq<Sys>, i: nat, j: nat, id: nat)
    requires IsRun(h, r) && i < |r| && j < |r| && id < |r[i].calls| && id < |r[j].calls|
    requires r[i].calls[id].phase.Done? && r[j].calls[id].phase.Done?
    ensures r[i].calls[id].phase == r[j].calls[id].phase
  {
    if i <= j {
      RunLater(h, r, i, j, id);
    } else {
      RunLater(h, r, j, i, id);
    }
  }

  // ---------------------------------------------------------------- queue order

  lemma {:induction false} StepAccepted(s: Sys, t: Step)
    requires Enabled(s, t)
    ensures s.accepted <= Apply(s, t).accepted
  {
  }

  lemma {:induction false} RunAccepted(h: nat, r: seq<Sys>, i: nat, j: nat)
    requires IsRun(h, r) && i <= j < |r|
    ensures r[i].accepted <= r[j].accepted
    decreases j - i
  {
    if i < j {
      RunAccepted(h, r, i, j - 1);
      assert Moves(r, j - 1);
      var t :| Enabled(r[j - 1], t) && r[j] == Apply(r[j - 1], t);
      StepAccepted(r[j - 1], t);
    }
  }

  lemma {:induction false} TakenFirst(s: Sys)
    requires FifoOk(s)
    ensures Ids(s.taken) <= s.accepted
  {
    assert s.accepted == Ids(s.taken) + (s.dropped + s.queue);
  }

  /** First in, first out, over the whole run: what has been taken at any time is a prefix of what has
      been accepted at any later time, and no request is taken twice. */
  lemma {:induction false} FirstInFirstOut(h: nat, r: seq<Sys>, i: nat, j: nat)
    requires IsRun(h, r) && i <= j < |r|
    ensures Ids(r[i].taken) <= r[j].accepted
    ensures forall a, b :: 0 <= a < b < |r[i].taken| ==> r[i].taken[a].id != r[i].taken[b].id
  {
    RunInv(h, r, i);
    RunAccepted(h, r, i, j);
    var s := r[i];
    TakenFirst(s);
    forall a, b | 0 <= a < b < |s.taken|
      ensures s.taken[a].id != s.taken[b].id
    {
      assert s.accepted[a] == Ids(s.taken)[a] && s.accepted[b] == Ids(s.taken)[b];
    }
  }

  lemma {:induction false} NotTaken(h: nat, r: seq<Sys>, j: nat, id: nat)
    requires IsRun(h, r) && j < |r| && id !in r[j].accepted
    ensures id !in Ids(r[j].taken)
  {
    RunInv(h, r, j);
    TakenFirst(r[j]);
  }

  lemma {:induction false} BusyRefused(h: nat, r: seq<Sys>, k: nat, id: nat)
    requires IsRun(h, r) && k < |r| && id < |r[k].calls| && r[k].calls[id].phase == Done(Busy)
    ensures id !in r[k].accepted
  {
    RunInv(h, r, k);
  }

  /** A request refused as Busy is never accepted, let alone taken, at any time of the run. */
  lemma {:induction false} BusyNeverTaken(h: nat, r: seq<Sys>, i: nat, j: nat, id: nat)
    requires IsRun(h, r) && i < |r| && j < |r| && id < |r[i].calls| && r[i].calls[id].phase == Done(Busy)
    ensures id !in r[j].accepted && id !in Ids(r[j].taken)
  {
    var k := if i <= j then j else i;
    RunLater(h, r, i, k, id);
    BusyRefused(h, r, k, id);
    RunAccepted(h, r, j, k);
    NotTaken(h, r, j, id);
  }

  // ---------------------------------------------------------------- skipping

  /** Close and Shutdown are never skipped; an Open or another request is skipped exactly if its caller was gone
      when it was taken or it was more than 120 seconds old. */
  lemma {:induction false} ServedOrSkipped(h: nat, r: seq<Sys>, k: nat, i: nat)
    requires IsRun(h, r) && k < |r| && i < |r[k].taken|
    ensures var t := r[k].taken[i];
            && (t.kind.Close? || t.kind.Shutdown? ==> t.verdict == Served)
            && (t.kind.Open? || t.kind.Tool? ==> (t.verdict == Skipped <==> !t.live || t.age > 120_000))
            && t.id < |r[k].calls| && r[k].calls[t.id].kind == t.kind
  {
    RunInv(h, r, k);
  }

  /** `live` and `age` are those of the moment the request was taken. */
  lemma {:induction false} TakenAsSeen(s: Sys)
    requires Inv(s) && Enabled(s, Take)
    ensures var id, r := s.queue[0], Apply(s, Take);
            && |r.taken| == |s.taken| + 1
            && r.taken[|s.taken|].id == id && r.taken[|s.taken|].kind == s.calls[id].kind
            && (r.taken[|s.taken|].live <==> s.calls[id].phase.Waiting? || s.calls[id].kind.Shutdown?)
            && r.taken[|s.taken|].age == s.now - s.calls[id].born
  {
  }

  /** A call that ends in WorkerClosed was not served. */
  lemma {:induction false} ClosedNotServed(h: nat, r: seq<Sys>, k: nat, id: nat, i: nat)
    requires IsRun(h, r) && k < |r| && id < |r[k].calls| && r[k].calls[id].phase == Done(WorkerClosed)
    requires i < |r[k].taken| && r[k].taken[i].id == id
    ensures r[k].taken[i].verdict == Skipped
  {
    RunInv(h, r, k);
    var s := r[k];
    assert s.accepted[i] == Ids(s.taken)[i] == id;
  }

  ghost predicate ServedIn(taken: seq<Taken>, id: nat) {
    exists i :: 0 <= i < |taken| && taken[i].id == id && taken[i].verdict == Served
  }

  predicate WasServed(c: Call) {
    c.stage.Serving? || c.stage.Answered? || c.stage == Unanswered(true)
  }

  ghost predicate AnswersServed(s: Sys) {
    forall id :: 0 <= id < |s.calls| && WasServed(s.calls[id]) ==> ServedIn(s.taken, id)
  }

  lemma {:induction false} ServedGrows(taken: seq<Taken>, t: Taken, id: nat)
    requires ServedIn(taken, id) || (t.id == id && t.verdict == Served)
    ensures ServedIn(taken + [t], id)
  {
    if ServedIn(taken, id) {
      var i :| 0 <= i < |taken| && taken[i].id == id && taken[i].verdict == Served;
      assert (taken + [t])[i] == taken[i];
    } else {
      assert (taken + [t])[|taken|] == t;
    }
  }

  lemma {:induction false} TakeAnswers(s: Sys)
    requires AnswersServed(s) && Enabled(s, Take)
    ensures AnswersServed(TakeOne(s))
  {
    var r := TakeOne(s);
    var t := r.taken[|s.taken|];
    forall id | 0 <= id < |r.calls| && WasServed(r.calls[id])
      ensures ServedIn(r.taken, id)
    {
      assert r.taken == s.taken + [t];
      ServedGrows(s.taken, t, id);
    }
  }

  lemma {:induction false} StepAnswers(s: Sys, t: Step)
    requires Inv(s) && AnswersServed(s) && Enabled(s, t)
    ensures AnswersServed(Apply(s, t))
  {
    if t.Take? {
      TakeAnswers(s);
    } else {
      var r := Apply(s, t);
      forall id | 0 <= id < |r.calls| && WasServed(r.calls[id])
        ensures ServedIn(r.taken, id)
      {
        ServedBefore(s, t, r, id);
      }
    }
  }

  lemma {:induction false} ServedBefore(s: Sys, t: Step, r: Sys, id: nat)
    requires Inv(s) && Enabled(s, t) && !t.Take? && r == Apply(s, t) && id < |r.calls| && WasServed(r.calls[id])
    ensures r.taken == s.taken && id < |s.calls| && WasServed(s.calls[id])
  {
  }

  lemma {:induction false} RunAnswers(h: nat, r: seq<Sys>, k: nat)
    requires IsRun(h, r) && k < |r|
    ensures AnswersServed(r[k])
  {
    if k > 0 {
      RunAnswers(h, r, k - 1);
      RunInv(h, r, k - 1);
      assert Moves(r, k - 1);
      var t :| Enabled(r[k - 1], t) && r[k] == Apply(r[k - 1], t);
      StepAnswers(r[k - 1], t);
    }
  }

  /** A call that ends in a reply was served. */
  lemma {:induction false} ReplyWasServed(h: nat, r: seq<Sys>, k: nat, id: nat)
    requires IsRun(h, r) && k < |r| && id < |r[k].calls| && r[k].calls[id].phase == Done(Reply)
    ensures ServedIn(r[k].taken, id)
  {
    RunInv(h, r, k);
    RunAnswers(h, r, k);
  }

  // ---------------------------------------------------------------- database and lock

  /** Until the loop ends, and when it ends with Shutdown, the lock was never given up while a database
      was open; when every handle is dropped first, it was, exactly if the lock file is left on disk. */
  lemma {:induction false} LockAfterDb(h: nat, r: seq<Sys>, k: nat)
    requires IsRun(h, r) && k < |r|
    ensures var p := ReplayOf(r[k].locals.log);
            && (!r[k].status.Abandoned? ==> !p.early)
            && (r[k].status.Abandoned? ==> (p.early <==> p.onDisk))
            && (r[k].status.Shut? ==> !p.db && !p.lock && !p.onDisk)
  {
    RunInv(h, r, k);
  }

  /** Which is exactly if a database was open. */
  lemma {:induction false} AbandonedEarly(s: Sys)
    requires Inv(s) && Enabled(s, Disconnect)
    ensures ReplayOf(Apply(s, Disconnect).locals.log).early <==> s.locals.idb.Some?
  {
    DisconnectedEarly(s.locals);
  }

  lemma {:induction false} RunSnoc(h: nat, r: seq<Sys>, t: Step)
    requires IsRun(h, r) && Enabled(r[|r| - 1], t)
    ensures IsRun(h, r + [Apply(r[|r| - 1], t)])
  {
    var s := r + [Apply(r[|r| - 1], t)];
    forall k: nat | k + 1 < |s|
      ensures Moves(s, k)
    {
      if k + 1 < |r| {
        assert Moves(r, k);
      } else {
        assert Enabled(s[k], t) && s[k + 1] == Apply(s[k], t);
      }
    }
  }

  /** The only call of a run: an open request. */
  function OpenCall(path: string, phase: Phase, stage: Stage): (c: Call) {
    Call(Open(path), Once, None, 0, 0, phase, stage)
  }

  lemma {:induction false} SentRun(path: string) returns (r: seq<Sys>)
    ensures IsRun(1, r)
    ensures r[|r| - 1] == Sys(0, [OpenCall(path, Waiting, Queued)], [0], None, Looping, 1, FRESH, [0], [], [])
  {
    r := [Init(1)];
    var t := Start(Open(path), Once, None);
    RunSnoc(1, r, t);
    r := r + [Apply(r[0], t)];
    RunSnoc(1, r, TrySend(0));
    r := r + [Apply(r[1], TrySend(0))];
  }

  lemma {:induction false} TakenRun(path: string) returns (r: seq<Sys>)
    ensures IsRun(1, r)
    ensures r[|r| - 1] == Sys(0, [OpenCall(path, Waiting, Serving)], [], Some(0), Looping, 1, FRESH.(lib := true), [0],
                              [Taken(0, Open(path), Served, true, 0)], [])
  {
    r := SentRun(path);
    RunSnoc(1, r, Take);
    r := r + [Apply(r[|r| - 1], Take)];
  }

  /** A run with one handle in which a database is opened for a caller that gets its reply. */
  lemma {:induction false} OpenedRun(path: string, db: string) returns (r: seq<Sys>)
    ensures IsRun(1, r)
    ensures var s := r[|r| - 1];
            && s.status.Looping? && s.serving.None? && s.queue == [] && s.handles == 1 && s.locals.idb == Some(db)
            && s.calls == [OpenCall(path, Done(Reply), Answered)]
  {
    r := TakenRun(path);
    RunSnoc(1, r, Finish(Opened(db)));
    r := r + [Apply(r[|r| - 1], Finish(Opened(db)))];
    RunSnoc(1, r, Collect(0));
    r := r + [Apply(r[|r| - 1], Collect(0))];
  }

  /** It can go on to the early release: the handle is dropped, and the loop gives up the lock before it
      drops the database and leaves the lock file on disk. */
  lemma {:induction false} AbandonedRun(path: string, db: string) returns (r: seq<Sys>)
    ensures IsRun(1, r) && r[|r| - 1].status.Abandoned?
    ensures var p := ReplayOf(r[|r| - 1].locals.log); p.early && p.onDisk
  {
    r := OpenedRun(path, db);
    var s := r[|r| - 1];
    RunSnoc(1, r, DropHandle);
    r := r + [Apply(s, DropHandle)];
    s := r[|r| - 1];
    RunInv(1, r, |r| - 1);
    AbandonedEarly(s);
    RunSnoc(1, r, Disconnect);
    r := r + [Apply(s, Disconnect)];
    LockAfterDb(1, r, |r| - 1);
  }

  // ---------------------------------------------------------------- after Shutdown

  /** A call that can no longer be answered: it is unfinished or ends in WorkerClosed or its timeout. */
  predicate Doomed(c: Call) {
    && (c.stage.New? || c.stage.Refused? || c.stage == Unanswered(false))
    && (Active(c) || c.phase.Gone? || c.phase == Done(WorkerClosed) || c.phase == Done(Timeout))
  }

  /** From `a` to `b` nothing is taken or accepted, and no doomed or new call is answered. */
  ghost predicate StaysShut(a: Sys, b: Sys) {
    && b.status.Shut? && b.taken == a.taken && b.accepted == a.accepted
    && b.locals == a.locals && |a.calls| <= |b.calls|
    && forall id :: 0 <= id < |b.calls| && (id < |a.calls| ==> Doomed(a.calls[id])) ==> Doomed(b.calls[id])
  }

  lemma {:induction false} ShutStep(s: Sys, t: Step)
    requires Inv(s) && Enabled(s, t) && s.status.Shut?
    ensures StaysShut(s, Apply(s, t))
  {
  }

  lemma {:induction false} StaysTrans(a: Sys, b: Sys, c: Sys)
    requires StaysShut(a, b) && StaysShut(b, c)
    ensures StaysShut(a, c)
  {
  }

  lemma {:induction false} ShutAt(h: nat, r: seq<Sys>, k: nat)
    requires IsRun(h, r) && k + 1 < |r| && r[k].status.Shut?
    ensures StaysShut(r[k], r[k + 1])
  {
    RunInv(h, r, k);
    assert Moves(r, k);
    var t :| Enabled(r[k], t) && r[k + 1] == Apply(r[k], t);
    ShutStep(r[k], t);
  }

  lemma {:induction false} RunStaysShut(h: nat, r: seq<Sys>, i: nat, j: nat)
    requires IsRun(h, r) && i <= j < |r| && r[i].status.Shut?
    ensures StaysShut(r[i], r[j])
    decreases j - i
  {
    if i < j {
      RunStaysShut(h, r, i, j - 1);
      ShutAt(h, r, j - 1);
      StaysTrans(r[i], r[j - 1], r[j]);
    }
  }

  /** After Shutdown: no database, no lock, nothing is taken or accepted any more; a call that was not
      answered by then, and every later call, can only end in WorkerClosed or its own timeout. */
  lemma {:induction false} AfterShutdown(h: nat, r: seq<Sys>, i: nat, j: nat)
    requires IsRun(h, r) && i <= j < |r| && r[i].status.Shut?
    ensures StaysShut(r[i], r[j])
    ensures r[j].locals.idb.None? && !r[j].locals.lockFile && r[j].queue == [] && r[j].serving.None?
  {
    RunStaysShut(h, r, i, j);
    RunInv(h, r, j);
  }

  /** At the moment of Shutdown every queued or not yet sent call that is unfinished is doomed. */
  lemma {:induction false} ShutdownDooms(s: Sys, open: OpenResult, id: nat)
    requires Inv(s) && Enabled(s, Finish(open)) && s.calls[s.serving.value].kind.Shutdown?
    requires id < |s.calls| && Active(s.calls[id]) && (s.calls[id].stage.Queued? || s.calls[id].stage.New?)
    ensures Apply(s, Finish(open)).status.Shut? && Doomed(Apply(s, Finish(open)).calls[id])
  {
  }

  /** A doomed call that is unfinished has a step that ends it in WorkerClosed. */
  lemma {:induction false} DoomedEnds(s: Sys, id: nat)
    requires Inv(s) && s.status.Shut? && id < |s.calls| && Doomed(s.calls[id]) && Active(s.calls[id])
    ensures var t := if s.calls[id].phase.Sending? then TrySend(id) else SeeClosed(id);
            Enabled(s, t) && Apply(s, t).calls[id].phase == Done(WorkerClosed)
  {
  }

  // ---------------------------------------------------------------- outcomes by kind of request

  /** What the kind of a request says about its call: only tools have a time limit, of at most 600 seconds, and
      time out, and only when it has passed; Shutdown never gives up sending, and Close only after 5 seconds. */
  predicate KindOk(c: Call, now: nat) {
    && (c.limit.Some? ==> c.kind.Tool? && c.limit.value <= 600)
    && (c.phase == Done(Timeout) ==> c.kind.Tool? && c.limit.Some? && now >= c.sent + 1000 * c.limit.value)
    && (c.kind.Shutdown? ==> c.phase != Done(Reply))
    && (c.phase == Done(Busy) ==> !c.kind.Shutdown? && (c.kind.Close? ==> now >= c.born + 5000))
    && (c.policy.Once? <==> c.kind.Open? || c.kind.Tool?)
    && (c.policy.Retry? && c.policy.max.Some? ==> c.kind.Close? && c.policy.max.value == 5000)
  }

  ghost predicate KindsOk(s: Sys) {
    forall i :: 0 <= i < |s.calls| ==> KindOk(s.calls[i], s.now)
  }

  /** A call that only its request's side moved. */
  predicate RequestMoved(c: Call, c': Call) {
    c' == c.(stage := c'.stage)
  }

  lemma {:induction false} LoopMoves(s: Sys, t: Step, id: nat)
    requires Enabled(s, t) && id < |s.calls| && (t.Take? || t.Finish?)
    ensures id < |Apply(s, t).calls| && RequestMoved(s.calls[id], Apply(s, t).calls[id])
  {
  }

  lemma {:induction false} CallerKind(s: Sys, t: Step, id: nat)
    requires Enabled(s, t) && id < |s.calls| && !t.Take? && !t.Finish?
    requires CallOk(s.calls[id], s.now) && KindOk(s.calls[id], s.now)
    ensures id < |Apply(s, t).calls| && KindOk(Apply(s, t).calls[id], Apply(s, t).now)
  {
  }

  lemma {:induction false} StepKinds(s: Sys, t: Step)
    requires Inv(s) && KindsOk(s) && Enabled(s, t)
    ensures KindsOk(Apply(s, t))
  {
    var r := Apply(s, t);
    forall id | 0 <= id < |r.calls|
      ensures KindOk(r.calls[id], r.now)
    {
      if id < |s.calls| {
        assert CallOk(s.calls[id], s.now) && KindOk(s.calls[id], s.now);
        if t.Take? || t.Finish? {
          LoopMoves(s, t, id);
        } else {
          CallerKind(s, t, id);
        }
      }
    }
  }

  lemma {:induction false} RunKinds(h: nat, r: seq<Sys>, k: nat)
    requires IsRun(h, r) && k < |r|
    ensures KindsOk(r[k])
  {
    if k > 0 {
      RunKinds(h, r, k - 1);
      RunInv(h, r, k - 1);
      assert Moves(r, k - 1);
      var t :| Enabled(r[k - 1], t) && r[k] == Apply(r[k - 1], t);
      StepKinds(r[k - 1], t);
    }
  }

  /** In every run: Shutdown ends as sent or with the worker closed, Close and Open never time out, and a tool call
      that times out has waited for its limit. */
  lemma {:induction false} OutcomeByKind(h: nat, r: seq<Sys>, k: nat, id: nat)
    requires IsRun(h, r) && k < |r| && id < |r[k].calls| && r[k].calls[id].phase.Done?
    ensures var c := r[k].calls[id];
            && (c.kind.Shutdown? ==> c.phase.out == Sent || c.phase.out == WorkerClosed)
            && (c.phase.out == Timeout ==>
                  c.kind.Tool? && c.limit.Some? && r[k].now >= c.sent + 1000 * c.limit.value)
            && (c.phase.out == Busy && c.kind.Close? ==> r[k].now >= c.born + 5000)
  {
    RunInv(h, r, k);
    RunKinds(h, r, k);
    assert CallOk(r[k].calls[id], r[k].now) && KindOk(r[k].calls[id], r[k].now);
  }

  /** With the queue full, an attempt ends Busy at once for Open and tools, after 5 seconds for a Close with that
      limit, and otherwise leaves the call to try again. */
  lemma {:induction false} AttemptFull(s: Sys, id: nat)
    requires Inv(s) && KindsOk(s) && Enabled(s, TrySend(id)) && s.status.Looping? && |s.queue| == 64
    ensures var c, s' := s.calls[id], Attempt(s, id);
            var ends := c.kind.Open? || c.kind.Tool? || (c.policy == Retry(Some(5000)) && s.now >= c.born + 5000);
            if ends then s'.calls[id].phase == Done(Busy) && s'.queue == s.queue else s' == s
  {
    assert CallOk(s.calls[id], s.now) && KindOk(s.calls[id], s.now);
  }

  // ---------------------------------------------------------------- handles

  /** A caller that is not finished holds a handle, and an abandoned loop has none left. */
  ghost predicate HandlesOk(s: Sys) {
    && (forall i :: 0 <= i < |s.calls| && Active(s.calls[i]) ==> s.handles > 0)
    && (s.status.Abandoned? ==> s.handles == 0)
  }

  lemma {:induction false} StepHandles(s: Sys, t: Step)
    requires HandlesOk(s) && Inv(s) && Enabled(s, t)
    ensures HandlesOk(Apply(s, t))
  {
    var r := Apply(s, t);
    forall i | 0 <= i < |r.calls| && Active(r.calls[i])
      ensures r.handles > 0
    {
      if i < |s.calls| {
        assert Active(s.calls[i]) by {
          StepLater(s, t, i);
          StillActive(s, t, i);
        }
      }
    }
  }

  lemma {:induction false} StillActive(s: Sys, t: Step, i: nat)
    requires Enabled(s, t) && i < |s.calls| && i < |Apply(s, t).calls| && Active(Apply(s, t).calls[i])
    ensures Active(s.calls[i])
  {
  }

  /** The loop ends for want of handles only when no caller is left sending or waiting. */
  lemma {:induction false} NoCallerAbandoned(h: nat, r: seq<Sys>, k: nat)
    requires IsRun(h, r) && k < |r|
    ensures HandlesOk(r[k])
    ensures r[k].status.Abandoned? ==> forall i :: 0 <= i < |r[k].calls| ==> !Active(r[k].calls[i])
  {
    if k > 0 {
      NoCallerAbandoned(h, r, k - 1);
      RunInv(h, r, k - 1);
      assert Moves(r, k - 1);
      var t :| Enabled(r[k - 1], t) && r[k] == Apply(r[k - 1], t);
      StepHandles(r[k - 1], t);
    }
  }

  // ---------------------------------------------------------------- sending

  /** What one `try_send` finds, and when. */
  datatype Try = Try(now: nat, seen: Found)

  datatype Found = Room | Full | Gone

  /** The outcome of one attempt, or none if it is to be repeated. */
  function Conclude(policy: Policy, start: nat, t: Try): (r: Option<Outcome>) {
    match t.seen
    case Room => Some(Sent)
    case Gone => Some(WorkerClosed)
    case Full => if GivesUp(policy, if t.now >= start then t.now - start else 0) then Some(Busy) else None
  }

  /** `send_with_retry`, for as many attempts as are given: the first conclusive attempt decides. */
  method SendWithRetry(max: Option<nat>, start: nat, tries: seq<Try>) returns (r: Option<Outcome>, n: nat)
    ensures n <= |tries|
    ensures forall i :: 0 <= i < n ==> Conclude(Retry(max), start, tries[i]).None?
    ensures if n < |tries| then r.Some? && r == Conclude(Retry(max), start, tries[n]) else r.None?
    ensures forall i :: 0 <= i < n ==> tries[i].seen.Full? && (max.Some? ==> tries[i].now < start + max.value)
    ensures n < |tries| ==>
      match tries[n].seen
      case Room => r == Some(Sent)
      case Gone => r == Some(WorkerClosed)
      case Full => r == Some(Busy) && max.Some? && (tries[n].now >= start + max.value || max.value == 0)
  {
    n := 0;
    while n < |tries|
      invariant n <= |tries|
      invariant forall i :: 0 <= i < n ==> Conclude(Retry(max), start, tries[i]).None?
    {
      match tries[n].seen {
        case Room => return Some(Sent), n;
        case Gone => return Some(WorkerClosed), n;
        case Full =>
          var elapsed := if tries[n].now >= start then tries[n].now - start else 0;
          if max.Some? && elapsed >= max.value {
            return Some(Busy), n;
          }
      }
      n := n + 1;
    }
    r := None;
  }

  /** What an attempt finds in a state of the system. */
  function Find(s: Sys): (t: Try) {
    Try(s.now, if !s.status.Looping? then Found.Gone else if |s.queue| < CAPACITY then Room else Full)
  }

  /** The system's attempts are those of `send_with_retry`. */
  lemma {:induction false} AttemptConcludes(s: Sys, id: nat)
    requires Inv(s) && Enabled(s, TrySend(id))
    ensures var c, o := Attempt(s, id).calls[id], Conclude(s.calls[id].policy, s.calls[id].born, Find(s));
            match o
            case None => Attempt(s, id) == s
            case Some(out) => if out.Sent? then c.stage.Queued? && id in Attempt(s, id).queue else c.phase == Done(out)
  {
  }
}
