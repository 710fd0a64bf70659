/** Concurrent POSTs carrying one Idempotency-Key of one company.

    Every repository call of `intercept` is one atomic step, so requests interleave between
    them. The completion write is not awaited: the reply goes out first and the write is a
    later step. Either trailing write may be lost, since its failure is swallowed. */
module Idempotency {
  import opened Options

  type Request = nat

  /** What a handler emits; `Undefined` is stored as JSON null. */
  datatype Body = Undefined | Json(text: string)

  datatype Response = Response(status: nat, body: Body)

  datatype Record = Pending | Completed(status: nat, body: Body)

  datatype Phase =
    | Arrived | NotFound | Refused
    | Running | Writing(response: Response) | Releasing
    | Finished

  datatype Event =
    | Started(req: Request)
    | Succeeded(req: Request, response: Response)
    | Failed(req: Request)
    | Replayed(req: Request, response: Response)
    | Conflicted(req: Request)

  datatype State = State(record: Option<Record>, phases: map<Request, Phase>, log: seq<Event>)

  datatype Step =
    | Arrive(req: Request)
    | Find(req: Request)
    | Insert(req: Request)
    | FindAgain(req: Request)
    | HandlerOk(req: Request, response: Response)
    | HandlerError(req: Request)
    | Complete(req: Request)
    | CompleteLost(req: Request)
    | Release(req: Request)
    | ReleaseLost(req: Request)

  /** `body ?? null`. */
  function Stored(body: Body): Body {
    if body.Undefined? then Json("null") else body
  }

  /** The status a replay answers with: the stored one, or the framework's 201 when it is 0. */
  function ReplayStatus(status: nat): nat {
    if status != 0 then status else 201
  }

  /** The reply `of(existing.responseBody)` under `res.status(existing.statusCode)`. */
  function Replay(status: nat, body: Body): Response {
    Response(ReplayStatus(status), body)
  }

  predicate At(s: State, r: Request, phase: Phase) {
    r in s.phases && s.phases[r] == phase
  }

  predicate Enabled(s: State, step: Step) {
    match step
    case Arrive(r) => r !in s.phases
    case Find(r) => At(s, r, Arrived)
    case Insert(r) => At(s, r, NotFound)
    case FindAgain(r) => At(s, r, Refused)
    case HandlerOk(r, _) => At(s, r, Running)
    case HandlerError(r) => At(s, r, Running)
    case Complete(r) => r in s.phases && s.phases[r].Writing?
    case CompleteLost(r) => r in s.phases && s.phases[r].Writing?
    case Release(r) => At(s, r, Releasing)
    case ReleaseLost(r) => At(s, r, Releasing)
  }

  function Move(s: State, r: Request, phase: Phase): State {
    s.(phases := s.phases[r := phase])
  }

  function Reply(s: State, r: Request, event: Event): State {
    Move(s, r, Finished).(log := s.log + [event])
  }

  /** Both lookups answer a record the same way; only a missing record tells them apart. */
  function Answer(s: State, r: Request): State
    requires s.record.Some?
  {
    match s.record.value
    case Completed(status, body) => Reply(s, r, Replayed(r, Replay(status, body)))
    case Pending => Reply(s, r, Conflicted(r))
  }

  function Apply(s: State, step: Step): State
    requires Enabled(s, step)
  {
    match step
    case Arrive(r) => Move(s, r, Arrived)
    case Find(r) => if s.record.Some? then Answer(s, r) else Move(s, r, NotFound)
    case Insert(r) =>
      if s.record.Some? then Move(s, r, Refused)
      else Move(s, r, Running).(record := Some(Pending), log := s.log + [Started(r)])
    case FindAgain(r) => if s.record.Some? then Answer(s, r) else Reply(s, r, Conflicted(r))
    case HandlerOk(r, response) => Move(s, r, Writing(response)).(log := s.log + [Succeeded(r, response)])
    case HandlerError(r) => Move(s, r, Releasing).(log := s.log + [Failed(r)])
    case Complete(r) =>
      var response := s.phases[r].response;
      Move(s, r, Finished).(record := if s.record.Some? then Some(Completed(response.status, Stored(response.body)))
                                      else None)
    case CompleteLost(r) => Move(s, r, Finished)
    case Release(r) => Move(s, r, Finished).(record := None)
    case ReleaseLost(r) => Move(s, r, Finished)
  }

  predicate ValidRun(s: State, steps: seq<Step>)
    decreases |steps|
  {
    steps == [] || (Enabled(s, steps[0]) && ValidRun(Apply(s, steps[0]), steps[1..]))
  }

  function RunFrom(s: State, steps: seq<Step>): State
    requires ValidRun(s, steps)
    decreases |steps|
  {
    if steps == [] then s else RunFrom(Apply(s, steps[0]), steps[1..])
  }

  const FRESH := State(None, map[], [])

  // ── What a log of handler runs and replies may look like ──────────────────

  /** Handler runs begun and not yet ended. */
  function Live(log: seq<Event>): int {
    if log == [] then 0
    else
      var rest := Live(log[..|log| - 1]);
      match log[|log| - 1]
      case Started(_) => rest + 1
      case Succeeded(_, _) => rest - 1
      case Failed(_) => rest - 1
      case _ => rest
  }

  predicate OneAtATime(log: seq<Event>) {
    forall i :: 0 <= i <= |log| ==> 0 <= Live(log[..i]) <= 1
  }

  predicate OneSuccess(log: seq<Event>) {
    forall i, j :: 0 <= i < j < |log| && log[i].Succeeded? ==> !log[j].Succeeded?
  }

  predicate NoStartAfterSuccess(log: seq<Event>) {
    forall i, j :: 0 <= i < j < |log| && log[i].Succeeded? ==> !log[j].Started?
  }

  /** A replay repeats the response of a success that came before it. */
  predicate ReplaysRepeat(log: seq<Event>) {
    forall j :: 0 <= j < |log| && log[j].Replayed? ==>
      exists i :: 0 <= i < j && log[i].Succeeded? && RepeatOf(log[j].response, log[i].response)
  }

  predicate RepeatOf(replay: Response, original: Response) {
    replay == Replay(original.status, Stored(original.body))
  }

  predicate Safe(log: seq<Event>) {
    OneAtATime(log) && OneSuccess(log) && NoStartAfterSuccess(log) && ReplaysRepeat(log)
  }

  predicate HasSuccess(log: seq<Event>) {
    exists i :: 0 <= i < |log| && log[i].Succeeded?
  }

  // ── The invariant ─────────────────────────────────────────────────────────

  predicate Owns(phase: Phase) {
    phase.Running? || phase.Writing? || phase.Releasing?
  }

  /** No request but `r` has a handler run or a trailing write outstanding. */
  ghost predicate OnlyOwner(s: State, r: Request) {
    forall q :: q in s.phases && Owns(s.phases[q]) ==> q == r
  }

  ghost predicate NoOwner(s: State) {
    forall q :: q in s.phases ==> !Owns(s.phases[q])
  }

  /** The owner's phase agrees with the log: running, succeeded with that response, or failed. */
  ghost predicate OwnerAgrees(s: State, r: Request)
    requires r in s.phases && Owns(s.phases[r])
  {
    match s.phases[r]
    case Running => Live(s.log) == 1 && !HasSuccess(s.log)
    case Writing(response) => Live(s.log) == 0 && exists i :: 0 <= i < |s.log| && s.log[i] == Succeeded(r, response)
    case _ => Live(s.log) == 0 && !HasSuccess(s.log)
  }

  ghost predicate RecordAgrees(s: State) {
    match s.record
    case None => NoOwner(s) && Live(s.log) == 0 && !HasSuccess(s.log)
    case Some(Completed(status, body)) =>
      NoOwner(s) && Live(s.log) == 0 &&
      exists i :: 0 <= i < |s.log| && s.log[i].Succeeded?
                  && status == s.log[i].response.status && body == Stored(s.log[i].response.body)
    case Some(Pending) =>
      || (NoOwner(s) && Live(s.log) == 0)
      || (exists r :: r in s.phases && Owns(s.phases[r]) && OnlyOwner(s, r) && OwnerAgrees(s, r))
  }

  ghost predicate Inv(s: State) {
    Safe(s.log) && RecordAgrees(s)
  }

  lemma {:induction false} FreshHolds()
    ensures Inv(FRESH)
  {}

  /** How an appended event changes the log facts. */
  lemma {:induction false} Append(log: seq<Event>, e: Event)
    requires Safe(log)
    requires e.Started? ==> Live(log) == 0 && !HasSuccess(log)
    requires e.Succeeded? ==> Live(log) == 1 && !HasSuccess(log)
    requires e.Failed? ==> Live(log) == 1
    requires e.Replayed? ==> exists i :: 0 <= i < |log| && log[i].Succeeded? && RepeatOf(e.response, log[i].response)
    ensures Safe(log + [e])
    ensures Live(log + [e]) == Live(log) + (if e.Started? then 1 else if e.Succeeded? || e.Failed? then -1 else 0)
    ensures HasSuccess(log + [e]) <==> HasSuccess(log) || e.Succeeded?
    ensures forall i :: 0 <= i < |log| ==> (log + [e])[i] == log[i]
  {
    var after := log + [e];
    assert after[..|log|] == log;
    assert log[..|log|] == log;
    forall i | 0 <= i <= |after| ensures 0 <= Live(after[..i]) <= 1 {
      if i <= |log| {
        assert after[..i] == log[..i];
      } else {
        assert after[..i] == after;
      }
    }
    assert after[|log|] == e;
    if HasSuccess(log) {
      var i :| 0 <= i < |log| && log[i].Succeeded?;
      assert after[i].Succeeded?;
    }
    assert ReplaysRepeat(after) by {
      forall j | 0 <= j < |after| && after[j].Replayed?
        ensures exists i :: 0 <= i < j && after[i].Succeeded? && RepeatOf(after[j].response, after[i].response)
      {
        var i :| 0 <= i < |log| && (j < |log| ==> i < j) && log[i].Succeeded?
                 && RepeatOf(after[j].response, log[i].response);
        assert after[i] == log[i];
      }
    }
  }

  /** Leaving the handler's phases or entering none of them keeps everyone's ownership. */
  lemma {:induction false} MoveKeepsInv(s: State, r: Request, phase: Phase)
    requires Inv(s) && !Owns(phase) && (r in s.phases ==> !Owns(s.phases[r]))
    ensures Inv(Move(s, r, phase))
  {
    var after := Move(s, r, phase);
    if s.record == Some(Pending) && !NoOwner(s) {
      var q :| q in s.phases && Owns(s.phases[q]) && OnlyOwner(s, q) && OwnerAgrees(s, q);
      assert q in after.phases && Owns(after.phases[q]) && OnlyOwner(after, q) && OwnerAgrees(after, q);
    }
  }

  lemma {:induction false} ReplyKeepsInv(s: State, r: Request, event: Event)
    requires Inv(s) && (r in s.phases ==> !Owns(s.phases[r]))
    requires event.Conflicted? || (event.Replayed? && s.record.Some? && s.record.value.Completed?
                                   && event.response == Replay(s.record.value.status, s.record.value.body))
    ensures Inv(Reply(s, r, event))
  {
    MoveKeepsInv(s, r, Finished);
    var moved := Move(s, r, Finished);
    Append(s.log, event);
    var after := Reply(s, r, event);
    if s.record == Some(Pending) && !NoOwner(moved) {
      var q :| q in moved.phases && Owns(moved.phases[q]) && OnlyOwner(moved, q) && OwnerAgrees(moved, q);
      if moved.phases[q].Writing? {
        var i :| 0 <= i < |s.log| && s.log[i] == Succeeded(q, moved.phases[q].response);
        assert after.log[i] == s.log[i];
      }
      assert OnlyOwner(after, q) && OwnerAgrees(after, q);
    }
    if s.record.Some? && s.record.value.Completed? {
      var i :| 0 <= i < |s.log| && s.log[i].Succeeded? && s.record.value.status == s.log[i].response.status
               && s.record.value.body == Stored(s.log[i].response.body);
      assert after.log[i] == s.log[i];
    }
  }

  lemma {:induction false} AnswerKeepsInv(s: State, r: Request)
    requires Inv(s) && s.record.Some? && r in s.phases && !Owns(s.phases[r])
    ensures Inv(Answer(s, r))
  {
    match s.record.value
    case Completed(status, body) => ReplyKeepsInv(s, r, Replayed(r, Replay(status, body)));
    case Pending => ReplyKeepsInv(s, r, Conflicted(r));
  }

  lemma {:induction false} InsertKeepsInv(s: State, r: Request)
    requires Inv(s) && Enabled(s, Insert(r))
    ensures Inv(Apply(s, Insert(r)))
  {
    if s.record.Some? {
      MoveKeepsInv(s, r, Refused);
    } else {
      Append(s.log, Started(r));
      var after := Apply(s, Insert(r));
      assert OnlyOwner(after, r) && OwnerAgrees(after, r);
    }
  }

  /** A request with a handler run or a trailing write outstanding is the only one, over a pending record. */
  lemma {:induction false} OwnerIsAlone(s: State, r: Request)
    requires Inv(s) && r in s.phases && Owns(s.phases[r])
    ensures s.record == Some(Pending) && OnlyOwner(s, r) && OwnerAgrees(s, r)
  {}

  lemma {:induction false} HandlerEndKeepsInv(s: State, step: Step)
    requires Inv(s) && Enabled(s, step) && (step.HandlerOk? || step.HandlerError?)
    ensures Inv(Apply(s, step))
  {
    var r, after := step.req, Apply(s, step);
    OwnerIsAlone(s, r);
    var event := if step.HandlerOk? then Succeeded(r, step.response) else Failed(r);
    Append(s.log, event);
    assert after.log[|s.log|] == event;
    assert OnlyOwner(after, r) && OwnerAgrees(after, r);
  }

  lemma {:induction false} TrailingWriteKeepsInv(s: State, step: Step)
    requires Inv(s) && Enabled(s, step)
    requires step.Complete? || step.CompleteLost? || step.Release? || step.ReleaseLost?
    ensures Inv(Apply(s, step))
  {
    OwnerIsAlone(s, step.req);
    assert NoOwner(Apply(s, step));
  }

  lemma {:induction false} StepKeepsInv(s: State, step: Step)
    requires Inv(s) && Enabled(s, step)
    ensures Inv(Apply(s, step))
  {
    match step
    case Arrive(r) => MoveKeepsInv(s, r, Arrived);
    case Find(r) =>
      if s.record.Some? { AnswerKeepsInv(s, r); } else { MoveKeepsInv(s, r, NotFound); }
    case Insert(r) => InsertKeepsInv(s, r);
    case FindAgain(r) =>
      if s.record.Some? { AnswerKeepsInv(s, r); } else { ReplyKeepsInv(s, r, Conflicted(r)); }
    case HandlerOk(_, _) => HandlerEndKeepsInv(s, step);
    case HandlerError(_) => HandlerEndKeepsInv(s, step);
    case Complete(_) => TrailingWriteKeepsInv(s, step);
    case CompleteLost(_) => TrailingWriteKeepsInv(s, step);
    case Release(_) => TrailingWriteKeepsInv(s, step);
    case ReleaseLost(_) => TrailingWriteKeepsInv(s, step);
  }

  lemma {:induction false} RunKeepsInv(s: State, steps: seq<Step>)
    requires Inv(s) && ValidRun(s, steps)
    ensures Inv(RunFrom(s, steps))
    decreases |steps|
  {
    if steps != [] {
      StepKeepsInv(s, steps[0]);
      RunKeepsInv(Apply(s, steps[0]), steps[1..]);
    }
  }

  // ── What every interleaving guarantees ────────────────────────────────────

  /** In every interleaving: one handler run at a time, at most one success ever, no run started
      after a success, and every replay repeats the success's status and stored body. */
  lemma {:induction false} NeverPostsTwice(steps: seq<Step>)
    requires ValidRun(FRESH, steps)
    ensures var log := RunFrom(FRESH, steps).log;
            && (forall i :: 0 <= i <= |log| ==> 0 <= Live(log[..i]) <= 1)
            && (forall i, j :: 0 <= i < j < |log| && log[i].Succeeded? ==> !log[j].Succeeded? && !log[j].Started?)
            && (forall j :: 0 <= j < |log| && log[j].Replayed? ==>
                  exists i :: 0 <= i < j && log[i].Succeeded? && RepeatOf(log[j].response, log[i].response))
  {
    FreshHolds();
    RunKeepsInv(FRESH, steps);
  }

  /** A replay is the original response exactly when the handler's body was defined and its status
      was not 0. */
  lemma {:induction false} ReplayIsExact(original: Response)
    ensures Replay(original.status, Stored(original.body)) == original
            <==> original.body.Json? && original.status != 0
  {}

  /** Once the completion write lands the key is settled: whatever runs afterwards, no handler starts
      and every answer given is a replay of that response. */
  lemma {:induction false} CompletedIsForever(s: State, steps: seq<Step>)
    requires Inv(s) && s.record.Some? && s.record.value.Completed? && ValidRun(s, steps)
    ensures var after := RunFrom(s, steps);
            && after.record == s.record
            && |s.log| <= |after.log| && after.log[..|s.log|] == s.log
            && forall j :: |s.log| <= j < |after.log| ==>
                 && after.log[j].Replayed?
                 && after.log[j].response == Replay(s.record.value.status, s.record.value.body)
    decreases |steps|
  {
    if steps != [] {
      StepKeepsInv(s, steps[0]);
      assert s.record == Apply(s, steps[0]).record;
      CompletedIsForever(Apply(s, steps[0]), steps[1..]);
    }
  }

  /** The completion write stores the answer that went out, so whatever runs afterwards is answered with
      that status, or 201 for a status of 0, and that body, or null for an undefined one: with the very
      same response, unless it was one of these. */
  lemma {:induction false} RetryGetsTheAnswer(steps: seq<Step>, r: Request, later: seq<Step>)
    requires ValidRun(FRESH, steps) && Enabled(RunFrom(FRESH, steps), Complete(r))
    requires ValidRun(Apply(RunFrom(FRESH, steps), Complete(r)), later)
    ensures var s := RunFrom(FRESH, steps);
            var response, log := s.phases[r].response, RunFrom(Apply(s, Complete(r)), later).log;
            && |s.log| <= |log|
            && forall j :: |s.log| <= j < |log| ==>
                 && log[j].Replayed?
                 && log[j].response.status == (if response.status == 0 then 201 else response.status)
                 && log[j].response.body == (if response.body == Undefined then Json("null") else response.body)
                 && (log[j].response == response <==> response.body != Undefined && response.status != 0)
  {
    FreshHolds();
    RunKeepsInv(FRESH, steps);
    var s := RunFrom(FRESH, steps);
    OwnerIsAlone(s, r);
    StepKeepsInv(s, Complete(r));
    CompletedIsForever(Apply(s, Complete(r)), later);
  }

  /** A failed run frees its key: after the release any request still looking finds none and runs. */
  lemma {:induction false} FailureFreesKey(steps: seq<Step>, failed: Request, retry: Request)
    requires ValidRun(FRESH, steps)
    requires Enabled(RunFrom(FRESH, steps), Release(failed))
    requires retry !in RunFrom(FRESH, steps).phases
    ensures var released := Apply(RunFrom(FRESH, steps), Release(failed));
            var attempt := [Arrive(retry), Find(retry), Insert(retry)];
            && ValidRun(released, attempt)
            && At(RunFrom(released, attempt), retry, Running)
            && !HasSuccess(released.log)
  {
    FreshHolds();
    RunKeepsInv(FRESH, steps);
    var s := RunFrom(FRESH, steps);
    OwnerIsAlone(s, failed);
    var s0 := Apply(s, Release(failed));
    var s1 := Apply(s0, Arrive(retry));
    var s2 := Apply(s1, Find(retry));
    var s3 := Apply(s2, Insert(retry));
    assert [Arrive(retry), Find(retry), Insert(retry)][1..] == [Find(retry), Insert(retry)];
    assert [Find(retry), Insert(retry)][1..] == [Insert(retry)];
    assert [Insert(retry)][1..] == [];
    assert ValidRun(s2, [Insert(retry)]) && RunFrom(s2, [Insert(retry)]) == s3;
    assert ValidRun(s1, [Find(retry), Insert(retry)]) && RunFrom(s1, [Find(retry), Insert(retry)]) == s3;
  }

  /** The boundary: when a trailing write is lost, the record stays pending for good, so every
      later request is refused and no handler ever runs under that key again. */
  lemma {:induction false} LostWriteSticks(s: State, steps: seq<Step>)
    requires Inv(s) && s.record == Some(Pending) && NoOwner(s) && ValidRun(s, steps)
    ensures var after := RunFrom(s, steps);
            && after.record == Some(Pending)
            && |s.log| <= |after.log| && after.log[..|s.log|] == s.log
            && forall j :: |s.log| <= j < |after.log| ==> after.log[j].Conflicted?
    decreases |steps|
  {
    if steps != [] {
      StepKeepsInv(s, steps[0]);
      assert NoOwner(Apply(s, steps[0]));
      LostWriteSticks(Apply(s, steps[0]), steps[1..]);
    }
  }

  // ── The interceptor itself ────────────────────────────────────────────────

  /** What one request did and was told, in order. */
  function EventsBy(log: seq<Event>, r: Request): seq<Event> {
    if log == [] then []
    else EventsBy(log[..|log| - 1], r) + (if log[|log| - 1].req == r then [log[|log| - 1]] else [])
  }

  lemma {:induction false} EventsByAppend(log: seq<Event>, e: Event, r: Request)
    ensures EventsBy(log + [e], r) == EventsBy(log, r) + (if e.req == r then [e] else [])
  {
    assert (log + [e])[..|log|] == log;
  }

  /** A lookup that finds the key taken, or loses it the second time, finishes the request. */
  lemma {:induction false} LookupAnswers(s: State, step: Step)
    requires Enabled(s, step) && (step.FindAgain? || (step.Find? && s.record.Some?))
    ensures var t := Apply(s, step);
            && At(t, step.req, Finished) && t.log != []
            && var answer := t.log[|t.log| - 1];
               t.log == s.log + [answer] && (answer.Replayed? || answer.Conflicted?) && answer.req == step.req
  {}

  /** A step of another request touches neither this request's phase nor its events. */
  lemma {:induction false} OtherStep(s: State, step: Step, r: Request)
    requires Enabled(s, step) && step.req != r
    ensures EventsBy(Apply(s, step).log, r) == EventsBy(s.log, r)
    ensures r in Apply(s, step).phases <==> r in s.phases
    ensures r in s.phases ==> Apply(s, step).phases[r] == s.phases[r]
  {
    LogsItsOwn(s, step);
    var after := Apply(s, step).log;
    if after != s.log {
      EventsByAppend(s.log, after[|s.log|], r);
    }
  }

  lemma {:induction false} LogsItsOwn(s: State, step: Step)
    requires Enabled(s, step)
    ensures var after, n := Apply(s, step).log, |s.log|;
            after == s.log || (|after| == n + 1 && after == s.log + [after[n]] && after[n].req == step.req)
  {}

  lemma {:induction false} RunJoins(s: State, first: seq<Step>, later: seq<Step>)
    requires ValidRun(s, first) && ValidRun(RunFrom(s, first), later)
    ensures ValidRun(s, first + later)
    ensures RunFrom(s, first + later) == RunFrom(RunFrom(s, first), later)
    decreases |first|
  {
    if first == [] {
      assert first + later == later;
    } else {
      assert (first + later)[1..] == first[1..] + later;
      RunJoins(Apply(s, first[0]), first[1..], later);
    }
  }

  /** The stored record of one key, and the interceptor working on it. */
  class Interceptor {
    var state: State
    ghost var trace: seq<Step>
    ghost const origin: State

    constructor ()
      ensures state == FRESH && Traced()
    {
      state, trace, origin := FRESH, [], FRESH;
    }

    /** The state is where the recorded steps lead from the empty one. */
    ghost predicate Traced()
      reads this
    {
      ValidRun(origin, trace) && origin == FRESH && state == RunFrom(origin, trace)
    }

    /** One repository call, or one emission of the handler. */
    method Perform(step: Step)
      requires Traced() && Enabled(state, step)
      modifies this
      ensures Traced() && state == Apply(old(state), step) && trace == old(trace) + [step]
    {
      RunJoins(origin, trace, [step]);
      state := Apply(state, step);
      trace := trace + [step];
    }

    /** Whatever other requests manage to do meanwhile, out of what they attempt. */
    method Others(r: Request, attempts: seq<Step>)
      requires Traced()
      modifies this
      ensures Traced() && old(trace) <= trace
      ensures EventsBy(state.log, r) == EventsBy(old(state).log, r)
      ensures r in state.phases <==> r in old(state).phases
      ensures r in state.phases ==> state.phases[r] == old(state).phases[r]
      ensures old(state).record.Some? && old(state).record.value.Completed? ==> state.record == old(state).record
      ensures attempts == [] ==> state == old(state)
    {
      for i := 0 to |attempts|
        invariant Traced() && old(trace) <= trace
        invariant EventsBy(state.log, r) == EventsBy(old(state).log, r)
        invariant r in state.phases <==> r in old(state).phases
        invariant r in state.phases ==> state.phases[r] == old(state).phases[r]
        invariant old(state).record.Some? && old(state).record.value.Completed? ==> state.record == old(state).record
        invariant attempts == [] ==> state == old(state)
      {
        if attempts[i].req != r && Enabled(state, attempts[i]) {
          OtherStep(state, attempts[i], r);
          FreshHolds();
          RunKeepsInv(FRESH, trace);
          Perform(attempts[i]);
        }
      }
    }

    /** A lookup that ends the request: it answers with a replay or a conflict. */
    method Reply(step: Step) returns (answer: Event)
      requires Traced() && Enabled(state, step)
      requires step.FindAgain? || (step.Find? && state.record.Some?)
      modifies this
      ensures Traced() && trace == old(trace) + [step]
      ensures At(state, step.req, Finished)
      ensures (answer.Replayed? || answer.Conflicted?) && answer.req == step.req
      ensures EventsBy(state.log, step.req) == EventsBy(old(state).log, step.req) + [answer]
      ensures state.record == old(state).record && state.phases.Keys == old(state).phases.Keys
      ensures match state.record
              case Some(Completed(status, body)) =>
                answer == Replayed(step.req, Response(if status == 0 then 201 else status, body))
              case _ => answer == Conflicted(step.req)
    {
      LookupAnswers(state, step);
      Perform(step);
      answer := state.log[|state.log| - 1];
      EventsByAppend(old(state).log, answer, step.req);
    }

    /** The handler's emission: the answer goes out at once, its write still to come. */
    method EndHandler(r: Request, handler: Option<Response>) returns (answer: Event)
      requires Traced() && At(state, r, Running)
      modifies this
      ensures Traced() && old(trace) <= trace
      ensures At(state, r, if handler.Some? then Writing(handler.value) else Releasing)
      ensures answer == if handler.Some? then Succeeded(r, handler.value) else Failed(r)
      ensures EventsBy(state.log, r) == EventsBy(old(state).log, r) + [answer]
      ensures state.phases.Keys == old(state).phases.Keys
    {
      match handler
      case Some(response) =>
        answer := Succeeded(r, response);
        Perform(HandlerOk(r, response));
      case None =>
        answer := Failed(r);
        Perform(HandlerError(r));
      EventsByAppend(old(state).log, answer, r);
    }

    /** The record is completed with this response, an undefined body stored as null. */
    predicate CompletedWith(response: Response)
      reads this
    {
      state.record == Some(Completed(response.status, if response.body == Undefined then Json("null") else response.body))
    }

    /** The write the reply did not wait for: completes or releases the record, unless it is lost. */
    method TrailingWrite(r: Request, lost: bool)
      requires Traced() && r in state.phases && (state.phases[r].Writing? || state.phases[r].Releasing?)
      modifies this
      ensures Traced() && old(trace) <= trace
      ensures At(state, r, Finished) && state.log == old(state).log
      ensures state.phases.Keys == old(state).phases.Keys
      ensures lost ==> state.record == Some(Pending)
      ensures !lost && old(state).phases[r].Writing? ==> CompletedWith(old(state).phases[r].response)
      ensures !lost && old(state).phases[r].Releasing? ==> state.record == None
    {
      FreshHolds();
      RunKeepsInv(FRESH, trace);
      OwnerIsAlone(state, r);
      if state.phases[r].Writing? {
        if lost { Perform(CompleteLost(r)); } else { Perform(Complete(r)); }
      } else {
        if lost { Perform(ReleaseLost(r)); } else { Perform(Release(r)); }
      }
    }

    /** The reserved branch: the handler runs and ends, the answer goes out, and the record is
        completed or released afterwards. */
    method RunHandler(r: Request, handler: Option<Response>, duringHandler: seq<Step>,
                      beforeWrite: seq<Step>, lost: bool)
      returns (answer: Event)
      requires Traced() && At(state, r, Running)
      modifies this
      ensures Traced() && old(trace) <= trace
      ensures At(state, r, Finished)
      ensures answer == if handler.Some? then Succeeded(r, handler.value) else Failed(r)
      ensures EventsBy(state.log, r) == EventsBy(old(state).log, r) + [answer]
      ensures lost ==> state.record == Some(Pending)
      ensures !lost ==> if handler.Some? then CompletedWith(handler.value) else state.record == None
      ensures duringHandler == [] && beforeWrite == [] ==> state.phases.Keys == old(state).phases.Keys
    {
      Others(r, duringHandler);
      answer := EndHandler(r, handler);
      Others(r, beforeWrite);
      TrailingWrite(r, lost);
    }

    /** A lookup that found nothing, then the insert that reserves the key or is refused. */
    method Reserve(r: Request, race: seq<Step>) returns (reserved: bool)
      requires Traced() && r !in state.phases && state.record.None?
      modifies this
      ensures Traced() && old(trace) <= trace
      ensures At(state, r, if reserved then Running else Refused)
      ensures EventsBy(state.log, r) == EventsBy(old(state).log, r) + if reserved then [Started(r)] else []
      ensures race == [] ==> reserved && state.phases.Keys == old(state).phases.Keys + {r}
    {
      Perform(Arrive(r));
      Perform(Find(r));
      assert state.log == old(state).log;
      Others(r, race);
      reserved := state.record.None?;
      EventsByAppend(state.log, Started(r), r);
      Perform(Insert(r));
    }

    /** One POST: `handler` is what the handler would emit (None: it throws), `races` what other
        requests attempt at each await, and `lost` whether the trailing write fails. The request gets
        one answer; its own handler runs exactly when that answer is not a replay or a conflict. Unless
        its write is lost, a success leaves the record completed with the answer, a failure none. */
    method Intercept(r: Request, handler: Option<Response>, races: seq<seq<Step>>, lost: bool)
      returns (answer: Event)
      requires Traced() && r !in state.phases && |races| == 3
      modifies this
      ensures Traced() && Inv(state) && old(trace) <= trace
      ensures At(state, r, Finished) && answer.req == r
      ensures answer.Succeeded? ==> handler == Some(answer.response)
      ensures answer.Failed? ==> handler == None
      ensures !answer.Started?
      ensures EventsBy(state.log, r)
           == EventsBy(old(state).log, r)
              + (if answer.Succeeded? || answer.Failed? then [Started(r)] else []) + [answer]
      ensures races == [[], [], []] ==> state.phases.Keys == old(state).phases.Keys + {r}
      ensures answer.Succeeded? && !lost ==> CompletedWith(answer.response)
      ensures answer.Failed? && !lost ==> state.record == None
      ensures (answer.Succeeded? || answer.Failed?) && lost ==> state.record == Some(Pending)
      ensures match old(state).record
              case Some(Completed(status, body)) =>
                && answer == Replayed(r, Response(if status == 0 then 201 else status, body))
                && state.record == old(state).record
              case Some(Pending) => answer == Conflicted(r) && state.record == Some(Pending)
              case None =>
                races[0] == [] ==> answer == if handler.Some? then Succeeded(r, handler.value) else Failed(r)
    {
      if state.record.Some? {
        Perform(Arrive(r));
        answer := Reply(Find(r));
      } else {
        var reserved := Reserve(r, races[0]);
        if reserved {
          answer := RunHandler(r, handler, races[1], races[2], lost);
        } else {
          Others(r, races[1]);
          answer := Reply(FindAgain(r));
        }
      }
      FreshHolds();
      RunKeepsInv(FRESH, trace);
    }

    /** A POST and its retry, the key free at first, nobody else in the race for it, and no write lost. A
        success is replayed to the retry, whatever others attempt in between; after a failure the retry
        runs its own handler. */
    method InterceptTwice(r: Request, retry: Request, handler: Option<Response>, between: seq<Step>,
                          again: Option<Response>)
      returns (first: Event, second: Event)
      requires Traced() && r !in state.phases && retry !in state.phases && r != retry && state.record.None?
      modifies this
      ensures Traced()
      ensures first == if handler.Some? then Succeeded(r, handler.value) else Failed(r)
      ensures handler.Some? ==> second.Replayed?
      ensures handler.Some? && handler.value.body != Undefined && handler.value.status != 0 ==>
                second == Replayed(retry, handler.value)
      ensures handler.None? && between == [] ==>
                second == if again.Some? then Succeeded(retry, again.value) else Failed(retry)
    {
      first := Intercept(r, handler, [[], [], []], false);
      Others(retry, between);
      second := Intercept(retry, again, [[], [], []], false);
    }
  }
}
