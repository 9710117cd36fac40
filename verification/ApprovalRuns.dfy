/** Every interleaving of approval requests, resolutions and crashes. A step is one locked section of
    the registry, one SQL statement or one channel operation. */
module ApprovalRuns {
  import opened Contracts
  import opened Registries

  /** Where one call of RequestApproval is. Lost: its process died. */
  datatype Stage =
    | Storing | Posting | Waiting
    | Unmapping(answer: ApprovalResult) | Unrowing(answer: ApprovalResult) | Answered(answer: ApprovalResult)
    | Lost

  /** Where one call of resolve is. */
  datatype CallStage = Entering | Deleting | Sending | Finished(ok: bool) | Killed

  datatype Call = Call(id: string, result: ApprovalResult, stage: CallStage)

  datatype Event = Resolution(id: string, result: ApprovalResult, ok: bool)
    | Returned(id: string, answer: ApprovalResult)

  /** `entries` are the keys of the registry's map, `rows` those of the approvals table. Request IDs are
      unique, so the channel of a request is named by its ID. `log` is an observation. */
  datatype State = State(
    requests: map<string, Stage>, entries: set<string>, rows: set<string>, buffers: map<string, seq<ApprovalResult>>,
    calls: seq<Call>, log: seq<Event>)

  ghost predicate Init(s: State) {
    s == State(map[], {}, s.rows, map[], [], []) && s.rows == {}
  }

  // RequestApproval.

  /** register() inserts into the map, with a fresh ID ... */
  ghost predicate Register(s: State, s': State, id: string) {
    && id !in s.requests
    && s' == s.(requests := s.requests[id := Storing], entries := s.entries + {id}, buffers := s.buffers[id := []])
  }

  ghost predicate Moves(s: State, s': State, id: string, from: Stage, to: Stage) {
    id in s.requests && s.requests[id] == from && s' == s.(requests := s.requests[id := to])
  }

  /** ... and then into the table. */
  ghost predicate StoreRow(s: State, s': State, id: string) {
    Moves(s, s'.(rows := s.rows), id, Storing, Posting) && s'.rows == s.rows + {id}
  }

  ghost predicate Post(s: State, s': State, id: string) {
    Moves(s, s', id, Posting, Waiting) || Moves(s, s', id, Posting, Unmapping(DeniedFor(id)))
  }

  ghost predicate Receive(s: State, s': State, id: string) {
    && id in s.buffers && s.buffers[id] != []
    && Moves(s, s'.(buffers := s.buffers), id, Waiting, Unmapping(s.buffers[id][0]))
    && s'.buffers == s.buffers[id := s.buffers[id][1..]]
  }

  /** The timer or the context ends the wait, even if the channel is ready too. */
  ghost predicate StopWaiting(s: State, s': State, id: string) {
    Moves(s, s', id, Waiting, Unmapping(TimedOut(id))) || Moves(s, s', id, Waiting, Unmapping(DeniedFor(id)))
  }

  ghost predicate Unmap(s: State, s': State, id: string, answer: ApprovalResult) {
    Moves(s, s'.(entries := s.entries), id, Unmapping(answer), Unrowing(answer)) && s'.entries == s.entries - {id}
  }

  ghost predicate Unrow(s: State, s': State, id: string, answer: ApprovalResult) {
    && Moves(s, s'.(rows := s.rows, log := s.log), id, Unrowing(answer), Answered(answer))
    && s'.rows == s.rows - {id} && s'.log == s.log + [Returned(id, answer)]
  }

  // resolve(), with whatever ID and result a caller likes.

  ghost predicate Enter(s: State, s': State, id: string, result: ApprovalResult) {
    s' == s.(calls := s.calls + [Call(id, result, Entering)])
  }

  ghost predicate CallAt(s: State, c: nat, stage: CallStage) {
    c < |s.calls| && s.calls[c].stage == stage
  }

  function Advanced(s: State, c: nat, stage: CallStage): State
    requires c < |s.calls|
  {
    s.(calls := s.calls[c := s.calls[c].(stage := stage)])
  }

  ghost predicate Take(s: State, s': State, c: nat) {
    && CallAt(s, c, Entering)
    && var call := s.calls[c];
       s' == if call.id in s.entries then Advanced(s, c, Deleting).(entries := s.entries - {call.id})
             else Advanced(s, c, Finished(false)).(log := s.log + [Resolution(call.id, call.result, false)])
  }

  ghost predicate DeleteRow(s: State, s': State, c: nat) {
    && CallAt(s, c, Deleting)
    && s' == Advanced(s, c, Sending).(rows := s.rows - {s.calls[c].id})
  }

  /** The non-blocking send into the one-place channel, the last thing before `return true`. */
  ghost predicate Send(s: State, s': State, c: nat) {
    && CallAt(s, c, Sending) && s.calls[c].id in s.buffers
    && var call := s.calls[c];
       var buffer := s.buffers[call.id];
       s' == Advanced(s, c, Finished(true)).(
         buffers := s.buffers[call.id := if |buffer| < 1 then buffer + [call.result] else buffer],
         log := s.log + [Resolution(call.id, call.result, true)])
  }

  /** Only the table and what was observed survive. */
  ghost predicate Crash(s: State, s': State) {
    && s'.requests == (map id <- s.requests :: if s.requests[id].Answered? then s.requests[id] else Lost)
    && |s'.calls| == |s.calls|
    && (forall c :: 0 <= c < |s.calls| ==>
          s'.calls[c] == if s.calls[c].stage.Finished? then s.calls[c] else s.calls[c].(stage := Killed))
    && s' == State(s'.requests, {}, s.rows, s.buffers, s'.calls, s.log)
  }

  ghost predicate RequestStep(s: State, s': State, id: string) {
    || Register(s, s', id) || StoreRow(s, s', id) || Post(s, s', id) || Receive(s, s', id) || StopWaiting(s, s', id)
    || (exists answer :: Unmap(s, s', id, answer)) || (exists answer :: Unrow(s, s', id, answer))
  }

  ghost predicate CallStep(s: State, s': State, c: nat) {
    Take(s, s', c) || DeleteRow(s, s', c) || Send(s, s', c)
  }

  ghost predicate Next(s: State, s': State) {
    || (exists id :: RequestStep(s, s', id))
    || (exists id, result :: Enter(s, s', id, result))
    || (exists c :: CallStep(s, s', c))
    || Crash(s, s')
  }

  ghost predicate IsRun(run: seq<State>) {
    run != [] && Init(run[0]) && forall i :: 0 < i < |run| ==> Next(run[i - 1], run[i])
  }

  // The invariant.

  /** The call has taken the entry of its request and will return true, or has. */
  ghost predicate Taker(s: State, c: nat) {
    c < |s.calls| && (s.calls[c].stage in {Deleting, Sending, Finished(true)})
  }

  ghost predicate Mappable(stage: Stage) { stage in {Storing, Posting, Waiting} || stage.Unmapping? }

  ghost predicate EntryInv(s: State) {
    && (forall id <- s.entries :: id in s.requests && Mappable(s.requests[id]))
    && (forall id <- s.requests :: id in s.buffers && |s.buffers[id]| <= 1)
    && (forall id <- s.entries :: s.buffers[id] == [])
  }

  ghost predicate RowInv(s: State) {
    forall id <- s.rows :: id in s.requests && !s.requests[id].Storing? && !s.requests[id].Answered?
  }

  /** One taker per request, after whose taking the request is off the map; nobody else fills its channel. */
  ghost predicate CallInv(s: State) {
    && (forall c: nat :: Taker(s, c) ==> s.calls[c].id in s.requests && s.calls[c].id !in s.entries)
    && (forall c: nat, d: nat :: Taker(s, c) && Taker(s, d) && s.calls[c].id == s.calls[d].id ==> c == d)
    && (forall c: nat :: Taker(s, c) && s.calls[c].stage != Finished(true) ==>
          s.calls[c].id in s.buffers && s.buffers[s.calls[c].id] == [])
  }

  /** An answer that the system gave, or that a successful resolution delivered before. */
  ghost predicate Justified(log: seq<Event>, id: string, answer: ApprovalResult) {
    answer in {DeniedFor(id), TimedOut(id)} || Resolution(id, answer, true) in log
  }

  predicate HasAnswer(stage: Stage) { stage.Unmapping? || stage.Unrowing? || stage.Answered? }

  ghost predicate AnswerInv(s: State) {
    && (forall id <- s.buffers :: forall r <- s.buffers[id] :: Resolution(id, r, true) in s.log)
    && (forall id <- s.requests ::
          HasAnswer(s.requests[id]) ==> Justified(s.log, id, s.requests[id].answer))
  }

  ghost predicate LogInv(s: State) {
    forall j, id, answer :: 0 <= j < |s.log| && s.log[j] == Returned(id, answer) ==>
      Justified(s.log[..j], id, answer) && id in s.requests && s.requests[id] == Answered(answer)
  }

  ghost predicate Success(log: seq<Event>, i: nat, id: string) {
    i < |log| && log[i].Resolution? && log[i].ok && log[i].id == id
  }

  /** A success belongs to a finished call, and no request has two. */
  ghost predicate SuccessInv(s: State) {
    && (forall i: nat, id :: Success(s.log, i, id) ==>
          exists c: nat :: CallAt(s, c, Finished(true)) && s.calls[c].id == id)
    && (forall i: nat, j: nat, id :: Success(s.log, i, id) && Success(s.log, j, id) ==> i == j)
  }

  ghost predicate Inv(s: State) {
    EntryInv(s) && RowInv(s) && CallInv(s) && AnswerInv(s) && LogInv(s) && SuccessInv(s)
  }

  // Preservation, part by part.

  /** No call finishes and no success is logged. */
  ghost predicate NoSuccess(s: State, s': State) {
    && (forall c: nat :: CallAt(s, c, Finished(true)) ==>
          CallAt(s', c, Finished(true)) && s'.calls[c].id == s.calls[c].id)
    && (s'.log == s.log
        || (|s'.log| > 0 && s'.log[..|s'.log| - 1] == s.log && !Success(s'.log, |s.log|, s'.log[|s.log|].id)))
  }

  lemma SuccessStays(s: State, s': State)
    requires SuccessInv(s) && NoSuccess(s, s')
    ensures SuccessInv(s')
  {
    assert forall i: nat, id :: Success(s'.log, i, id) ==> Success(s.log, i, id);
    forall i: nat, id | Success(s'.log, i, id)
      ensures exists c: nat :: CallAt(s', c, Finished(true)) && s'.calls[c].id == id
    {
      var c: nat :| CallAt(s, c, Finished(true)) && s.calls[c].id == id;
      assert CallAt(s', c, Finished(true));
    }
  }

  lemma LogGrows(s: State, s': State, e: Event)
    requires s'.log == s.log + [e]
    ensures forall j :: 0 <= j <= |s.log| ==> s'.log[..j] == s.log[..j]
    ensures forall f <- s.log :: f in s'.log
  {}

  // Steps of a request.

  lemma RegisterKeepsInv(s: State, s': State, id: string)
    requires Inv(s) && Register(s, s', id)
    ensures Inv(s')
  {
    hide Justified, SuccessInv;
    SuccessStays(s, s');
  }

  lemma StoreRowKeepsInv(s: State, s': State, id: string)
    requires Inv(s) && StoreRow(s, s', id)
    ensures Inv(s')
  {
    hide SuccessInv, Justified;
    SuccessStays(s, s');
  }

  lemma PostKeepsInv(s: State, s': State, id: string)
    requires Inv(s) && Post(s, s', id)
    ensures Inv(s')
  {
    hide SuccessInv;
    SuccessStays(s, s');
  }

  lemma StopKeepsInv(s: State, s': State, id: string)
    requires Inv(s) && StopWaiting(s, s', id)
    ensures Inv(s')
  {
    hide SuccessInv;
    SuccessStays(s, s');
  }

  lemma ReceiveKeepsInv(s: State, s': State, id: string)
    requires Inv(s) && Receive(s, s', id)
    ensures Inv(s')
  {
    hide SuccessInv;
    SuccessStays(s, s');
  }

  lemma UnmapKeepsInv(s: State, s': State, id: string, answer: ApprovalResult)
    requires Inv(s) && Unmap(s, s', id, answer)
    ensures Inv(s')
  {
    hide SuccessInv, Justified;
    SuccessStays(s, s');
  }

  lemma UnrowKeepsInv(s: State, s': State, id: string, answer: ApprovalResult)
    requires Inv(s) && Unrow(s, s', id, answer)
    ensures Inv(s')
  {
    hide SuccessInv;
    LogGrows(s, s', Returned(id, answer));
    SuccessStays(s, s');
  }

  // Steps of a resolution.

  lemma EnterKeepsInv(s: State, s': State, id: string, result: ApprovalResult)
    requires Inv(s) && Enter(s, s', id, result)
    ensures Inv(s')
  {
    hide Justified, SuccessInv;
    SuccessStays(s, s');
    assert forall c: nat :: Taker(s', c) ==> Taker(s, c);
  }

  /** More log, and requests only lose entries and rows. */
  lemma LoggedKeepsInv(s: State, s': State)
    requires EntryInv(s) && RowInv(s) && AnswerInv(s) && LogInv(s)
    requires s'.requests == s.requests && s'.buffers == s.buffers && s'.entries <= s.entries && s'.rows <= s.rows
    requires s'.log == s.log || exists id, result :: s'.log == s.log + [Resolution(id, result, false)]
    ensures EntryInv(s') && RowInv(s') && AnswerInv(s') && LogInv(s')
  {
    if s'.log != s.log {
      var id, result :| s'.log == s.log + [Resolution(id, result, false)];
      LogGrows(s, s', Resolution(id, result, false));
    }
  }

  lemma TakeKeepsInv(s: State, s': State, c: nat)
    requires Inv(s) && Take(s, s', c)
    ensures Inv(s')
  {
    hide SuccessInv, AnswerInv, LogInv, RowInv;
    LoggedKeepsInv(s, s');
    SuccessStays(s, s');
    assert forall d: nat :: d != c && Taker(s', d) ==> Taker(s, d);
  }

  lemma DeleteRowKeepsInv(s: State, s': State, c: nat)
    requires Inv(s) && DeleteRow(s, s', c)
    ensures Inv(s')
  {
    hide SuccessInv, AnswerInv, LogInv, RowInv, EntryInv;
    LoggedKeepsInv(s, s');
    SuccessStays(s, s');
    assert forall d: nat :: Taker(s', d) ==> Taker(s, d);
  }

  lemma SendKeepsSuccess(s: State, s': State, c: nat)
    requires CallInv(s) && SuccessInv(s) && Send(s, s', c)
    ensures SuccessInv(s')
  {
    var id := s.calls[c].id;
    assert forall i: nat, id' :: Success(s'.log, i, id') && i < |s.log| ==> Success(s.log, i, id');
    assert CallAt(s', c, Finished(true));
    forall i: nat, id' | Success(s'.log, i, id')
      ensures exists d: nat :: CallAt(s', d, Finished(true)) && s'.calls[d].id == id'
      ensures i < |s.log| ==> id' != id
    {
      if i < |s.log| {
        var d: nat :| CallAt(s, d, Finished(true)) && s.calls[d].id == id';
        assert CallAt(s', d, Finished(true)) && Taker(s, d) && Taker(s, c);
      }
    }
  }

  lemma SendKeepsAnswers(s: State, s': State, c: nat)
    requires EntryInv(s) && CallInv(s) && AnswerInv(s) && LogInv(s) && Send(s, s', c)
    ensures EntryInv(s') && AnswerInv(s') && LogInv(s')
  {
    var call := s.calls[c];
    assert Taker(s, c);
    LogGrows(s, s', Resolution(call.id, call.result, true));
  }

  lemma SendKeepsInv(s: State, s': State, c: nat)
    requires Inv(s) && Send(s, s', c)
    ensures Inv(s')
  {
    SendKeepsAnswers(s, s', c);
    SendKeepsSuccess(s, s', c);
    hide SuccessInv, AnswerInv, LogInv, EntryInv;
    assert forall d: nat :: Taker(s', d) ==> Taker(s, d);
  }

  lemma CrashKeepsInv(s: State, s': State)
    requires Inv(s) && Crash(s, s')
    ensures Inv(s')
  {
    hide SuccessInv, Justified;
    assert forall c: nat :: CallAt(s, c, Finished(true)) <==> CallAt(s', c, Finished(true));
    SuccessStays(s, s');
    assert forall d: nat :: Taker(s', d) ==> Taker(s, d);
  }

  lemma NextKeepsInv(s: State, s': State)
    requires Inv(s) && Next(s, s')
    ensures Inv(s')
  {
    hide Inv, Register, StoreRow, Post, Receive, StopWaiting, Unmap, Unrow, Enter, Take, DeleteRow, Send, Crash;
    if id :| RequestStep(s, s', id) {
      RequestKeepsInv(s, s', id);
    } else if id, result :| Enter(s, s', id, result) {
      EnterKeepsInv(s, s', id, result);
    } else if c :| CallStep(s, s', c) {
      if Take(s, s', c) {
        TakeKeepsInv(s, s', c);
      } else if DeleteRow(s, s', c) {
        DeleteRowKeepsInv(s, s', c);
      } else {
        SendKeepsInv(s, s', c);
      }
    } else {
      CrashKeepsInv(s, s');
    }
  }

  lemma RequestKeepsInv(s: State, s': State, id: string)
    requires Inv(s) && RequestStep(s, s', id)
    ensures Inv(s')
  {
    hide Inv, Register, StoreRow, Post, Receive, StopWaiting, Unmap, Unrow;
    if Register(s, s', id) {
      RegisterKeepsInv(s, s', id);
    } else if StoreRow(s, s', id) {
      StoreRowKeepsInv(s, s', id);
    } else if Post(s, s', id) {
      PostKeepsInv(s, s', id);
    } else if Receive(s, s', id) {
      ReceiveKeepsInv(s, s', id);
    } else if StopWaiting(s, s', id) {
      StopKeepsInv(s, s', id);
    } else if answer :| Unmap(s, s', id, answer) {
      UnmapKeepsInv(s, s', id, answer);
    } else {
      var answer :| Unrow(s, s', id, answer);
      UnrowKeepsInv(s, s', id, answer);
    }
  }

  lemma {:induction false} RunKeepsInv(run: seq<State>, i: nat)
    requires IsRun(run) && i < |run|
    ensures Inv(run[i])
  {
    hide Next;
    if i > 0 {
      RunKeepsInv(run, i - 1);
      NextKeepsInv(run[i - 1], run[i]);
    }
  }

  // Whether a success is heard.

  /** A delivered result is still in the channel and the request has no answer but the system's, or it has
      been received and is the answer; unless the process died. */
  ghost predicate Delivered(s: State, id: string, r: ApprovalResult) {
    && id in s.requests && id in s.buffers
    && var stage := s.requests[id];
       || (s.buffers[id] == [r] && (HasAnswer(stage) ==> stage.answer in {DeniedFor(id), TimedOut(id)}))
       || (s.buffers[id] == [] && (stage == Lost || (HasAnswer(stage) && stage.answer == r)))
  }

  ghost predicate HeardInv(s: State) {
    forall id, r :: Resolution(id, r, true) in s.log ==> Delivered(s, id, r)
  }

  lemma RequestKeepsHeard(s: State, s': State, id: string)
    requires HeardInv(s) && RequestStep(s, s', id)
    ensures HeardInv(s')
  {
    hide Delivered, Register, StoreRow, Post, Receive, StopWaiting, Unmap, Unrow;
    forall other, r | Resolution(other, r, true) in s'.log
      ensures Delivered(s', other, r)
    {
      NoNewSuccess(s, s', id, Resolution(other, r, true));
      RequestKeepsDelivered(s, s', id, other, r);
    }
  }

  lemma NoNewSuccess(s: State, s': State, id: string, e: Event)
    requires RequestStep(s, s', id) && e.Resolution? && e in s'.log
    ensures e in s.log
  {}

  lemma RequestKeepsDelivered(s: State, s': State, id: string, other: string, r: ApprovalResult)
    requires Delivered(s, other, r) && RequestStep(s, s', id)
    ensures Delivered(s', other, r)
  {}

  lemma SendKeepsHeard(s: State, s': State, c: nat)
    requires Inv(s) && HeardInv(s) && Send(s, s', c)
    ensures HeardInv(s')
  {
    hide EntryInv, RowInv, LogInv;
    var id := s.calls[c].id;
    assert Taker(s, c);
    forall r
      ensures Resolution(id, r, true) !in s.log
    {
      NoSuccessBefore(s, c, r);
    }
    forall other, r | Resolution(other, r, true) in s'.log
      ensures Delivered(s', other, r)
    {
      assert other != id ==> Resolution(other, r, true) in s.log && Delivered(s, other, r);
    }
  }

  lemma NoSuccessBefore(s: State, c: nat, r: ApprovalResult)
    requires CallInv(s) && SuccessInv(s) && CallAt(s, c, Sending)
    ensures Resolution(s.calls[c].id, r, true) !in s.log
  {
    var id := s.calls[c].id;
    assert Taker(s, c);
    if i :| 0 <= i < |s.log| && s.log[i] == Resolution(id, r, true) {
      assert Success(s.log, i, id);
      var d: nat :| CallAt(s, d, Finished(true)) && s.calls[d].id == id;
      assert Taker(s, d);
    }
  }

  lemma NextKeepsHeard(s: State, s': State)
    requires Inv(s) && HeardInv(s) && Next(s, s')
    ensures HeardInv(s')
  {
    hide Inv, HeardInv, RequestStep, Send, Enter, Crash, Take, DeleteRow;
    if id :| RequestStep(s, s', id) {
      RequestKeepsHeard(s, s', id);
    } else if c :| Send(s, s', c) {
      SendKeepsHeard(s, s', c);
    } else {
      OthersKeepHeard(s, s');
    }
  }

  lemma OthersKeepHeard(s: State, s': State)
    requires HeardInv(s)
    requires || (exists id, result :: Enter(s, s', id, result))
             || (exists c :: Take(s, s', c) || DeleteRow(s, s', c))
             || Crash(s, s')
    ensures HeardInv(s')
  {
    forall other, r | Resolution(other, r, true) in s'.log
      ensures Delivered(s', other, r)
    {
      assert Resolution(other, r, true) in s.log && Delivered(s, other, r);
    }
  }

  lemma {:induction false} RunKeepsHeard(run: seq<State>, i: nat)
    requires IsRun(run) && i < |run|
    ensures HeardInv(run[i])
  {
    hide Next;
    if i > 0 {
      RunKeepsHeard(run, i - 1);
      RunKeepsInv(run, i - 1);
      NextKeepsHeard(run[i - 1], run[i]);
    }
  }

  // The guarantees.

  /** At most one resolve returns true per request, over all process lives. */
  lemma ResolvedAtMostOnce(run: seq<State>, i: nat, a: nat, b: nat)
    requires IsRun(run) && i < |run| && a < b < |run[i].log|
    requires run[i].log[a].Resolution? && run[i].log[a].ok && run[i].log[b].Resolution? && run[i].log[b].ok
    ensures run[i].log[a].id != run[i].log[b].id
  {
    hide IsRun;
    RunKeepsInv(run, i);
    var log := run[i].log;
    assert Success(log, a, log[a].id) && Success(log, b, log[b].id);
  }

  /** The channel of a request is empty when its one sender sends: the drop branch is dead code. */
  lemma ChannelIsNeverFull(run: seq<State>, i: nat, c: nat)
    requires IsRun(run) && i < |run| && CallAt(run[i], c, Sending)
    ensures run[i].calls[c].id in run[i].buffers && run[i].buffers[run[i].calls[c].id] == []
  {
    hide IsRun;
    RunKeepsInv(run, i);
    assert Taker(run[i], c);
  }

  /** Fail-closed: an answer other than the system's own DENIED or TIMEOUT is, to the letter, one that an
      earlier successful resolution of the same request delivered. */
  lemma ApprovedOnlyIfResolved(run: seq<State>, i: nat, j: nat, id: string, answer: ApprovalResult) returns (k: nat)
    requires IsRun(run) && i < |run| && j < |run[i].log| && run[i].log[j] == Returned(id, answer)
    requires answer.decision == Approved || answer.approver != "system"
    ensures k < j && run[i].log[k] == Resolution(id, answer, true)
  {
    hide IsRun;
    RunKeepsInv(run, i);
    assert Resolution(id, answer, true) in run[i].log[..j];
    k :| k < j && run[i].log[k] == Resolution(id, answer, true);
  }

  /** An answer other than the DENIED of a failed or cancelled request, a timeout included, is only given to a
      request that has been posted and waited. */
  lemma {:induction false} OnlyPostedRequestsAreAnswered(run: seq<State>, i: nat, id: string) returns (j: nat)
    requires IsRun(run) && i < |run| && id in run[i].requests && HasAnswer(run[i].requests[id])
    requires run[i].requests[id].answer != DeniedFor(id)
    ensures j < i && id in run[j].requests && run[j].requests[id] == Waiting
  {
    hide Next, HasAnswer;
    if i == 0 {
      assert false;
    } else {
      AnsweredBefore(run[i - 1], run[i], id);
      if run[i - 1].requests[id] == Waiting {
        j := i - 1;
      } else {
        j := OnlyPostedRequestsAreAnswered(run, i - 1, id);
      }
    }
  }

  lemma AnsweredBefore(s: State, s': State, id: string)
    requires Next(s, s') && id in s'.requests && HasAnswer(s'.requests[id]) && s'.requests[id].answer != DeniedFor(id)
    ensures id in s.requests
    ensures s.requests[id] == Waiting
         || (HasAnswer(s.requests[id]) && s.requests[id].answer == s'.requests[id].answer)
  {
    hide CallStep, RequestStep, Enter, Crash;
    if c :| CallStep(s, s', c) {
      CallsKeepRequests(s, s', c);
    } else if other :| RequestStep(s, s', other) {
      RequestAnswers(s, s', other, id);
    } else if Crash(s, s') {
      CrashKeepsAnswers(s, s', id);
    } else {
      EnterKeepsRequests(s, s');
    }
  }

  lemma RequestAnswers(s: State, s': State, other: string, id: string)
    requires RequestStep(s, s', other)
    requires id in s'.requests && HasAnswer(s'.requests[id]) && s'.requests[id].answer != DeniedFor(id)
    ensures id in s.requests
    ensures s.requests[id] == Waiting
         || (HasAnswer(s.requests[id]) && s.requests[id].answer == s'.requests[id].answer)
  {}

  lemma CrashKeepsAnswers(s: State, s': State, id: string)
    requires Crash(s, s') && id in s'.requests && HasAnswer(s'.requests[id])
    ensures id in s.requests && s'.requests[id] == s.requests[id]
  {}

  lemma EnterKeepsRequests(s: State, s': State)
    requires exists id, result :: Enter(s, s', id, result)
    ensures s'.requests == s.requests
  {}

  lemma CallsKeepRequests(s: State, s': State, c: nat)
    requires CallStep(s, s', c)
    ensures s'.requests == s.requests
  {}

  lemma {:induction false} LogOnlyGrows(run: seq<State>, i: nat, k: nat)
    requires IsRun(run) && i <= k < |run|
    ensures run[i].log <= run[k].log
    decreases k
  {
    hide Next;
    if i < k {
      LogOnlyGrows(run, i, k - 1);
      NextGrowsLog(run[k - 1], run[k]);
    }
  }

  lemma NextGrowsLog(s: State, s': State)
    requires Next(s, s')
    ensures s.log <= s'.log
  {}

  /** Once RequestApproval has returned, its ID is in neither the map nor the table, then and ever after. */
  lemma ReturnedLeavesNothing(run: seq<State>, i: nat, k: nat, j: nat, id: string, answer: ApprovalResult)
    requires IsRun(run) && i <= k < |run| && j < |run[i].log| && run[i].log[j] == Returned(id, answer)
    ensures id !in run[k].entries && id !in run[k].rows
  {
    hide IsRun;
    LogOnlyGrows(run, i, k);
    RunKeepsInv(run, k);
    assert run[k].log[j] == Returned(id, answer);
  }

  ghost predicate Chain(states: seq<State>) {
    forall i :: 0 < i < |states| ==> Next(states[i - 1], states[i])
  }

  /** A resolution that nobody interrupts does what Registry.Resolve says. */
  lemma ResolveUninterrupted(s: State, id: string, result: ApprovalResult) returns (states: seq<State>)
    requires id in s.buffers && s.buffers[id] == [] && id in s.entries
    ensures |states| == 5 && Chain(states) && states[0] == s
    ensures states[4] == s.(entries := s.entries - {id}, rows := s.rows - {id}, buffers := s.buffers[id := [result]],
                            calls := s.calls + [Call(id, result, Finished(true))],
                            log := s.log + [Resolution(id, result, true)])
  {
    hide RequestStep, Crash;
    var c := |s.calls|;
    var s1 := s.(calls := s.calls + [Call(id, result, Entering)]);
    var s2 := Advanced(s1, c, Deleting).(entries := s.entries - {id});
    var s3 := Advanced(s2, c, Sending).(rows := s.rows - {id});
    var s4 := Advanced(s3, c, Finished(true)).(buffers := s.buffers[id := [result]],
                                               log := s.log + [Resolution(id, result, true)]);
    assert s3.buffers[id] + [result] == [result];
    assert Enter(s, s1, id, result) && Take(s1, s2, c) && DeleteRow(s2, s3, c) && Send(s3, s4, c);
    assert CallStep(s1, s2, c) && CallStep(s2, s3, c) && CallStep(s3, s4, c);
    states := [s, s1, s2, s3, s4];
  }

  /** A successful resolution is what the requester answers exactly if it was taken out of the channel; else
      the requester has answered for the system. */
  lemma HeardIffReceived(run: seq<State>, i: nat, id: string, answer: ApprovalResult, r: ApprovalResult)
    requires IsRun(run) && i < |run| && Returned(id, answer) in run[i].log && Resolution(id, r, true) in run[i].log
    ensures id in run[i].buffers && run[i].buffers[id] in {[], [r]}
    ensures run[i].buffers[id] == [] ==> answer == r
    ensures run[i].buffers[id] == [r] ==> answer in {DeniedFor(id), TimedOut(id)}
  {
    hide IsRun, EntryInv, RowInv, CallInv, AnswerInv, SuccessInv;
    RunKeepsInv(run, i);
    RunKeepsHeard(run, i);
    assert Delivered(run[i], id, r);
    assert run[i].requests[id] == Answered(answer);
  }

  /** The comment on the registry promises less than it seems to: from any moment of the wait, an approval
      may be recorded as a success, and the requester still reports a timeout. */
  lemma ApprovalMayGoUnheard(s: State, id: string, result: ApprovalResult) returns (states: seq<State>)
    requires id in s.buffers && s.buffers[id] == [] && id in s.entries && id in s.requests && s.requests[id] == Waiting
    requires result.decision == Approved
    ensures |states| == 8 && Chain(states) && states[0] == s
    ensures states[7].log == s.log + [Resolution(id, result, true), Returned(id, TimedOut(id))]
  {
    hide CallStep, Crash, Enter;
    var front := ResolveUninterrupted(s, id, result);
    var s4 := front[4];
    var s5 := s4.(requests := s.requests[id := Unmapping(TimedOut(id))]);
    var s6 := s5.(requests := s.requests[id := Unrowing(TimedOut(id))]);
    var s7 := s6.(requests := s.requests[id := Answered(TimedOut(id))], log := s4.log + [Returned(id, TimedOut(id))]);
    assert StopWaiting(s4, s5, id) && Unmap(s5, s6, id, TimedOut(id)) && Unrow(s6, s7, id, TimedOut(id));
    assert RequestStep(s4, s5, id) && RequestStep(s5, s6, id) && RequestStep(s6, s7, id);
    states := front + [s5, s6, s7];
    forall i | 0 < i < |states|
      ensures Next(states[i - 1], states[i])
    {
      assert i <= 4 ==> states[i - 1] == front[i - 1] && states[i] == front[i];
    }
  }

  lemma {:induction false} LostRowsStay(run: seq<State>, i: nat, k: nat, id: string)
    requires IsRun(run) && i <= k < |run| && LostWithRow(run[i], id)
    ensures LostWithRow(run[k], id)
    decreases k
  {
    hide Next, LostWithRow;
    if i < k {
      LostRowsStay(run, i, k - 1, id);
      RunKeepsInv(run, k - 1);
      LostRowStays(run[k - 1], run[k], id);
    }
  }

  /** No resolution of the request is about to delete its row. */
  ghost predicate NoCallOf(s: State, id: string) {
    forall c: nat :: CallAt(s, c, Deleting) || CallAt(s, c, Sending) ==> s.calls[c].id != id
  }

  ghost predicate LostWithRow(s: State, id: string) {
    id in s.requests && s.requests[id] == Lost && id in s.rows && NoCallOf(s, id)
  }

  lemma LostRowStays(s: State, s': State, id: string)
    requires Inv(s) && Next(s, s') && LostWithRow(s, id)
    ensures LostWithRow(s', id)
  {
    hide Inv, CallStep, RequestStep, NoCallOf, LostWithRow, Enter, Crash;
    if other :| RequestStep(s, s', other) {
      LostThroughRequest(s, s', id, other);
    } else if c :| CallStep(s, s', c) {
      LostThroughCall(s, s', id, c);
    } else {
      LostThroughOther(s, s', id);
    }
  }

  lemma LostThroughRequest(s: State, s': State, id: string, other: string)
    requires LostWithRow(s, id) && RequestStep(s, s', other)
    ensures LostWithRow(s', id)
  {}

  lemma LostThroughCall(s: State, s': State, id: string, c: nat)
    requires Inv(s) && LostWithRow(s, id) && CallStep(s, s', c)
    ensures LostWithRow(s', id)
  {
    hide CallInv, AnswerInv, LogInv, SuccessInv, RowInv;
    assert id !in s.entries;
  }

  lemma LostThroughOther(s: State, s': State, id: string)
    requires LostWithRow(s, id) && (Crash(s, s') || exists other, result :: Enter(s, s', other, result))
    ensures LostWithRow(s', id)
  {}

  /** Requests do not survive a restart: the row of one that had not returned when the process died stays in
      the table for good, and the request stays lost. */
  lemma CrashedRequestsStay(run: seq<State>, i: nat, k: nat, id: string)
    requires IsRun(run) && i < k < |run| && Crash(run[i], run[i + 1])
    requires id in run[i].requests && !run[i].requests[id].Answered? && id in run[i].rows
    ensures LostWithRow(run[k], id)
  {
    hide IsRun, Crash, LostWithRow;
    CrashLosesRequests(run[i], run[i + 1], id);
    LostNow(run[i + 1], id);
    LostRowsStay(run, i + 1, k, id);
  }

  lemma LostNow(s: State, id: string)
    requires id in s.requests && s.requests[id] == Lost && id in s.rows && NoCallOf(s, id)
    ensures LostWithRow(s, id)
  {}

  lemma CrashLosesRequests(s: State, s': State, id: string)
    requires Crash(s, s') && id in s.requests && !s.requests[id].Answered?
    ensures id in s'.requests && s'.requests[id] == Lost && NoCallOf(s', id) && (id in s'.rows <==> id in s.rows)
  {}
}
