/** The dispatcher as the code runs it: one drain, message by message, over the queue. */
module OutboundDispatchers {
  import opened Base
  import opened OutboxModel
  import opened OutboundQueues
  import opened Dispatch
  import opened DispatchRuns
  import opened StateDirectories

  const ACKED_RETENTION: nat := 24 * 60 * 60 * SECOND

  datatype Reply = Answer(ack: Ack) | Refusal(error: HttpError) | Lost

  datatype DeathPoint = Never | AfterFetch | AfterAllocation | AfterStore | AfterSend

  /** What the outside world does during one round: the clock, the random message id, what befalls the
      call of the allocator, the reply, and where the process dies, if it does. */
  datatype Round = Round(now: nat, messageId: string, call: Nap.Call, reply: Reply, repliedAt: nat, death: DeathPoint)

  class OutboundDispatcher {
    const cfg: Config
    const queue: OutboundQueue
    const directory: StateDirectory
    ghost var pc: Pc
    ghost var issued: seq<Envelope>
    ghost var posted: seq<Post>
    ghost var confirmed: seq<Confirmation>
    ghost var worlds: seq<World>
    ghost var actions: seq<Action>

    ghost function Now(): World
      reads this, queue, directory
    {
      World(queue.State(), directory.Contents(), pc, issued, posted, confirmed)
    }

    /** The steps recorded so far are a run that leads to the present. */
    ghost predicate Valid()
      reads this, queue, directory
    {
      queue.maxBytes == cfg.maxBytes && IsRun(cfg, worlds, actions) && worlds[|worlds| - 1] == Now()
    }

    constructor (cfg: Config, directory: StateDirectory)
      requires DigestOk(cfg)
      ensures Valid() && fresh(queue) && this.cfg == cfg && this.directory == directory
      ensures Now() == World(EMPTY, directory.Contents(), Idle, [], [], [])
    {
      this.cfg, this.directory := cfg, directory;
      queue := new OutboundQueue(cfg.maxBytes);
      pc, issued, posted, confirmed, actions := Idle, [], [], [], [];
      new;
      worlds := [Now()];
    }

    /** Records the step that has just been made. */
    ghost method Record(a: Action)
      requires IsRun(cfg, worlds, actions) && queue.maxBytes == cfg.maxBytes
      requires Step(cfg, worlds[|worlds| - 1], a, Now())
      modifies this`worlds, this`actions
      ensures Valid() && worlds == old(worlds) + [Now()] && actions == old(actions) + [a]
    {
      RunExtended(cfg, worlds, actions, a, Now());
      worlds, actions := worlds + [Now()], actions + [a];
    }

    ghost predicate Extends(before: seq<World>, steps: seq<Action>)
      reads this
    {
      before <= worlds && steps <= actions
    }

    /** The exception path: the event waits for its next try. */
    method GiveUp(k: nat, row: Row, now: nat)
      requires Valid() && !pc.Idle? && pc.k == k && pc.row == row && pc.now == now
      modifies this, queue, directory
      ensures Valid() && pc.Idle? && Extends(old(worlds), old(actions)) && confirmed == old(confirmed)
    {
      hide Step, IsRun, MarkRetry, RetryDelay;
      queue.Retry(k, now + RetryDelay(k, row));
      pc := Idle;
      FailStep(cfg, old(Now()), Now());
      Record(Fail);
    }

    ghost method Die()
      requires Valid()
      modifies this
      ensures Valid() && pc.Idle? && Extends(old(worlds), old(actions))
      ensures confirmed == old(confirmed)
    {
      pc := Idle;
      Record(Crash);
    }

    /** Makes sure that a current envelope is stored in the row, and answers with it. A row with a stored
        envelope that is not about to expire keeps it. */
    method Prepare(k: nat, row: Row, round: Round) returns (attempt: Option<Attempt>, died: bool)
      requires Valid() && pc == Fetched(k, row, round.now)
      modifies this, queue, directory
      ensures Valid() && Extends(old(worlds), old(actions)) && confirmed == old(confirmed)
      ensures attempt.Some? ==> !died && pc == Prepared(k, row, round.now, attempt.value)
      ensures attempt.None? ==> pc.Idle?
      ensures attempt.Some? && Reusable(row, round.now) ==> attempt == row.attempt && queue.State() == old(queue.State())
    {
      hide Step, IsRun, Reusable;
      died := false;
      if Reusable(row, round.now) {
        ReuseStep(cfg, Now());
        pc := Prepared(k, row, round.now, row.attempt.value);
        Record(Reuse);
        return row.attempt, false;
      }
      var sequence;
      sequence, died := AllocateNext(k, row, round);
      if sequence.None? || died {
        return None, died;
      }
      attempt, died := WriteAhead(k, row, sequence.value, round);
    }

    /** Takes the next sequence number from the files, wherever that call or the process dies. */
    method AllocateNext(k: nat, row: Row, round: Round) returns (sequence: Option<nat>, died: bool)
      requires Valid() && pc == Fetched(k, row, round.now) && !Reusable(row, round.now)
      modifies this, queue, directory
      ensures Valid() && Extends(old(worlds), old(actions)) && confirmed == old(confirmed)
      ensures if sequence.Some? && !died then pc == Allocated(k, row, round.now, sequence.value) else pc.Idle?
    {
      hide Step, IsRun, Reusable, Nap.Allocate, MarkRetry, RetryDelay;
      ghost var before := Now();
      RunDigest(cfg, worlds, actions);
      var outcome := directory.Next(cfg.digest, round.call);
      if !outcome.Returned? {
        if outcome.Refused? {
          queue.Retry(k, round.now + RetryDelay(k, row));
        }
        pc := Idle;
        FailedStep(cfg, before, round.call, Now());
        Record(AllocateFailed(round.call));
        return None, outcome.Died?;
      }
      pc := Allocated(k, row, round.now, outcome.sequence);
      AllocateStep(cfg, before, round.call, outcome.sequence, Now());
      Record(Allocate(round.call, outcome.sequence));
      sequence, died := Some(outcome.sequence), false;
      if round.death.AfterAllocation? {
        Die();
        died := true;
      }
    }

    /** Builds the envelope and stores it before anything is sent. */
    method WriteAhead(k: nat, row: Row, sequence: nat, round: Round) returns (attempt: Option<Attempt>, died: bool)
      requires Valid() && pc == Allocated(k, row, round.now, sequence)
      modifies this, queue, directory
      ensures Valid() && Extends(old(worlds), old(actions)) && confirmed == old(confirmed)
      ensures attempt.Some? ==> !died && pc == Prepared(k, row, round.now, attempt.value)
      ensures attempt.None? ==> pc.Idle?
    {
      hide Step, IsRun, StoresAttempt, NewAttempt, MarkRetry, RetryDelay;
      var built := NewAttempt(cfg, k, row, round.now, sequence, round.messageId);
      ghost var before := Now();
      var ok;
      ghost var room;
      ok, room := queue.StoreAttempt(k, built);
      if !ok {
        RefusedStep(cfg, before, round.messageId, built, room, queue.State());
        queue.Retry(k, round.now + RetryDelay(k, row));
        pc := Idle;
        Record(StoreRefused(round.messageId, room));
        return None, false;
      }
      pc := Prepared(k, row, round.now, built);
      issued := issued + [built.envelope];
      StoreStep(cfg, before, round.messageId, built, room, Now());
      Record(Store(round.messageId, room));
      if round.death.AfterStore? {
        Die();
        return None, true;
      }
      return Some(built), false;
    }

    /** Sends the stored envelope and acts on the reply. */
    method Deliver(k: nat, row: Row, attempt: Attempt, round: Round) returns (acknowledged: bool, died: bool)
      requires Valid() && pc == Prepared(k, row, round.now, attempt)
      modifies this, queue, directory
      ensures Valid() && pc.Idle? && Extends(old(worlds), old(actions))
      ensures acknowledged <==> !died && round.reply.Answer? && Confirms(
                round.reply.ack, attempt.envelope.messageId, attempt.envelope.sequence, EventId(cfg.agent, k),
                row.request.payloadHash)
      ensures confirmed == old(confirmed) + if acknowledged then [Confirmation(k, attempt, round.reply.ack)] else []
    {
      hide Step, IsRun, Confirms, EventId;
      SendStep(cfg, Now());
      pc := Sent(k, row, round.now, attempt);
      posted := posted + [Post(k, attempt)];
      Record(Send);
      if round.death.AfterSend? {
        Die();
        return false, true;
      }
      acknowledged := TakeReply(k, row, attempt, round);
      died := false;
    }

    method TakeReply(k: nat, row: Row, attempt: Attempt, round: Round) returns (acknowledged: bool)
      requires Valid() && pc == Sent(k, row, round.now, attempt)
      modifies this, queue, directory
      ensures Valid() && pc.Idle? && Extends(old(worlds), old(actions))
      ensures acknowledged <==> round.reply.Answer? && Confirms(
                round.reply.ack, attempt.envelope.messageId, attempt.envelope.sequence, EventId(cfg.agent, k),
                row.request.payloadHash)
      ensures confirmed == old(confirmed) + if acknowledged then [Confirmation(k, attempt, round.reply.ack)] else []
    {
      hide Step, IsRun, Confirms, EventId, MarkRetry, RetryDelay, MarkAcknowledged, MarkDeadLetter, PermanentRejection;
      acknowledged := false;
      match round.reply
      case Answer(ack) =>
        if Confirms(ack, attempt.envelope.messageId, attempt.envelope.sequence,
                    EventId(cfg.agent, k), row.request.payloadHash) {
          ConfirmStep(cfg, Now(), ack, round.repliedAt);
          queue.Acknowledge(k, round.repliedAt);
          pc := Idle;
          confirmed := confirmed + [Confirmation(k, attempt, ack)];
          Record(Confirm(ack, round.repliedAt));
          acknowledged := true;
        } else {
          GiveUp(k, row, round.now);
        }
      case Refusal(error) =>
        RejectStep(cfg, Now(), error);
        if PermanentRejection(error) {
          queue.DeadLetter(k);
        } else {
          queue.Retry(k, round.now + RetryDelay(k, row));
        }
        pc := Idle;
        Record(Reject(error));
      case Lost =>
        GiveUp(k, row, round.now);
    }

    /** Hands one event to the queue and drains; says whether that event is acknowledged. An event that
        finds no room is not taken, and nothing is drained for it. */
    method Submit(request: Request, at: nat, begun: nat, rounds: seq<Round>) returns (event: Option<nat>, acknowledged: bool)
      requires Valid() && pc.Idle? && |rounds| >= 32
      modifies this, queue, directory
      ensures Valid() && pc.Idle? && Extends(old(worlds), old(actions)) && Inv(cfg, Now())
      ensures acknowledged <==> event.Some? && event.value in queue.rows && queue.rows[event.value].state.Acked?
      ensures event.None? ==> queue.State() == old(queue.State())
    {
      hide Step, IsRun, Inv, Enqueues, Request.Stored;
      ghost var before := Now();
      ghost var room;
      event, room := queue.Enqueue(request, at);
      ProduceStep(cfg, before, request, at, room, event, Now());
      Record(Produce(request, at, room, event));
      LastKeepsInv(cfg, worlds, actions);
      if event.None? {
        return None, false;
      }
      var attempted, confirmations, failed, died := Drain(32, begun, rounds);
      acknowledged := event.value in queue.rows && queue.rows[event.value].state.Acked?;
    }

    /** Deletes old acknowledged rows and writes a gap marker if one is due. */
    method Begin(begun: nat)
      requires Valid() && pc.Idle?
      modifies this, queue, directory
      ensures Valid() && pc.Idle? && Extends(old(worlds), old(actions)) && confirmed == old(confirmed)
    {
      hide Step, IsRun, Enqueues, GapRequest, PruneAcknowledged, GapNeeded;
      var retained := if begun > ACKED_RETENTION then begun - ACKED_RETENTION else 0;
      PruneStep(cfg, Now(), retained);
      queue.Prune(retained);
      Record(Action.Prune(retained));
      ghost var before := Now();
      ghost var due, room, result := queue.EnqueueGapMarker(cfg.hash, begun);
      if due {
        GapStep(cfg, before, begun, room, result, Now());
        Record(Gap(begun, room, result));
      }
    }

    /** Takes one ready message through a whole round. */
    method Handle(k: nat, round: Round) returns (done: bool, died: bool)
      requires Valid() && pc.Idle? && ReadyNext(queue.rows, round.now, Some(k))
      modifies this, queue, directory
      ensures Valid() && pc.Idle? && Extends(old(worlds), old(actions))
      ensures |confirmed| == |old(confirmed)| + if done then 1 else 0
      ensures done ==> !died
    {
      hide Step, IsRun, ReadyNext, Confirms, EventId, Reusable;
      FetchStep(cfg, Now(), round.now, k);
      var row := queue.rows[k];
      pc := Fetched(k, row, round.now);
      Record(Fetch(round.now, k));
      if round.death.AfterFetch? {
        Die();
        return false, true;
      }
      var attempt;
      attempt, died := Prepare(k, row, round);
      done := false;
      if attempt.Some? {
        done, died := Deliver(k, row, attempt.value, round);
      }
    }

    /** Empties the queue as far as it goes: at most `maximum` messages, one after the other, stopping at
        the first failure. Every step it makes is a step of the state machine, wherever the process dies. */
    method Drain(maximum: nat, begun: nat, rounds: seq<Round>)
      returns (attempted: nat, acknowledged: nat, failed: nat, died: bool)
      requires Valid() && pc.Idle? && |rounds| >= maximum
      modifies this, queue, directory
      ensures Valid() && pc.Idle? && Extends(old(worlds), old(actions)) && Inv(cfg, Now())
      ensures attempted <= maximum && failed <= 1
      ensures acknowledged == |confirmed| - |old(confirmed)|
      ensures attempted == acknowledged + failed + if died then 1 else 0
    {
      hide IsRun, Inv;
      attempted, acknowledged, failed, died := Attend(maximum, begun, rounds);
      LastKeepsInv(cfg, worlds, actions);
    }

    /** The loop of the drain. */
    method Attend(maximum: nat, begun: nat, rounds: seq<Round>)
      returns (attempted: nat, acknowledged: nat, failed: nat, died: bool)
      requires Valid() && pc.Idle? && |rounds| >= maximum
      modifies this, queue, directory
      ensures Valid() && pc.Idle? && Extends(old(worlds), old(actions))
      ensures attempted <= maximum && failed <= 1
      ensures acknowledged == |confirmed| - |old(confirmed)|
      ensures attempted == acknowledged + failed + if died then 1 else 0
    {
      hide IsRun, ReadyNext;
      attempted, acknowledged, failed, died := 0, 0, 0, false;
      Begin(begun);
      while attempted < maximum
        invariant Valid() && pc.Idle? && Extends(old(worlds), old(actions))
        invariant attempted <= maximum && failed == 0 && !died && acknowledged == attempted
        invariant acknowledged == |confirmed| - |old(confirmed)|
      {
        var round := rounds[attempted];
        var next := queue.NextReady(round.now);
        if next.None? {
          return;
        }
        attempted := attempted + 1;
        var done;
        done, died := Handle(next.value, round);
        if !done {
          failed := if died then 0 else 1;
          return;
        }
        acknowledged := acknowledged + 1;
      }
    }
  }

  // ---------- The steps the methods make ----------

  lemma ReuseStep(cfg: Config, w: World)
    requires w.pc.Fetched? && Reusable(w.pc.row, w.pc.now)
    ensures w.pc.row.attempt.Some?
    ensures Step(cfg, w, Reuse, w.(pc := Prepared(w.pc.k, w.pc.row, w.pc.now, w.pc.row.attempt.value)))
  {
  }

  lemma AllocateStep(cfg: Config, w: World, call: Nap.Call, sequence: nat, w': World)
    requires w.pc.Fetched? && !Reusable(w.pc.row, w.pc.now)
    requires Nap.Allocate(cfg.digest, w.disk, call) == (w'.disk, Nap.Returned(sequence))
    requires w' == w.(disk := w'.disk, pc := Allocated(w.pc.k, w.pc.row, w.pc.now, sequence))
    ensures Step(cfg, w, Allocate(call, sequence), w')
  {
    hide Nap.Allocate, Reusable;
  }

  lemma FailedStep(cfg: Config, w: World, call: Nap.Call, w': World)
    requires w.pc.Fetched? && !Reusable(w.pc.row, w.pc.now)
    requires var (disk, outcome) := Nap.Allocate(cfg.digest, w.disk, call);
             && !outcome.Returned?
             && w' == if outcome.Died? then w.(disk := disk, pc := Idle) else Retried(w.(disk := disk))
    ensures Step(cfg, w, AllocateFailed(call), w')
  {
    hide Nap.Allocate, Reusable;
  }

  lemma LastKeepsInv(cfg: Config, ws: seq<World>, actions: seq<Action>)
    requires IsRun(cfg, ws, actions)
    ensures |ws| > 0 && Inv(cfg, ws[|ws| - 1])
  {
    hide Step, Inv, Start;
    RunKeepsInv(cfg, ws, actions, |ws| - 1);
  }

  lemma RunDigest(cfg: Config, ws: seq<World>, actions: seq<Action>)
    requires IsRun(cfg, ws, actions)
    ensures NapRecord.HexDigest(cfg.digest)
  {
    hide Step;
  }

  lemma StoreStep(cfg: Config, w: World, messageId: string, attempt: Attempt, room: Room, w': World)
    requires w.pc.Allocated? && attempt == NewAttempt(cfg, w.pc.k, w.pc.row, w.pc.now, w.pc.sequence, messageId)
    requires StoresAttempt(cfg.maxBytes, w.queue, w.pc.k, attempt, room, true, w'.queue)
    requires w' == w.(queue := w'.queue, pc := Prepared(w.pc.k, w.pc.row, w.pc.now, attempt),
                      issued := w.issued + [attempt.envelope])
    ensures Step(cfg, w, Store(messageId, room), w')
  {
  }

  lemma RefusedStep(cfg: Config, w: World, messageId: string, attempt: Attempt, room: Room, q: Queue)
    requires w.pc.Allocated? && attempt == NewAttempt(cfg, w.pc.k, w.pc.row, w.pc.now, w.pc.sequence, messageId)
    requires StoresAttempt(cfg.maxBytes, w.queue, w.pc.k, attempt, room, false, q)
    ensures q == w.queue && Step(cfg, w, StoreRefused(messageId, room), Retried(w))
  {
  }

  lemma SendStep(cfg: Config, w: World)
    requires w.pc.Prepared?
    ensures Step(cfg, w, Send, w.(pc := Sent(w.pc.k, w.pc.row, w.pc.now, w.pc.attempt),
                                  posted := w.posted + [Post(w.pc.k, w.pc.attempt)]))
  {
  }

  lemma ConfirmStep(cfg: Config, w: World, ack: Ack, at: nat)
    requires w.pc.Sent? && Confirms(ack, w.pc.attempt.envelope.messageId, w.pc.attempt.envelope.sequence,
                                    EventId(cfg.agent, w.pc.k), w.pc.row.request.payloadHash)
    ensures Step(cfg, w, Confirm(ack, at),
                 w.(queue := MarkAcknowledged(w.queue, w.pc.k, at), pc := Idle,
                    confirmed := w.confirmed + [Confirmation(w.pc.k, w.pc.attempt, ack)]))
  {
  }

  lemma RejectStep(cfg: Config, w: World, error: HttpError)
    requires w.pc.Sent?
    ensures Step(cfg, w, Reject(error),
                 if PermanentRejection(error) then w.(queue := MarkDeadLetter(w.queue, w.pc.k), pc := Idle) else Retried(w))
  {
  }

  lemma ProduceStep(cfg: Config, w: World, request: Request, at: nat, room: Room, result: Option<nat>, w': World)
    requires w' == w.(queue := w'.queue)
    requires Enqueues(cfg.maxBytes, w.queue, request, at, room, result, w'.queue)
    ensures Step(cfg, w, Produce(request, at, room, result), w')
    ensures result.None? ==> w'.queue == w.queue
  {
  }

  lemma PruneStep(cfg: Config, w: World, olderThan: nat)
    requires w.pc.Idle?
    ensures Step(cfg, w, Action.Prune(olderThan), w.(queue := PruneAcknowledged(w.queue, olderThan)))
  {
  }

  lemma GapStep(cfg: Config, w: World, at: nat, room: Room, result: Option<nat>, w': World)
    requires w.pc.Idle? && GapNeeded(w.queue) && w' == w.(queue := w'.queue)
    requires Enqueues(cfg.maxBytes, w.queue, GapRequest(w.queue.dropped, cfg.hash), at, room, result, w'.queue)
    ensures Step(cfg, w, Gap(at, room, result), w')
  {
  }

  lemma FetchStep(cfg: Config, w: World, at: nat, k: nat)
    requires w.pc.Idle? && ReadyNext(w.queue.rows, at, Some(k))
    ensures k in w.queue.rows && Step(cfg, w, Fetch(at, k), w.(pc := Fetched(k, w.queue.rows[k], at)))
  {
  }

  lemma FailStep(cfg: Config, w: World, w': World)
    requires !w.pc.Idle? && w' == Retried(w)
    ensures Step(cfg, w, Fail, w')
  {
  }
}
