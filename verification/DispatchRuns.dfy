/** What every run of the dispatcher keeps, and what follows from it. */
module DispatchRuns {
  import opened Base
  import opened OutboxModel
  import opened OutboxSafety
  import opened Dispatch

  // ---------- Steps that add or delete rows ----------

  /** Rows are untouched, added fresh under the next counter, or deleted when evictable or acknowledged. */
  ghost predicate Moves(q: Queue, q': Queue) {
    && q.nextCounter <= q'.nextCounter
    && (forall k | k in q'.rows && k in q.rows :: q'.rows[k] == q.rows[k])
    && (forall k | k in q'.rows && k !in q.rows ::
          k == q.nextCounter && q'.rows[k].attempt.None? && !q'.rows[k].state.Acked?)
    && (forall k | k in q.rows && k !in q'.rows :: q.rows[k].attemptCount == 0 || q.rows[k].state.Acked?)
  }

  lemma MovesKeepRows(cfg: Config, q: Queue, q': Queue, issued: seq<Envelope>)
    requires Moves(q, q') && RowsOk(cfg, q.rows, issued)
    ensures RowsOk(cfg, q'.rows, issued)
  {
    hide AttemptFor, DigestOk, High, Nap.SomeSlotParses, Nap.Allocate;
  }

  lemma MovesKeepPosts(cfg: Config, q: Queue, q': Queue, issued: seq<Envelope>, posted: seq<Post>)
    requires Moves(q, q') && PostsOk(cfg, q, issued, posted)
    ensures PostsOk(cfg, q', issued, posted)
  {
    hide AttemptFor, SameContent, DigestOk, High, Nap.SomeSlotParses, Nap.Allocate;
    forall p | p in posted ensures PostOk(cfg, q', issued, p) {
      assert PostOk(cfg, q, issued, p);
    }
  }

  lemma MovesKeepAcked(cfg: Config, w: World, w': World)
    requires Moves(w.queue, w'.queue) && AckedOk(cfg, w) && w'.posted == w.posted && w'.confirmed == w.confirmed
    ensures AckedOk(cfg, w')
  {
    hide ConfirmedFor, DigestOk, High, Nap.SomeSlotParses, Nap.Allocate;
  }

  lemma MovesKeepPc(cfg: Config, w: World, w': World)
    requires Moves(w.queue, w'.queue) && PcOk(cfg, w) && CountersFresh(w.queue) && AttemptsCounted(w.queue.rows)
    requires w' == w.(queue := w'.queue)
    ensures PcOk(cfg, w')
  {
  }

  lemma MovesKeepInv(cfg: Config, w: World, w': World)
    requires Inv(cfg, w) && Sound(cfg.maxBytes, w'.queue) && Moves(w.queue, w'.queue) && w' == w.(queue := w'.queue)
    ensures Inv(cfg, w')
  {
    hide Moves, IssuedOk, RowsOk, PostsOk, AckedOk, PcOk, CountersFresh, AttemptsCounted, Conserved, WithinBudget,
      ProducersDistinct, DigestOk, High, Nap.SomeSlotParses, Nap.Allocate;
    MovesKeepRows(cfg, w.queue, w'.queue, w.issued);
    MovesKeepPosts(cfg, w.queue, w'.queue, w.issued, w.posted);
    MovesKeepAcked(cfg, w, w');
    MovesKeepPc(cfg, w, w');
  }

  lemma EnqueueMoves(cfg: Config, w: World, request: Request, at: nat, room: Room, result: Option<nat>, w': World)
    requires Inv(cfg, w) && Enqueues(cfg.maxBytes, w.queue, request, at, room, result, w'.queue)
    requires w' == w.(queue := w'.queue)
    ensures Inv(cfg, w') && Moves(w.queue, w'.queue)
  {
    hide Enqueues, IssuedOk, RowsOk, PostsOk, AckedOk, PcOk, Request.Stored, CountersFresh, AttemptsCounted, Conserved,
      WithinBudget, ProducersDistinct, Sound, DigestOk, High, Nap.SomeSlotParses, Nap.Allocate;
    EnqueueKeepsSound(cfg.maxBytes, w.queue, request, at, room, result, w'.queue);
    MovesKeepInv(cfg, w, w');
  }

  lemma PruneMoves(cfg: Config, w: World, olderThan: nat)
    requires Inv(cfg, w)
    ensures Inv(cfg, w.(queue := PruneAcknowledged(w.queue, olderThan)))
    ensures Moves(w.queue, PruneAcknowledged(w.queue, olderThan))
  {
    hide IssuedOk, RowsOk, PostsOk, AckedOk, PcOk, Sound, DigestOk, High, Nap.SomeSlotParses, Nap.Allocate;
    PruneKeepsSound(cfg.maxBytes, w.queue, olderThan);
    MovesKeepInv(cfg, w, w.(queue := PruneAcknowledged(w.queue, olderThan)));
  }

  // ---------- Steps that change one row ----------

  /** One row changes its state, and nothing else about it that the rest of the world relies on. */
  ghost predicate Marks(q: Queue, k: nat, q': Queue) {
    && q'.nextCounter == q.nextCounter && q'.rows.Keys == q.rows.Keys
    && (forall j | j in q.rows && j != k :: q'.rows[j] == q.rows[j])
    && (k in q.rows ==>
          && q'.rows[k].request == q.rows[k].request && q'.rows[k].attempt == q.rows[k].attempt
          && q'.rows[k].attemptCount == q.rows[k].attemptCount)
  }

  lemma MarksKeepRows(cfg: Config, q: Queue, k: nat, q': Queue, issued: seq<Envelope>)
    requires Marks(q, k, q') && RowsOk(cfg, q.rows, issued)
    ensures RowsOk(cfg, q'.rows, issued)
  {
    hide AttemptFor, DigestOk, High, Nap.SomeSlotParses, Nap.Allocate;
    forall j | j in q'.rows && q'.rows[j].attempt.Some?
      ensures AttemptFor(cfg, j, q'.rows[j].request, q'.rows[j].attempt.value)
      ensures q'.rows[j].attempt.value.envelope in issued
    {
      assert j in q.rows && q'.rows[j].attempt == q.rows[j].attempt;
    }
  }

  lemma MarksKeepPosts(cfg: Config, q: Queue, k: nat, q': Queue, issued: seq<Envelope>, posted: seq<Post>)
    requires Marks(q, k, q') && PostsOk(cfg, q, issued, posted)
    ensures PostsOk(cfg, q', issued, posted)
  {
    hide AttemptFor, SameContent, DigestOk, High, Nap.SomeSlotParses, Nap.Allocate;
    forall p | p in posted ensures PostOk(cfg, q', issued, p) {
      assert PostOk(cfg, q, issued, p);
    }
  }

  lemma MarksKeepAcked(cfg: Config, w: World, k: nat, w': World)
    requires Marks(w.queue, k, w'.queue) && AckedOk(cfg, w)
    requires w'.posted == w.posted && forall c | c in w.confirmed :: c in w'.confirmed
    requires k in w'.queue.rows && w'.queue.rows[k].state.Acked? ==>
               exists c | c in w'.confirmed :: ConfirmedFor(cfg, w'.posted, k, w'.queue.rows[k].request, c)
    ensures AckedOk(cfg, w')
  {
    hide ConfirmedFor, DigestOk, High, Nap.SomeSlotParses, Nap.Allocate;
    forall j | j in w'.queue.rows && w'.queue.rows[j].state.Acked?
      ensures exists c | c in w'.confirmed :: ConfirmedFor(cfg, w'.posted, j, w'.queue.rows[j].request, c)
    {
      if j != k {
        var c :| c in w.confirmed && ConfirmedFor(cfg, w.posted, j, w.queue.rows[j].request, c);
        assert c in w'.confirmed;
      }
    }
  }

  lemma MarksKeepInv(cfg: Config, w: World, k: nat, w': World)
    requires Inv(cfg, w) && Sound(cfg.maxBytes, w'.queue) && Marks(w.queue, k, w'.queue)
    requires w' == w.(queue := w'.queue, pc := Idle, confirmed := w'.confirmed)
    requires forall c | c in w.confirmed :: c in w'.confirmed
    requires k in w'.queue.rows && w'.queue.rows[k].state.Acked? ==>
               exists c | c in w'.confirmed :: ConfirmedFor(cfg, w'.posted, k, w'.queue.rows[k].request, c)
    ensures Inv(cfg, w')
  {
    hide Marks, IssuedOk, RowsOk, PostsOk, AckedOk, Sound, ConfirmedFor, DigestOk, High, Nap.SomeSlotParses,
      Nap.Allocate;
    MarksKeepRows(cfg, w.queue, k, w'.queue, w.issued);
    MarksKeepPosts(cfg, w.queue, k, w'.queue, w.issued, w.posted);
    MarksKeepAcked(cfg, w, k, w');
  }

  lemma WaitingAtPc(cfg: Config, w: World)
    requires PcOk(cfg, w) && !w.pc.Idle?
    ensures w.pc.k in w.queue.rows ==> w.queue.rows[w.pc.k].Waiting()
    ensures w.pc.Sent? ==> w.pc.k in w.queue.rows && Post(w.pc.k, w.pc.attempt) in w.posted
    ensures w.pc.Sent? ==> w.queue.rows[w.pc.k].request == w.pc.row.request
  {
  }

  lemma RetryKeepsInv(cfg: Config, w: World)
    requires Inv(cfg, w) && !w.pc.Idle?
    ensures Inv(cfg, Retried(w)) && Marks(w.queue, w.pc.k, Retried(w).queue)
  {
    hide IssuedOk, RowsOk, PostsOk, AckedOk, Sound, ConfirmedFor, PcOk, DigestOk, High, Nap.SomeSlotParses,
      Nap.Allocate;
    WaitingAtPc(cfg, w);
    RetryKeepsSound(cfg.maxBytes, w.queue, w.pc.k, w.pc.now + RetryDelay(w.pc.k, w.pc.row));
    MarksKeepInv(cfg, w, w.pc.k, Retried(w));
  }

  lemma DeadLetterKeepsInv(cfg: Config, w: World)
    requires Inv(cfg, w) && w.pc.Sent?
    ensures Inv(cfg, w.(queue := MarkDeadLetter(w.queue, w.pc.k), pc := Idle))
    ensures Marks(w.queue, w.pc.k, MarkDeadLetter(w.queue, w.pc.k))
  {
    hide IssuedOk, RowsOk, PostsOk, AckedOk, Sound, ConfirmedFor, PcOk, DigestOk, High, Nap.SomeSlotParses,
      Nap.Allocate;
    WaitingAtPc(cfg, w);
    DeadLetterKeepsSound(cfg.maxBytes, w.queue, w.pc.k);
    MarksKeepInv(cfg, w, w.pc.k, w.(queue := MarkDeadLetter(w.queue, w.pc.k), pc := Idle));
  }

  lemma ConfirmKeepsInv(cfg: Config, w: World, ack: Ack, at: nat, w': World)
    requires Inv(cfg, w) && w.pc.Sent? && Step(cfg, w, Confirm(ack, at), w')
    ensures Inv(cfg, w') && Marks(w.queue, w.pc.k, w'.queue)
    ensures ConfirmedFor(cfg, w.posted, w.pc.k, w.pc.row.request, Confirmation(w.pc.k, w.pc.attempt, ack))
  {
    hide IssuedOk, RowsOk, PostsOk, AckedOk, Sound, PcOk, Confirms, DigestOk, High, Nap.SomeSlotParses, Nap.Allocate;
    WaitingAtPc(cfg, w);
    AckKeepsSound(cfg.maxBytes, w.queue, w.pc.k, at);
    var c := Confirmation(w.pc.k, w.pc.attempt, ack);
    assert ConfirmedFor(cfg, w'.posted, w.pc.k, w'.queue.rows[w.pc.k].request, c);
    assert c in w'.confirmed;
    MarksKeepInv(cfg, w, w.pc.k, w');
  }

  // ---------- Preparing and sending ----------

  lemma FetchKeepsInv(cfg: Config, w: World, at: nat, k: nat, w': World)
    requires Inv(cfg, w) && Step(cfg, w, Fetch(at, k), w')
    ensures Inv(cfg, w')
  {
    hide IssuedOk, RowsOk, PostsOk, ConfirmedFor, ProducersDistinct, WithinBudget, Conserved, DigestOk, High,
      Nap.SomeSlotParses, Nap.Allocate;
    assert RowAt(w'.queue, k, w.queue.rows[k]);
  }

  lemma ReuseKeepsInv(cfg: Config, w: World, w': World)
    requires Inv(cfg, w) && Step(cfg, w, Reuse, w')
    ensures Inv(cfg, w')
  {
    hide IssuedOk, RowsOk, PostsOk, ConfirmedFor, ProducersDistinct, WithinBudget, Conserved, CountersFresh, DigestOk,
      High, Nap.SomeSlotParses, Nap.Allocate;
    AttemptHeld(cfg, w.queue.rows, w.issued, w.pc.k);
    assert HeldAt(w'.queue, w.pc.k, w.pc.row, w.pc.row.attempt.value);
  }

  lemma AttemptHeld(cfg: Config, rows: Rows, issued: seq<Envelope>, k: nat)
    requires RowsOk(cfg, rows, issued) && k in rows && rows[k].attempt.Some?
    ensures var attempt := rows[k].attempt.value; attempt.Stored() == attempt && AttemptFor(cfg, k, rows[k].request, attempt)
  {
    hide AttemptFor;
  }

  /** A slot that parses stays, and the number of the files does not go back. */
  predicate SlotsGoOn(cfg: Config, w: World, w': World) {
    Nap.SomeSlotParses(cfg.digest, w.disk) ==>
      Nap.SomeSlotParses(cfg.digest, w'.disk) && High(cfg, w.disk) <= High(cfg, w'.disk)
  }

  /** A call on sequence files in any condition: it never takes a number back that was handed out, and a number
      it returns is above the one on the files and stays readable. */
  lemma CallKeepsDisk(cfg: Config, w: World, call: Nap.Call, w': World)
    requires DigestOk(cfg) && w'.disk == Nap.Allocate(cfg.digest, w.disk, call).0
    ensures SlotsGoOn(cfg, w, w')
    ensures var outcome := Nap.Allocate(cfg.digest, w.disk, call).1;
            outcome.Returned? ==>
              && Nap.SomeSlotParses(cfg.digest, w'.disk)
              && outcome.sequence == High(cfg, w'.disk) && outcome.sequence > High(cfg, w.disk)
  {
    hide Nap.Allocate, Nap.Durable, Nap.SomeSlotParses;
    Nap.OneCall(cfg.digest, w.disk, call);
  }

  lemma HigherKeepsInv(cfg: Config, w: World, w': World)
    requires Inv(cfg, w) && w' == w.(disk := w'.disk) && SlotsGoOn(cfg, w, w')
    ensures Inv(cfg, w')
  {
    hide RowsOk, PostsOk, ConfirmedFor, Sound, High, DigestOk, Nap.Allocate, Nap.SomeSlotParses;
  }

  lemma AllocateKeepsInv(cfg: Config, w: World, call: Nap.Call, sequence: nat, w': World)
    requires Inv(cfg, w) && Step(cfg, w, Action.Allocate(call, sequence), w')
    ensures Inv(cfg, w')
  {
    hide RowsOk, PostsOk, ConfirmedFor, Sound, Reusable, DigestOk, High, Nap.Allocate, Nap.SomeSlotParses;
    CallKeepsDisk(cfg, w, call, w');
  }

  lemma AllocateFailedKeepsInv(cfg: Config, w: World, call: Nap.Call, w': World)
    requires Inv(cfg, w) && Step(cfg, w, AllocateFailed(call), w')
    ensures Inv(cfg, w')
  {
    hide Inv, Reusable, DigestOk, High, Nap.SomeSlotParses, Nap.Allocate, MarkRetry, RetryDelay;
    var w1 := w.(disk := Nap.Allocate(cfg.digest, w.disk, call).0);
    DigestIsOk(cfg, w);
    CallKeepsDisk(cfg, w, call, w1);
    HigherKeepsInv(cfg, w, w1);
    RetryKeepsInv(cfg, w1);
    CrashKeepsInv(cfg, w1);
  }

  lemma DigestIsOk(cfg: Config, w: World)
    requires Inv(cfg, w)
    ensures DigestOk(cfg)
  {
    hide Sound, IssuedOk, RowsOk, PostsOk, AckedOk, PcOk, DigestOk, High, Nap.SomeSlotParses, Nap.Allocate;
  }

  lemma SendKeepsInv(cfg: Config, w: World, w': World)
    requires Inv(cfg, w) && w.pc.Prepared? && Step(cfg, w, Send, w')
    ensures Inv(cfg, w')
  {
    hide IssuedOk, ProducersDistinct, WithinBudget, Conserved, EventId, DigestOk, High, Nap.SomeSlotParses,
      Nap.Allocate;
    var p := Post(w.pc.k, w.pc.attempt);
    assert PostOk(cfg, w.queue, w.issued, p);
    PostMatchesRow(cfg, w, p);
    assert forall x | x in w'.posted :: x in w.posted || x == p;
    SendKeepsAcked(cfg, w, w');
  }

  /** A new post carries the same content as every earlier post of the same event. */
  lemma PostMatchesRow(cfg: Config, w: World, p: Post)
    requires PostsOk(cfg, w.queue, w.issued, w.posted)
    requires p.counter in w.queue.rows && AttemptFor(cfg, p.counter, w.queue.rows[p.counter].request, p.attempt)
    ensures forall x | x in w.posted && x.counter == p.counter ::
              SameContent(x.attempt.envelope, p.attempt.envelope) && SameContent(p.attempt.envelope, x.attempt.envelope)
  {
    forall x | x in w.posted && x.counter == p.counter
      ensures SameContent(x.attempt.envelope, p.attempt.envelope) && SameContent(p.attempt.envelope, x.attempt.envelope)
    {
      assert PostOk(cfg, w.queue, w.issued, x);
    }
  }

  lemma SendKeepsAcked(cfg: Config, w: World, w': World)
    requires AckedOk(cfg, w) && w'.queue == w.queue && w'.confirmed == w.confirmed
    requires forall x | x in w.posted :: x in w'.posted
    ensures AckedOk(cfg, w')
  {
    hide Confirms, DigestOk, High, Nap.SomeSlotParses, Nap.Allocate;
    forall k | k in w'.queue.rows && w'.queue.rows[k].state.Acked?
      ensures exists c | c in w'.confirmed :: ConfirmedFor(cfg, w'.posted, k, w'.queue.rows[k].request, c)
    {
      var c :| c in w.confirmed && ConfirmedFor(cfg, w.posted, k, w.queue.rows[k].request, c);
      assert c in w'.confirmed && ConfirmedFor(cfg, w'.posted, k, w'.queue.rows[k].request, c);
    }
  }

  // ---------- Storing an attempt ----------

  /** Rows other than k are untouched or deleted; k gets the attempt. */
  ghost predicate Attaches(q: Queue, k: nat, attempt: Attempt, q': Queue) {
    && q'.nextCounter == q.nextCounter
    && k in q.rows && k in q'.rows && q'.rows[k] == WithAttempt(q.rows[k], attempt)
    && (forall j | j in q'.rows && j != k :: j in q.rows && q'.rows[j] == q.rows[j])
    && (forall j | j in q.rows && j !in q'.rows :: q.rows[j].attemptCount == 0 || q.rows[j].state.Acked?)
  }

  lemma AttachKeepsRows(cfg: Config, q: Queue, k: nat, attempt: Attempt, q': Queue, issued: seq<Envelope>)
    requires Attaches(q, k, attempt, q') && RowsOk(cfg, q.rows, issued) && AttemptFor(cfg, k, q.rows[k].request, attempt)
    ensures RowsOk(cfg, q'.rows, issued + [attempt.envelope])
  {
    hide AttemptFor, DigestOk, High, Nap.SomeSlotParses, Nap.Allocate, Attempt.Stored;
    StoredAttempt(cfg, k, q.rows[k].request, attempt);
  }

  lemma StoredAttempt(cfg: Config, k: nat, request: Request, attempt: Attempt)
    requires AttemptFor(cfg, k, request, attempt)
    ensures var stored := attempt.Stored();
            stored.envelope == attempt.envelope && stored.Stored() == stored && AttemptFor(cfg, k, request, stored)
  {
    hide EventId;
    ColumnTwice(attempt.text);
    ColumnTwice(cfg.wire(attempt.envelope));
  }

  lemma AttachKeepsPosts(cfg: Config, q: Queue, k: nat, attempt: Attempt, q': Queue, issued: seq<Envelope>, posted: seq<Post>)
    requires Attaches(q, k, attempt, q') && PostsOk(cfg, q, issued, posted)
    ensures PostsOk(cfg, q', issued + [attempt.envelope], posted)
  {
    hide AttemptFor, SameContent, DigestOk, High, Nap.SomeSlotParses, Nap.Allocate;
    forall p | p in posted ensures PostOk(cfg, q', issued + [attempt.envelope], p) {
      assert PostOk(cfg, q, issued, p);
    }
  }

  lemma AttachKeepsAcked(cfg: Config, w: World, k: nat, attempt: Attempt, w': World)
    requires Attaches(w.queue, k, attempt, w'.queue) && AckedOk(cfg, w)
    requires w'.posted == w.posted && w'.confirmed == w.confirmed
    ensures AckedOk(cfg, w')
  {
    hide ConfirmedFor, DigestOk, High, Nap.SomeSlotParses, Nap.Allocate;
  }

  lemma AttachKeepsIssued(issued: seq<Envelope>, high: nat, envelope: Envelope)
    requires IssuedOk(issued, high) && envelope.sequence <= high
    requires forall i | 0 <= i < |issued| :: issued[i].sequence < envelope.sequence
    ensures IssuedOk(issued + [envelope], high)
  {
  }

  lemma StoreAttaches(cfg: Config, w: World, messageId: string, room: Room, w': World)
    requires Inv(cfg, w) && w.pc.Allocated? && Step(cfg, w, Store(messageId, room), w')
    ensures w'.pc.Prepared? && w'.pc.k == w.pc.k && Attaches(w.queue, w.pc.k, w'.pc.attempt, w'.queue)
    ensures Sound(cfg.maxBytes, w'.queue) && AttemptFor(cfg, w.pc.k, w.pc.row.request, w'.pc.attempt)
    ensures w.queue.rows[w.pc.k] == w.pc.row && w'.pc.attempt.envelope.sequence == w.pc.sequence
  {
    hide Sound, RowsOk, PostsOk, AckedOk, IssuedOk, StoresAttempt, DigestOk, High, Nap.SomeSlotParses, Nap.Allocate;
    var attempt := NewAttempt(cfg, w.pc.k, w.pc.row, w.pc.now, w.pc.sequence, messageId);
    StoreKeepsSound(cfg.maxBytes, w.queue, w.pc.k, attempt, room, true, w'.queue);
  }

  lemma StoreKeepsInv(cfg: Config, w: World, messageId: string, room: Room, w': World)
    requires Inv(cfg, w) && w.pc.Allocated? && Step(cfg, w, Store(messageId, room), w')
    ensures Inv(cfg, w') && Attaches(w.queue, w.pc.k, w'.pc.attempt, w'.queue)
  {
    hide Sound, RowsOk, PostsOk, AckedOk, IssuedOk, StoresAttempt, AttemptFor, NewAttempt, DigestOk, High,
      Nap.SomeSlotParses, Nap.Allocate;
    StoreAttaches(cfg, w, messageId, room, w');
    AttachKeepsRows(cfg, w.queue, w.pc.k, w'.pc.attempt, w'.queue, w.issued);
    AttachKeepsPosts(cfg, w.queue, w.pc.k, w'.pc.attempt, w'.queue, w.issued, w.posted);
    AttachKeepsAcked(cfg, w, w.pc.k, w'.pc.attempt, w');
    AttachKeepsIssued(w.issued, High(cfg, w.disk), w'.pc.attempt.envelope);
    assert HeldAt(w'.queue, w.pc.k, w'.pc.row, w'.pc.attempt);
  }

  // ---------- Every step ----------

  lemma StepKeepsInv(cfg: Config, w: World, a: Action, w': World)
    requires Inv(cfg, w) && Step(cfg, w, a, w')
    ensures Inv(cfg, w')
  {
    hide Inv, Enqueues, StoresAttempt, ReadyNext, Confirms, GapRequest, NewAttempt, DigestOk, High, Nap.SomeSlotParses,
      Nap.Allocate;
    match a
    case Produce(request, at, room, result) => EnqueueMoves(cfg, w, request, at, room, result, w');
    case Prune(olderThan) => PruneMoves(cfg, w, olderThan);
    case Gap(at, room, result) =>
      EnqueueMoves(cfg, w, GapRequest(w.queue.dropped, cfg.hash), at, room, result, w');
    case Fetch(at, k) => FetchKeepsInv(cfg, w, at, k, w');
    case Reuse => ReuseKeepsInv(cfg, w, w');
    case Allocate(call, sequence) => AllocateKeepsInv(cfg, w, call, sequence, w');
    case AllocateFailed(call) => AllocateFailedKeepsInv(cfg, w, call, w');
    case AllocateElsewhere(call) =>
      DigestIsOk(cfg, w);
      CallKeepsDisk(cfg, w, call, w');
      HigherKeepsInv(cfg, w, w');
    case Store(messageId, room) => StoreKeepsInv(cfg, w, messageId, room, w');
    case StoreRefused(_, _) => RetryKeepsInv(cfg, w);
    case Send => SendKeepsInv(cfg, w, w');
    case Confirm(ack, at) => ConfirmKeepsInv(cfg, w, ack, at, w');
    case Reject(error) =>
      RetryKeepsInv(cfg, w);
      DeadLetterKeepsInv(cfg, w);
    case Fail => RetryKeepsInv(cfg, w);
    case Crash => CrashKeepsInv(cfg, w);
  }

  lemma CrashKeepsInv(cfg: Config, w: World)
    requires Inv(cfg, w)
    ensures Inv(cfg, w.(pc := Idle))
  {
    hide IssuedOk, RowsOk, PostsOk, Sound, ConfirmedFor, DigestOk, High, Nap.SomeSlotParses, Nap.Allocate;
  }

  // ---------- Runs ----------

  /** An empty outbox beside sequence files in any condition. */
  ghost predicate Start(cfg: Config, w: World) { w == World(EMPTY, w.disk, Idle, [], [], []) && DigestOk(cfg) }

  /** A run: the worlds it passes through and the action between each two of them. */
  ghost predicate IsRun(cfg: Config, ws: seq<World>, actions: seq<Action>) {
    && |ws| == |actions| + 1 && Start(cfg, ws[0])
    && forall i | 0 <= i < |actions| :: Step(cfg, ws[i], actions[i], ws[i + 1])
  }

  lemma StartKeepsInv(cfg: Config, w: World)
    requires Start(cfg, w)
    ensures Inv(cfg, w)
  {
    EmptyIsSound(cfg.maxBytes);
  }

  /** Every world of every run satisfies the invariant. */
  lemma {:induction false} RunKeepsInv(cfg: Config, ws: seq<World>, actions: seq<Action>, i: nat)
    requires IsRun(cfg, ws, actions) && i < |ws|
    ensures Inv(cfg, ws[i])
  {
    hide Inv, Step, Start, DigestOk, High, Nap.SomeSlotParses, Nap.Allocate;
    if i == 0 {
      StartKeepsInv(cfg, ws[0]);
    } else {
      RunKeepsInv(cfg, ws, actions, i - 1);
      StepKeepsInv(cfg, ws[i - 1], actions[i - 1], ws[i]);
    }
  }

  /** Nothing is sent that is not already stored: the envelope on the wire is the one in its row. */
  lemma EnvelopesAreWrittenAhead(cfg: Config, ws: seq<World>, actions: seq<Action>, i: nat)
    requires IsRun(cfg, ws, actions) && i < |actions| && actions[i].Send?
    ensures ws[i].pc.Prepared?
    ensures var (w, k, attempt) := (ws[i], ws[i].pc.k, ws[i].pc.attempt);
            && k in w.queue.rows && StoredAs(cfg, w.queue.rows[k], attempt)
            && ws[i + 1].posted == w.posted + [Post(k, attempt)]
  {
    hide Inv, Start, DigestOk, High, Nap.SomeSlotParses, Nap.Allocate;
    RunKeepsInv(cfg, ws, actions, i);
    PreparedIsStored(cfg, ws[i], ws[i + 1]);
  }

  lemma PreparedIsStored(cfg: Config, w: World, w': World)
    requires w.pc.Prepared? && Inv(cfg, w) && Step(cfg, w, Send, w')
    ensures var (k, attempt) := (w.pc.k, w.pc.attempt);
            && k in w.queue.rows && StoredAs(cfg, w.queue.rows[k], attempt)
            && w'.posted == w.posted + [Post(k, attempt)]
  {
    hide Sound, IssuedOk, PostsOk, AckedOk, DigestOk, High, Nap.SomeSlotParses, Nap.Allocate;
    var text := cfg.wire(w.pc.attempt.envelope);
    ColumnTwice(text);
    if '\0' !in text {
      PlainColumn(text);
    }
  }

  /** The row holds this envelope, as its column keeps the text; without a NUL in it that is the whole text. */
  predicate StoredAs(cfg: Config, row: Row, attempt: Attempt) {
    var text := cfg.wire(attempt.envelope);
    && row.attempt == Some(Attempt(attempt.envelope, Column(text)))
    && (attempt.text == text || attempt.text == Column(text))
    && ('\0' !in text ==> row.attempt == Some(attempt) && attempt.text == text)
  }

  /** Two posts are for the same event exactly when they carry the same event id, and then they carry
      the same payload and hash. */
  lemma EventsKeepTheirContent(cfg: Config, ws: seq<World>, actions: seq<Action>, i: nat, p: Post, p': Post)
    requires IsRun(cfg, ws, actions) && i < |ws| && p in ws[i].posted && p' in ws[i].posted
    ensures p.counter == p'.counter <==> p.attempt.envelope.idempotencyKey == p'.attempt.envelope.idempotencyKey
    ensures p.counter == p'.counter ==> SameContent(p.attempt.envelope, p'.attempt.envelope)
  {
    hide Inv, Step, Start, EventId, SameContent, DigestOk, High, Nap.SomeSlotParses, Nap.Allocate;
    RunKeepsInv(cfg, ws, actions, i);
    PostsCarryTheirEvent(cfg, ws[i], p);
    PostsCarryTheirEvent(cfg, ws[i], p');
    if p.attempt.envelope.idempotencyKey == p'.attempt.envelope.idempotencyKey {
      EventIdsDiffer(cfg.agent, p.counter, cfg.agent, p'.counter);
    }
    if p.counter == p'.counter {
      PostsAgree(cfg, ws[i], p, p');
    }
  }

  lemma PostsCarryTheirEvent(cfg: Config, w: World, p: Post)
    requires Inv(cfg, w) && p in w.posted
    ensures p.attempt.envelope.idempotencyKey == EventId(cfg.agent, p.counter) && p.attempt.envelope in w.issued
    ensures p.counter in w.queue.rows ==> w.queue.rows[p.counter].attemptCount > 0
  {
    hide Sound, IssuedOk, RowsOk, AckedOk, PcOk, AttemptFor, EventId, DigestOk, High, Nap.SomeSlotParses, Nap.Allocate;
    assert PostOk(cfg, w.queue, w.issued, p);
  }

  lemma PostsAgree(cfg: Config, w: World, p: Post, p': Post)
    requires Inv(cfg, w) && p in w.posted && p' in w.posted && p.counter == p'.counter
    ensures SameContent(p.attempt.envelope, p'.attempt.envelope)
  {
    hide Sound, IssuedOk, RowsOk, AckedOk, PcOk, PostOk, SameContent, DigestOk, High, Nap.SomeSlotParses, Nap.Allocate;
  }

  /** No sequence number is on the wire in two different envelopes. */
  lemma SequencesIdentifyEnvelopes(cfg: Config, ws: seq<World>, actions: seq<Action>, i: nat, p: Post, p': Post)
    requires IsRun(cfg, ws, actions) && i < |ws| && p in ws[i].posted && p' in ws[i].posted
    requires p.attempt.envelope.sequence == p'.attempt.envelope.sequence
    ensures p.attempt.envelope == p'.attempt.envelope && p.counter == p'.counter
  {
    hide Step, Start, EventId, DigestOk, High, Nap.SomeSlotParses, Nap.Allocate;
    RunKeepsInv(cfg, ws, actions, i);
    PostsCarryTheirEvent(cfg, ws[i], p);
    PostsCarryTheirEvent(cfg, ws[i], p');
    IssuedOnce(ws[i].issued, High(cfg, ws[i].disk), p.attempt.envelope, p'.attempt.envelope);
    EventIdsDiffer(cfg.agent, p.counter, cfg.agent, p'.counter);
  }

  lemma IssuedOnce(issued: seq<Envelope>, high: nat, e: Envelope, e': Envelope)
    requires IssuedOk(issued, high) && e in issued && e' in issued && e.sequence == e'.sequence
    ensures e == e'
  {
  }

  /** A row becomes acknowledged only in a step that takes a reply matching the message id, the sequence
      number, the event id and the payload hash of an envelope that was sent for that row. */
  lemma AcknowledgedOnlyByConfirmation(cfg: Config, ws: seq<World>, actions: seq<Action>, i: nat, k: nat)
    requires IsRun(cfg, ws, actions) && i < |actions|
    requires k in ws[i + 1].queue.rows && ws[i + 1].queue.rows[k].state.Acked?
    requires !(k in ws[i].queue.rows && ws[i].queue.rows[k].state.Acked?)
    ensures actions[i].Confirm? && ws[i].pc.Sent? && ws[i].pc.k == k
    ensures ConfirmedFor(cfg, ws[i].posted, k, ws[i + 1].queue.rows[k].request,
                         Confirmation(k, ws[i].pc.attempt, actions[i].ack))
  {
    RunKeepsInv(cfg, ws, actions, i);
    NewlyAcked(cfg, ws[i], actions[i], ws[i + 1], k);
  }

  lemma NewlyAcked(cfg: Config, w: World, a: Action, w': World, k: nat)
    requires Inv(cfg, w) && Step(cfg, w, a, w')
    requires k in w'.queue.rows && w'.queue.rows[k].state.Acked?
    requires !(k in w.queue.rows && w.queue.rows[k].state.Acked?)
    ensures a.Confirm? && w.pc.Sent? && w.pc.k == k
    ensures ConfirmedFor(cfg, w.posted, k, w'.queue.rows[k].request, Confirmation(k, w.pc.attempt, a.ack))
  {
    hide Inv, Enqueues, StoresAttempt, ReadyNext, Confirms, GapRequest, NewAttempt, ConfirmedFor, EventId, DigestOk,
      High, Nap.SomeSlotParses, Nap.Allocate;
    match a
    case Produce(request, at, room, result) => EnqueueMoves(cfg, w, request, at, room, result, w');
    case Prune(olderThan) => PruneMoves(cfg, w, olderThan);
    case Gap(at, room, result) =>
      EnqueueMoves(cfg, w, GapRequest(w.queue.dropped, cfg.hash), at, room, result, w');
    case Store(messageId, room) => StoreKeepsInv(cfg, w, messageId, room, w');
    case Confirm(ack, at) => ConfirmKeepsInv(cfg, w, ack, at, w'); WaitingAtSent(cfg, w);
    case _ =>
  }

  lemma WaitingAtSent(cfg: Config, w: World)
    requires Inv(cfg, w) && w.pc.Sent?
    ensures w.pc.k in w.queue.rows && w.queue.rows[w.pc.k].request == w.pc.row.request
  {
    hide Sound, IssuedOk, RowsOk, PostsOk, AckedOk, DigestOk, High, Nap.SomeSlotParses, Nap.Allocate;
  }

  /** An event that was ever attempted leaves the table only after it was acknowledged. */
  lemma AttemptedIsNeverDropped(cfg: Config, ws: seq<World>, actions: seq<Action>, i: nat, k: nat)
    requires IsRun(cfg, ws, actions) && i < |actions|
    requires k in ws[i].queue.rows && k !in ws[i + 1].queue.rows
    requires ws[i].queue.rows[k].attemptCount > 0 || exists p | p in ws[i].posted :: p.counter == k
    ensures ws[i].queue.rows[k].state.Acked?
  {
    RunKeepsInv(cfg, ws, actions, i);
    if p :| p in ws[i].posted && p.counter == k {
      PostsCarryTheirEvent(cfg, ws[i], p);
    }
    Vanished(cfg, ws[i], actions[i], ws[i + 1], k);
  }

  lemma Vanished(cfg: Config, w: World, a: Action, w': World, k: nat)
    requires Inv(cfg, w) && Step(cfg, w, a, w') && k in w.queue.rows && k !in w'.queue.rows
    ensures w.queue.rows[k].attemptCount == 0 || w.queue.rows[k].state.Acked?
  {
    hide Inv, Enqueues, StoresAttempt, ReadyNext, Confirms, GapRequest, NewAttempt, EventId, DigestOk, High,
      Nap.SomeSlotParses, Nap.Allocate;
    match a
    case Produce(request, at, room, result) => EnqueueMoves(cfg, w, request, at, room, result, w');
    case Prune(olderThan) => PruneMoves(cfg, w, olderThan);
    case Gap(at, room, result) =>
      EnqueueMoves(cfg, w, GapRequest(w.queue.dropped, cfg.hash), at, room, result, w');
    case Store(messageId, room) => StoreKeepsInv(cfg, w, messageId, room, w');
    case _ =>
  }

  /** At every moment of every run the unacknowledged rows fit the budget, and every accepted event is held,
      counted as dropped, or acknowledged and deleted. */
  lemma OutboxAccounts(cfg: Config, ws: seq<World>, actions: seq<Action>, i: nat)
    requires IsRun(cfg, ws, actions) && i < |ws|
    ensures var q := ws[i].queue;
            && (cfg.maxBytes > 0 ==> Used(q.rows) <= cfg.maxBytes)
            && q.nextCounter - 1 == |q.rows| + q.dropped + q.removedAcked
  {
    hide IssuedOk, RowsOk, PostsOk, AckedOk, PcOk, Used, Step, DigestOk, High, Nap.SomeSlotParses, Nap.Allocate;
    RunKeepsInv(cfg, ws, actions, i);
  }

  /** A counter enters the table at most once in a run, even after its row was pruned: a later event has
      a larger counter, and so another event id. */
  lemma EventIdsAreNeverReused(cfg: Config, ws: seq<World>, actions: seq<Action>, i: nat, j: nat, k: nat, k': nat)
    requires IsRun(cfg, ws, actions) && i < j < |actions|
    requires k !in ws[i].queue.rows && k in ws[i + 1].queue.rows
    requires k' !in ws[j].queue.rows && k' in ws[j + 1].queue.rows
    ensures k < k' && EventId(cfg.agent, k) != EventId(cfg.agent, k')
  {
    hide Step, Inv, EventId, DigestOk, High, Nap.SomeSlotParses, Nap.Allocate;
    RunKeepsInv(cfg, ws, actions, i);
    RunKeepsInv(cfg, ws, actions, i + 1);
    RunKeepsInv(cfg, ws, actions, j);
    Entered(cfg, ws[i], actions[i], ws[i + 1]);
    Entered(cfg, ws[j], actions[j], ws[j + 1]);
    CountersGrow(cfg, ws, actions, i + 1, j);
    Known(cfg, ws[i + 1], k);
    if EventId(cfg.agent, k) == EventId(cfg.agent, k') {
      EventIdsDiffer(cfg.agent, k, cfg.agent, k');
    }
  }

  lemma Known(cfg: Config, w: World, k: nat)
    requires Inv(cfg, w) && k in w.queue.rows
    ensures k < w.queue.nextCounter
  {
    hide IssuedOk, RowsOk, PostsOk, AckedOk, PcOk, WithinBudget, ProducersDistinct, DigestOk, High, Nap.SomeSlotParses,
      Nap.Allocate;
  }

  lemma Entered(cfg: Config, w: World, a: Action, w': World)
    requires Inv(cfg, w) && Step(cfg, w, a, w')
    ensures w.queue.nextCounter <= w'.queue.nextCounter
    ensures forall k | k in w'.queue.rows && k !in w.queue.rows :: k == w.queue.nextCounter
  {
    hide Inv, Enqueues, StoresAttempt, ReadyNext, Confirms, GapRequest, NewAttempt, EventId, DigestOk, High,
      Nap.SomeSlotParses, Nap.Allocate;
    match a
    case Produce(request, at, room, result) => EnqueueMoves(cfg, w, request, at, room, result, w');
    case Prune(olderThan) => PruneMoves(cfg, w, olderThan);
    case Gap(at, room, result) =>
      EnqueueMoves(cfg, w, GapRequest(w.queue.dropped, cfg.hash), at, room, result, w');
    case Store(messageId, room) => StoreKeepsInv(cfg, w, messageId, room, w');
    case _ =>
  }

  lemma {:induction false} CountersGrow(cfg: Config, ws: seq<World>, actions: seq<Action>, i: nat, j: nat)
    requires IsRun(cfg, ws, actions) && i <= j < |ws|
    ensures ws[i].queue.nextCounter <= ws[j].queue.nextCounter
    decreases j - i
  {
    hide Step, Inv, Start, DigestOk, High, Nap.SomeSlotParses, Nap.Allocate;
    if i < j {
      RunKeepsInv(cfg, ws, actions, i);
      Entered(cfg, ws[i], actions[i], ws[i + 1]);
      CountersGrow(cfg, ws, actions, i + 1, j);
    }
  }

  // ---------- Gap markers over runs ----------

  ghost predicate GapStays(q: Queue, q': Queue) {
    q'.dropped >= q.dropped && GapRowsStay(q, q')
  }

  /** Steps other than enqueueing leave the markers as they are, and only an acknowledgement reports. */
  lemma QuietGaps(cfg: Config, w: World, a: Action, w': World)
    requires Inv(cfg, w) && Step(cfg, w, a, w') && !a.Produce? && !a.Gap?
    ensures GapStays(w.queue, w'.queue) && w'.queue.nextCounter == w.queue.nextCounter
    ensures a.Confirm? ==> w.pc.Sent? && w.pc.k in w.queue.rows && w'.queue.dropped == w.queue.dropped
    ensures w'.queue.reported == if a.Confirm? && w.queue.rows[w.pc.k].IsGap()
                                 then ReportedWith(w.queue.reported, w.queue.rows[w.pc.k].request.findingKey)
                                 else w.queue.reported
  {
    hide Inv, StoresAttempt, ReadyNext, Confirms, NewAttempt, ReportedWith, Nap.Allocate, RetryDelay,
      PermanentRejection, EventId, Reusable, DigestOk, High, Nap.SomeSlotParses, GapRowsStay, MarkRetry,
      MarkDeadLetter, MarkAcknowledged, PruneAcknowledged;
    PcWaits(cfg, w);
    SameGaps(w.queue);
    if !w.pc.Idle? {
      RetriedGaps(w.queue, w.pc.k, w.pc.now + RetryDelay(w.pc.k, w.pc.row));
      DeadGaps(w.queue, w.pc.k);
    }
    match a
    case Store(messageId, room) =>
      SoundNow(cfg, w);
      StoredGaps(cfg, w, messageId, room, w');
    case Prune(olderThan) => PrunedGaps(w.queue, olderThan);
    case Confirm(ack, at) => AckedGaps(w.queue, w.pc.k, at);
    case _ =>
  }

  lemma SameGaps(q: Queue)
    ensures GapStays(q, q)
  {
  }

  lemma StoredGaps(cfg: Config, w: World, messageId: string, room: Room, w': World)
    requires Sound(cfg.maxBytes, w.queue) && Step(cfg, w, Store(messageId, room), w')
    requires w.pc.k in w.queue.rows ==> w.queue.rows[w.pc.k].Waiting()
    ensures GapStays(w.queue, w'.queue) && w'.queue.nextCounter == w.queue.nextCounter && w'.queue.reported == w.queue.reported
  {
    hide Sound, StoresAttempt, NewAttempt, Row.Evictable, DigestOk, High, Nap.SomeSlotParses, Nap.Allocate, Used,
      Row.Size;
    StoreKeepsSound(cfg.maxBytes, w.queue, w.pc.k,
                    NewAttempt(cfg, w.pc.k, w.pc.row, w.pc.now, w.pc.sequence, messageId), room, true, w'.queue);
  }

  lemma PrunedGaps(q: Queue, olderThan: nat)
    ensures var q' := PruneAcknowledged(q, olderThan);
            GapStays(q, q') && q'.nextCounter == q.nextCounter && q'.reported == q.reported
  {
  }

  lemma AckedGaps(q: Queue, k: nat, at: nat)
    requires k in q.rows
    ensures var q' := MarkAcknowledged(q, k, at);
            && GapStays(q, q') && q'.nextCounter == q.nextCounter && q'.dropped == q.dropped
            && q'.reported == if q.rows[k].IsGap() then ReportedWith(q.reported, q.rows[k].request.findingKey) else q.reported
  {
    hide ReportedWith;
  }

  lemma RetriedGaps(q: Queue, k: nat, at: nat)
    requires k in q.rows ==> q.rows[k].Waiting()
    ensures var q' := MarkRetry(q, k, at); GapStays(q, q') && q'.nextCounter == q.nextCounter && q'.reported == q.reported
  {
  }

  lemma DeadGaps(q: Queue, k: nat)
    ensures var q' := MarkDeadLetter(q, k); GapStays(q, q') && q'.nextCounter == q.nextCounter && q'.reported == q.reported
  {
  }

  lemma PcWaits(cfg: Config, w: World)
    requires Inv(cfg, w)
    ensures !w.pc.Idle? && w.pc.k in w.queue.rows ==> w.queue.rows[w.pc.k].Waiting()
    ensures w.pc.Sent? ==> w.pc.k in w.queue.rows
  {
    hide Sound, IssuedOk, RowsOk, PostsOk, AckedOk, DigestOk, High, Nap.SomeSlotParses, Nap.Allocate;
  }

  lemma SoundNow(cfg: Config, w: World)
    requires Inv(cfg, w)
    ensures Sound(cfg.maxBytes, w.queue)
  {
    hide Sound, IssuedOk, RowsOk, PostsOk, AckedOk, PcOk, DigestOk, High, Nap.SomeSlotParses, Nap.Allocate;
  }

  /** The producers so far have left the gap marker's finding type to the queue. */
  predicate TypeLeftFree(actions: seq<Action>) {
    forall i | 0 <= i < |actions| && actions[i].Produce? :: ProducerRequest(actions[i].request.Stored())
  }

  lemma StepKeepsGaps(cfg: Config, w: World, a: Action, w': World)
    requires Inv(cfg, w) && Step(cfg, w, a, w') && GapsSound(w.queue)
    requires a.Produce? ==> ProducerRequest(a.request.Stored())
    ensures GapsSound(w'.queue)
  {
    hide Inv, Step, GapsSound, CastInteger, Enqueues, DigestOk, High, Nap.SomeSlotParses, Nap.Allocate;
    SoundNow(cfg, w);
    if a.Produce? || a.Gap? {
      EnqueueGaps(cfg, w, a, w');
    } else {
      QuietGaps(cfg, w, a, w');
      ReportedStays(cfg, w, a, w');
      GapsStay(w.queue, w'.queue);
    }
  }

  lemma EnqueueGaps(cfg: Config, w: World, a: Action, w': World)
    requires Sound(cfg.maxBytes, w.queue) && Step(cfg, w, a, w') && GapsSound(w.queue) && (a.Produce? || a.Gap?)
    requires a.Produce? ==> ProducerRequest(a.request.Stored())
    ensures GapsSound(w'.queue)
  {
    hide Sound, GapsSound, Enqueues, GapRequest, GapRequestAllowed, Request.Stored, DigestOk, High, Nap.SomeSlotParses,
      Nap.Allocate;
    var request := if a.Produce? then a.request else GapRequest(w.queue.dropped, cfg.hash);
    if a.Gap? {
      GapMarkerAllowed(w.queue, cfg.hash);
    }
    EnqueueKeepsGaps(cfg.maxBytes, w.queue, request, a.at, a.room, a.result, w'.queue);
  }

  lemma ReportedStays(cfg: Config, w: World, a: Action, w': World)
    requires GapsSound(w.queue) && w'.queue.dropped >= w.queue.dropped
    requires a.Confirm? ==> w.pc.Sent? && w.pc.k in w.queue.rows
    requires w'.queue.reported == if a.Confirm? && w.queue.rows[w.pc.k].IsGap()
                                  then ReportedWith(w.queue.reported, w.queue.rows[w.pc.k].request.findingKey)
                                  else w.queue.reported
    ensures w'.queue.reported <= w'.queue.dropped
  {
    hide CastInteger, DigestOk, High, Nap.SomeSlotParses, Nap.Allocate;
  }

  /** While producers leave the reserved type free, no more drops are reported than there were, and at most
      one marker is waiting. */
  lemma {:induction false} GapMarkersTellTheTruth(cfg: Config, ws: seq<World>, actions: seq<Action>, i: nat)
    requires IsRun(cfg, ws, actions) && i < |ws| && TypeLeftFree(actions[..i])
    ensures GapsSound(ws[i].queue)
  {
    hide Inv, Step, GapsSound, ProducerRequest, DigestOk, High, Nap.SomeSlotParses, Nap.Allocate;
    if i == 0 {
      NoGapsYet();
    } else {
      assert forall j | 0 <= j < i - 1 :: actions[..i - 1][j] == actions[..i][j];
      assert actions[i - 1] == actions[..i][i - 1];
      GapMarkersTellTheTruth(cfg, ws, actions, i - 1);
      RunKeepsInv(cfg, ws, actions, i - 1);
      StepKeepsGaps(cfg, ws[i - 1], actions[i - 1], ws[i]);
    }
  }

  lemma NoGapsYet()
    ensures GapsSound(EMPTY)
  {
  }

  // ---------- Exactly when the markers are right ----------

  /** The acknowledged row is no marker that claims more than was dropped. */
  predicate ClaimsWithin(w: World) {
    w.pc.Sent? && w.pc.k in w.queue.rows && w.queue.rows[w.pc.k].IsGap()
    ==> CastInteger(w.queue.rows[w.pc.k].request.findingKey) <= w.queue.dropped
  }

  ghost predicate ReportsWithin(w: World) { w.queue.reported <= w.queue.dropped }

  lemma ReportStep(cfg: Config, w: World, a: Action, w': World)
    requires Inv(cfg, w) && Step(cfg, w, a, w') && ReportsWithin(w)
    ensures ReportsWithin(w') <==> (a.Confirm? ==> ClaimsWithin(w))
  {
    hide Inv, Step, CastInteger, Enqueues, GapRowsStay, DigestOk, High, Nap.SomeSlotParses, Nap.Allocate;
    if a.Produce? || a.Gap? {
      EnqueueMovesCounters(cfg, w, a, w');
    } else {
      QuietGaps(cfg, w, a, w');
    }
  }

  lemma EnqueueMovesCounters(cfg: Config, w: World, a: Action, w': World)
    requires Inv(cfg, w) && Step(cfg, w, a, w') && (a.Produce? || a.Gap?)
    ensures var request := if a.Produce? then a.request else GapRequest(w.queue.dropped, cfg.hash);
            && Enqueues(cfg.maxBytes, w.queue, request, a.at, a.room, a.result, w'.queue)
            && w'.queue.dropped >= w.queue.dropped && w'.queue.reported == w.queue.reported
  {
    hide Inv, Sound, Enqueues, GapRequest, GapNeeded, DigestOk, High, Nap.SomeSlotParses, Nap.Allocate;
    SoundNow(cfg, w);
    var request := if a.Produce? then a.request else GapRequest(w.queue.dropped, cfg.hash);
    EnqueueKeepsSound(cfg.maxBytes, w.queue, request, a.at, a.room, a.result, w'.queue);
  }

  /** Over any run, whatever producers hand in: the reported drops stay within the dropped ones exactly when
      no marker that is acknowledged claims more than was dropped. */
  lemma ReportsExactly(cfg: Config, ws: seq<World>, actions: seq<Action>)
    requires IsRun(cfg, ws, actions)
    ensures (forall i | 0 <= i < |ws| :: ReportsWithin(ws[i]))
            <==> (forall i | 0 <= i < |actions| && actions[i].Confirm? :: ClaimsWithin(ws[i]))
  {
    hide Step, Inv, ClaimsWithin, DigestOk, High, Nap.SomeSlotParses, Nap.Allocate;
    if forall i | 0 <= i < |ws| :: ReportsWithin(ws[i]) {
      forall i | 0 <= i < |actions| && actions[i].Confirm? ensures ClaimsWithin(ws[i]) {
        RunKeepsInv(cfg, ws, actions, i);
        ReportStep(cfg, ws[i], actions[i], ws[i + 1]);
      }
    }
    if forall i | 0 <= i < |actions| && actions[i].Confirm? :: ClaimsWithin(ws[i]) {
      forall i | 0 <= i < |ws| ensures ReportsWithin(ws[i]) { ReportsSoFar(cfg, ws, actions, i); }
    }
  }

  lemma {:induction false} ReportsSoFar(cfg: Config, ws: seq<World>, actions: seq<Action>, i: nat)
    requires IsRun(cfg, ws, actions) && i < |ws|
    requires forall j | 0 <= j < |actions| && actions[j].Confirm? :: ClaimsWithin(ws[j])
    ensures ReportsWithin(ws[i])
  {
    hide Step, Inv, ClaimsWithin, DigestOk, High, Nap.SomeSlotParses, Nap.Allocate;
    if i > 0 {
      ReportsSoFar(cfg, ws, actions, i - 1);
      RunKeepsInv(cfg, ws, actions, i - 1);
      ReportStep(cfg, ws[i - 1], actions[i - 1], ws[i]);
    }
  }

  /** A producer hands in a request of the reserved type that the queue has room for and does not hold yet,
      while a marker waits that is not sacrificed for it. */
  ghost predicate SecondMarker(cfg: Config, w: World, a: Action) {
    && a.Produce? && a.request.Stored().findingType == GAP
    && Taken(cfg.maxBytes, w.queue, a.request)
    && OtherMarker(w.queue.rows, a.room.victims)
  }

  lemma MarkerStep(cfg: Config, w: World, a: Action, w': World)
    requires Inv(cfg, w) && Step(cfg, w, a, w') && OneMarker(w.queue.rows)
    ensures OneMarker(w'.queue.rows) <==> !SecondMarker(cfg, w, a)
  {
    hide Inv, Step, Enqueues, Taken, Request.Stored, GapRequest, DigestOk, High, Nap.SomeSlotParses, Nap.Allocate;
    if a.Produce? || a.Gap? {
      EnqueueStep(cfg, w, a, w');
    } else {
      QuietGaps(cfg, w, a, w');
    }
  }

  lemma EnqueueStep(cfg: Config, w: World, a: Action, w': World)
    requires Inv(cfg, w) && Step(cfg, w, a, w') && OneMarker(w.queue.rows) && (a.Produce? || a.Gap?)
    ensures OneMarker(w'.queue.rows) <==> !SecondMarker(cfg, w, a)
  {
    hide Inv, Enqueues, Taken, Request.Stored, GapRequest, OneMarker, DigestOk, High, Nap.SomeSlotParses, Nap.Allocate;
    SoundNow(cfg, w);
    var request := if a.Produce? then a.request else GapRequest(w.queue.dropped, cfg.hash);
    EnqueuedMarkers(cfg.maxBytes, w.queue, request, a.at, a.room, a.result, w'.queue);
  }

  /** Over any run at most one marker waits exactly when no producer hands in a second one that is taken. */
  lemma MarkersExactly(cfg: Config, ws: seq<World>, actions: seq<Action>)
    requires IsRun(cfg, ws, actions)
    ensures (forall i | 0 <= i < |ws| :: OneMarker(ws[i].queue.rows))
            <==> (forall i | 0 <= i < |actions| :: !SecondMarker(cfg, ws[i], actions[i]))
  {
    hide Step, Inv, SecondMarker, OneMarker, DigestOk, High, Nap.SomeSlotParses, Nap.Allocate;
    if forall i | 0 <= i < |ws| :: OneMarker(ws[i].queue.rows) {
      forall i | 0 <= i < |actions| ensures !SecondMarker(cfg, ws[i], actions[i]) {
        RunKeepsInv(cfg, ws, actions, i);
        MarkerStep(cfg, ws[i], actions[i], ws[i + 1]);
      }
    }
    if forall i | 0 <= i < |actions| :: !SecondMarker(cfg, ws[i], actions[i]) {
      forall i | 0 <= i < |ws| ensures OneMarker(ws[i].queue.rows) { MarkersSoFar(cfg, ws, actions, i); }
    }
  }

  lemma {:induction false} MarkersSoFar(cfg: Config, ws: seq<World>, actions: seq<Action>, i: nat)
    requires IsRun(cfg, ws, actions) && i < |ws|
    requires forall j | 0 <= j < |actions| :: !SecondMarker(cfg, ws[j], actions[j])
    ensures OneMarker(ws[i].queue.rows)
  {
    hide Step, Inv, SecondMarker, DigestOk, High, Nap.SomeSlotParses, Nap.Allocate;
    if i > 0 {
      MarkersSoFar(cfg, ws, actions, i - 1);
      RunKeepsInv(cfg, ws, actions, i - 1);
      MarkerStep(cfg, ws[i - 1], actions[i - 1], ws[i]);
    }
  }

  /** Two producers that use the reserved type make two markers wait. */
  lemma ForeignMarkersCanDouble(cfg: Config, disk: Nap.Disk) returns (ws: seq<World>, actions: seq<Action>)
    requires cfg.maxBytes == 0 && DigestOk(cfg)
    ensures IsRun(cfg, ws, actions) && !OneMarker(ws[|ws| - 1].queue.rows)
  {
    hide Request.Stored, Enqueues, DigestOk, High, Nap.SomeSlotParses, Nap.Allocate;
    var p, r := ForeignMarker("p"), ForeignMarker("r");
    ForeignMarkerIsStored("p");
    ForeignMarkerIsStored("r");
    var q1 := EMPTY.(rows := EMPTY.rows[1 := NewRow(p, 0)], nextCounter := 2);
    var q2 := q1.(rows := q1.rows[2 := NewRow(r, 0)], nextCounter := 3);
    TakenWithoutBudget(EMPTY, p, 0);
    assert forall k :: !HasProducer(q1.rows, r.producerKey, k) by { assert "p"[0] != "r"[0]; }
    TakenWithoutBudget(q1, r, 0);
    var w0 := World(EMPTY, disk, Idle, [], [], []);
    var room := Room({}, []);
    ws := [w0, w0.(queue := q1), w0.(queue := q2)];
    actions := [Produce(p, 0, room, Some(1)), Produce(r, 0, room, Some(2))];
    assert Step(cfg, ws[0], actions[0], ws[1]) && Step(cfg, ws[1], actions[1], ws[2]);
    assert q2.rows[1].IsGap() && q2.rows[2].IsGap() && q2.rows[1].Waiting() && q2.rows[2].Waiting();
  }

  // ---------- A marker that was given up ----------

  /** The marker for the drops counted so far was given up, and no other one is waiting. */
  ghost predicate Silenced(cfg: Config, q: Queue, k: nat) {
    && k in q.rows && q.rows[k].state.DeadLetter?
    && q.rows[k].request.producerKey == GapRequest(q.dropped, cfg.hash).Stored().producerKey
    && !GapOutstanding(q.rows)
  }

  lemma DeadStays(cfg: Config, w: World, a: Action, w': World, k: nat)
    requires Inv(cfg, w) && Step(cfg, w, a, w') && k in w.queue.rows && w.queue.rows[k].state.DeadLetter?
    ensures k in w'.queue.rows && w'.queue.rows[k] == w.queue.rows[k]
  {
    hide Inv, Sound, Enqueues, StoresAttempt, ReadyNext, Confirms, GapRequest, NewAttempt, EventId, ReportedWith,
      RetryDelay, PermanentRejection, Reusable, Used, Row.Size, DigestOk, High, Nap.SomeSlotParses, Nap.Allocate;
    SoundNow(cfg, w);
    PcWaits(cfg, w);
    if a.Produce? || a.Gap? {
      EnqueueMovesCounters(cfg, w, a, w');
      var request := if a.Produce? then a.request else GapRequest(w.queue.dropped, cfg.hash);
      EnqueueKeepsSound(cfg.maxBytes, w.queue, request, a.at, a.room, a.result, w'.queue);
    } else if a.Store? {
      var attempt := NewAttempt(cfg, w.pc.k, w.pc.row, w.pc.now, w.pc.sequence, a.messageId);
      StoreKeepsSound(cfg.maxBytes, w.queue, w.pc.k, attempt, a.room, true, w'.queue);
    }
  }

  lemma SilentStep(cfg: Config, w: World, a: Action, w': World, k: nat)
    requires Inv(cfg, w) && Step(cfg, w, a, w') && Silenced(cfg, w.queue, k) && w'.queue.dropped == w.queue.dropped
    requires a.Produce? ==> ProducerRequest(a.request.Stored())
    ensures Silenced(cfg, w'.queue, k) && w'.queue.reported == w.queue.reported
  {
    hide Inv, Step, Enqueues, GapRequest, Request.Stored, CastInteger, ReportedWith, DigestOk, High,
      Nap.SomeSlotParses, Nap.Allocate;
    DeadStays(cfg, w, a, w', k);
    if a.Produce? || a.Gap? {
      SilentEnqueue(cfg, w, a, w', k);
    } else {
      QuietGaps(cfg, w, a, w');
      PcWaits(cfg, w);
    }
  }

  lemma SilentEnqueue(cfg: Config, w: World, a: Action, w': World, k: nat)
    requires Inv(cfg, w) && Step(cfg, w, a, w') && Silenced(cfg, w.queue, k) && (a.Produce? || a.Gap?)
    requires a.Produce? ==> ProducerRequest(a.request.Stored())
    ensures !GapOutstanding(w'.queue.rows) && w'.queue.reported == w.queue.reported
  {
    hide Inv, Step, Sound, Enqueues, RoomExists, GapRequest, Request.Stored, Row.Evictable, DigestOk, High,
      Nap.SomeSlotParses, Nap.Allocate;
    SoundNow(cfg, w);
    EnqueueMovesCounters(cfg, w, a, w');
    var request := if a.Produce? then a.request else GapRequest(w.queue.dropped, cfg.hash);
    EnqueueKeepsSound(cfg.maxBytes, w.queue, request, a.at, a.room, a.result, w'.queue);
    if a.Gap? {
      TakenExactly(cfg.maxBytes, w.queue, request, a.at, a.room, a.result, w'.queue);
      assert HasProducer(w.queue.rows, request.Stored().producerKey, k);
    }
  }

  lemma DroppedGrow(cfg: Config, ws: seq<World>, actions: seq<Action>, i: nat)
    requires IsRun(cfg, ws, actions) && i < |actions|
    ensures ws[i].queue.dropped <= ws[i + 1].queue.dropped
  {
    hide Inv, Step, Start, Enqueues, GapRequest, GapRowsStay, DigestOk, High, Nap.SomeSlotParses, Nap.Allocate;
    RunKeepsInv(cfg, ws, actions, i);
    if actions[i].Produce? || actions[i].Gap? {
      EnqueueMovesCounters(cfg, ws[i], actions[i], ws[i + 1]);
    } else {
      QuietGaps(cfg, ws[i], actions[i], ws[i + 1]);
    }
  }

  lemma StillFree(actions: seq<Action>, i: nat, j: nat)
    requires i < j <= |actions| && TypeLeftFree(actions[i..j])
    ensures TypeLeftFree(actions[i..j - 1])
    ensures actions[j - 1].Produce? ==> ProducerRequest(actions[j - 1].request.Stored())
  {
    hide ProducerRequest, Request.Stored;
    var all, front := actions[i..j], actions[i..j - 1];
    forall n | 0 <= n < |front| && front[n].Produce? ensures ProducerRequest(front[n].request.Stored()) {
      assert front[n] == all[n];
    }
    assert all[|all| - 1] == actions[j - 1];
  }

  /** Once the marker for some drops is given up, these drops stay unreported for as long as no other event is
      dropped: no later marker waits, and the reported drops do not change. */
  lemma {:induction false} GivenUpStaysUnreported(cfg: Config, ws: seq<World>, actions: seq<Action>, i: nat, j: nat, k: nat)
    requires IsRun(cfg, ws, actions) && i <= j < |ws| && TypeLeftFree(actions[i..j])
    requires Silenced(cfg, ws[i].queue, k)
    ensures ws[i].queue.dropped <= ws[j].queue.dropped
    ensures ws[j].queue.dropped == ws[i].queue.dropped ==>
              Silenced(cfg, ws[j].queue, k) && ws[j].queue.reported == ws[i].queue.reported
    decreases j
  {
    hide Inv, Step, Start, Silenced, TypeLeftFree, DigestOk, High, Nap.SomeSlotParses, Nap.Allocate;
    if i < j {
      StillFree(actions, i, j);
      GivenUpStaysUnreported(cfg, ws, actions, i, j - 1, k);
      DroppedGrow(cfg, ws, actions, j - 1);
      RunKeepsInv(cfg, ws, actions, j - 1);
      if ws[j].queue.dropped == ws[i].queue.dropped {
        SilentStep(cfg, ws[j - 1], actions[j - 1], ws[j], k);
      }
    }
  }

  // ---------- Extending runs ----------

  lemma RunExtended(cfg: Config, ws: seq<World>, actions: seq<Action>, a: Action, w: World)
    requires IsRun(cfg, ws, actions) && Step(cfg, ws[|ws| - 1], a, w)
    ensures IsRun(cfg, ws + [w], actions + [a])
  {
    hide Step, Start, DigestOk, High, Nap.SomeSlotParses, Nap.Allocate;
  }

  // ---------- Retrying ----------

  lemma ShiftedFive()
    ensures Shifted(5, 0) == 5 && Shifted(5, 1) == 10 && Shifted(5, 2) == 20 && Shifted(5, 3) == 40
    ensures Shifted(5, 4) == 80 && Shifted(5, 5) == 160 && Shifted(5, 6) == 320
  {
  }

  /** The wait is at least five seconds, below 305 seconds, and never shorter after more attempts. */
  lemma RetryDelayIsBounded(counter: nat, row: Row, later: Row)
    requires row.attemptCount <= later.attemptCount
    ensures 5 * SECOND <= RetryDelay(counter, row) <= RetryDelay(counter, later) < 305 * SECOND
    ensures later.attemptCount > row.attemptCount && row.attemptCount < 6 ==> RetryDelay(counter, row) < RetryDelay(counter, later)
  {
    ShiftedFive();
    var a, b := Min(row.attemptCount, 6), Min(later.attemptCount, 6);
    assert a in {0, 1, 2, 3, 4, 5, 6} && b in {0, 1, 2, 3, 4, 5, 6};
  }
}
