/** When an event is tried again, and which envelopes are sent, over every run of the dispatcher. */
module RetryTiming {
  import opened Texts
  import opened OutboxModel
  import opened OutboxSafety
  import opened Dispatch
  import opened DispatchRuns

  // ---------- Waiting after a failure ----------

  /** The round ends with the event put back for a later try. */
  predicate EndsInRetry(cfg: Config, w: World, a: Action) {
    match a
    case Fail => true
    case Reject(error) => !PermanentRejection(error)
    case StoreRefused(_, _) => true
    case AllocateFailed(call) => Nap.Allocate(cfg.digest, w.disk, call).1.Refused?
    case _ => false
  }

  /** The event is not due before `bound`, and no round that began earlier is about it. */
  ghost predicate RestsUntil(w: World, k: nat, bound: nat) {
    && k < w.queue.nextCounter
    && (k in w.queue.rows ==> w.queue.rows[k].nextAttemptAt >= bound)
    && (!w.pc.Idle? && w.pc.k == k ==> w.pc.now >= bound)
  }

  lemma RetryRests(cfg: Config, w: World, a: Action, w': World)
    requires Inv(cfg, w) && Step(cfg, w, a, w') && EndsInRetry(cfg, w, a)
    ensures !w.pc.Idle? && w'.pc.Idle?
    ensures var bound := w.pc.now + RetryDelay(w.pc.k, w.pc.row);
            RestsUntil(w', w.pc.k, bound) && (w.pc.k in w'.queue.rows ==> w'.queue.rows[w.pc.k].nextAttemptAt == bound)
  {
    hide Inv, StoresAttempt, NewAttempt, Nap.Allocate, RetryDelay, PermanentRejection, Reusable;
    PcKnown(cfg, w);
  }

  lemma PcKnown(cfg: Config, w: World)
    requires Inv(cfg, w) && !w.pc.Idle?
    ensures w.pc.k < w.queue.nextCounter
  {
    hide IssuedOk, RowsOk, PostsOk, AckedOk, DigestOk, High, Nap.SomeSlotParses, Conserved, WithinBudget, AttemptsCounted,
      ProducersDistinct, AttemptFor;
  }

  /** Rows that stay keep the time of their next try; new ones come under the next counter. */
  ghost predicate TimesStay(q: Queue, q': Queue) {
    && q.nextCounter <= q'.nextCounter
    && (forall k | k in q'.rows && k in q.rows :: q'.rows[k].nextAttemptAt == q.rows[k].nextAttemptAt)
    && (forall k | k in q'.rows && k !in q.rows :: k == q.nextCounter)
  }

  lemma EnqueueTimes(cfg: Config, w: World, a: Action, w': World)
    requires Inv(cfg, w) && Step(cfg, w, a, w') && (a.Produce? || a.Gap?)
    ensures TimesStay(w.queue, w'.queue)
  {
    hide Inv, Step, Sound, Enqueues, GapRequest, Request.Stored, Row.Evictable;
    SoundNow(cfg, w);
    EnqueueMovesCounters(cfg, w, a, w');
    var request := if a.Produce? then a.request else GapRequest(w.queue.dropped, cfg.hash);
    EnqueueKeepsSound(cfg.maxBytes, w.queue, request, a.at, a.room, a.result, w'.queue);
  }

  lemma StoreTimes(cfg: Config, w: World, a: Action, w': World)
    requires Inv(cfg, w) && Step(cfg, w, a, w') && a.Store?
    ensures TimesStay(w.queue, w'.queue) && w'.pc.Prepared? && w'.pc.k == w.pc.k && w'.pc.now == w.pc.now
  {
    hide Inv, Sound, StoresAttempt, NewAttempt, Row.Evictable, Used, Row.Size;
    SoundNow(cfg, w);
    var attempt := NewAttempt(cfg, w.pc.k, w.pc.row, w.pc.now, w.pc.sequence, a.messageId);
    StoreKeepsSound(cfg.maxBytes, w.queue, w.pc.k, attempt, a.room, true, w'.queue);
  }

  lemma RestStep(cfg: Config, w: World, a: Action, w': World, k: nat, bound: nat)
    requires Inv(cfg, w) && Step(cfg, w, a, w') && RestsUntil(w, k, bound)
    ensures RestsUntil(w', k, bound)
    ensures a.Fetch? && a.k == k ==> a.at >= bound
  {
    hide Inv, Enqueues, StoresAttempt, Confirms, GapRequest, NewAttempt, EventId, ReportedWith, RetryDelay,
      PermanentRejection, Reusable, Nap.Allocate;
    if a.Produce? || a.Gap? {
      EnqueueTimes(cfg, w, a, w');
    } else if a.Store? {
      StoreTimes(cfg, w, a, w');
    }
  }

  lemma {:induction false} RestsOn(cfg: Config, ws: seq<World>, actions: seq<Action>, r: nat, j: nat, k: nat, bound: nat)
    requires IsRun(cfg, ws, actions) && r <= j < |ws| && RestsUntil(ws[r], k, bound)
    ensures RestsUntil(ws[j], k, bound)
  {
    hide Inv, Step, Start, RestsUntil;
    if r < j {
      RestsOn(cfg, ws, actions, r, j - 1, k, bound);
      RunKeepsInv(cfg, ws, actions, j - 1);
      RestStep(cfg, ws[j - 1], actions[j - 1], ws[j], k, bound);
    }
  }

  /** The round under way began with a fetch of its row at its time, and nothing was fetched since. */
  lemma {:induction false} RoundBegan(cfg: Config, ws: seq<World>, actions: seq<Action>, r: nat) returns (i: nat)
    requires IsRun(cfg, ws, actions) && r < |ws| && !ws[r].pc.Idle?
    ensures i < r && actions[i] == Fetch(ws[r].pc.now, ws[r].pc.k)
    ensures ws[r].pc.k in ws[i].queue.rows && ws[r].pc.row == ws[i].queue.rows[ws[r].pc.k]
    ensures forall n | i < n < r :: !actions[n].Fetch?
  {
    hide Enqueues, StoresAttempt, Confirms, GapRequest, NewAttempt, EventId, RetryDelay, PermanentRejection, Reusable,
      Nap.Allocate, MarkRetry, MarkDeadLetter, MarkAcknowledged, PruneAcknowledged, Sooner, DigestOk;
    assert Step(cfg, ws[r - 1], actions[r - 1], ws[r]);
    if actions[r - 1].Fetch? {
      i := r - 1;
    } else {
      i := RoundBegan(cfg, ws, actions, r - 1);
    }
  }

  /** An event whose try ended in a retry is not fetched again, in whatever later round, before its delay is over:
      the delay that belongs to the row as it was fetched, counted from that fetch, and five seconds at least. */
  lemma RetriedEventsWait(cfg: Config, ws: seq<World>, actions: seq<Action>, r: nat, j: nat) returns (i: nat)
    requires IsRun(cfg, ws, actions) && r < j < |actions| && EndsInRetry(cfg, ws[r], actions[r])
    requires !ws[r].pc.Idle? && actions[j].Fetch? && actions[j].k == ws[r].pc.k
    ensures i < r && actions[i].Fetch? && actions[i].k == actions[j].k && actions[i].k in ws[i].queue.rows
    ensures forall n | i < n < r :: !actions[n].Fetch?
    ensures actions[j].at >= actions[i].at + RetryDelay(actions[i].k, ws[i].queue.rows[actions[i].k])
    ensures actions[j].at >= actions[i].at + 5 * SECOND
  {
    hide Inv, Step, Start, EndsInRetry, RetryDelay, Nap.Allocate;
    i := RoundBegan(cfg, ws, actions, r);
    var k, row := ws[r].pc.k, ws[r].pc.row;
    var bound := ws[r].pc.now + RetryDelay(k, row);
    RunKeepsInv(cfg, ws, actions, r);
    RetryRests(cfg, ws[r], actions[r], ws[r + 1]);
    RestsOn(cfg, ws, actions, r + 1, j, k, bound);
    RunKeepsInv(cfg, ws, actions, j);
    RestStep(cfg, ws[j], actions[j], ws[j + 1], k, bound);
    RetryDelayIsBounded(k, row, row);
  }

  // ---------- Due again exactly then ----------

  ghost predicate DueAt(w: World, k: nat, time: nat) {
    && k < w.queue.nextCounter
    && (k in w.queue.rows ==> w.queue.rows[k].nextAttemptAt == time)
    && (w.pc.Idle? || w.pc.k != k)
  }

  lemma DueStep(cfg: Config, w: World, a: Action, w': World, k: nat, time: nat)
    requires Inv(cfg, w) && Step(cfg, w, a, w') && DueAt(w, k, time) && !(a.Fetch? && a.k == k)
    ensures DueAt(w', k, time)
  {
    hide Inv, Enqueues, StoresAttempt, Confirms, GapRequest, NewAttempt, EventId, ReportedWith, RetryDelay,
      PermanentRejection, Reusable, Nap.Allocate;
    if a.Produce? || a.Gap? {
      EnqueueTimes(cfg, w, a, w');
    } else if a.Store? {
      StoreTimes(cfg, w, a, w');
    }
  }

  lemma {:induction false} StaysDue(cfg: Config, ws: seq<World>, actions: seq<Action>, r: nat, j: nat, k: nat, time: nat)
    requires IsRun(cfg, ws, actions) && r <= j < |ws| && DueAt(ws[r], k, time)
    requires forall n | r <= n < j :: !(actions[n].Fetch? && actions[n].k == k)
    ensures DueAt(ws[j], k, time)
  {
    hide Inv, Step, Start, DueAt;
    if r < j {
      StaysDue(cfg, ws, actions, r, j - 1, k, time);
      RunKeepsInv(cfg, ws, actions, j - 1);
      DueStep(cfg, ws[j - 1], actions[j - 1], ws[j], k, time);
    }
  }

  /** Until it is fetched again, an event put back for a later try is ready at exactly the times from then on. */
  lemma RetriedIsReadyExactly(cfg: Config, ws: seq<World>, actions: seq<Action>, r: nat, j: nat, at: nat)
    requires IsRun(cfg, ws, actions) && r < j < |ws| && EndsInRetry(cfg, ws[r], actions[r]) && !ws[r].pc.Idle?
    requires forall n | r < n < j :: !(actions[n].Fetch? && actions[n].k == ws[r].pc.k)
    requires ws[r].pc.k in ws[j].queue.rows && ws[j].queue.rows[ws[r].pc.k].Waiting()
    ensures Ready(ws[j].queue.rows[ws[r].pc.k], at) <==> at >= ws[r].pc.now + RetryDelay(ws[r].pc.k, ws[r].pc.row)
  {
    hide Inv, Step, Start, EndsInRetry, RetryDelay, Nap.Allocate;
    RunKeepsInv(cfg, ws, actions, r);
    RetryRests(cfg, ws[r], actions[r], ws[r + 1]);
    StaysDue(cfg, ws, actions, r + 1, j, ws[r].pc.k, ws[r].pc.now + RetryDelay(ws[r].pc.k, ws[r].pc.row));
  }

  // ---------- Given up for good ----------

  /** The words stand somewhere in the text. */
  ghost predicate Contains(text: string, words: string) { exists before, rest :: text == before + words + rest }

  /** The coordinator refuses the envelope for good: as too large or not to be processed, as one that contradicts an
      earlier one, or as a bad request for another reason than its times. */
  ghost predicate RefusedForGood(error: HttpError) {
    || error.status in {413, 422}
    || (error.status == 409 && Contains(error.body, "different content"))
    || (error.status == 400 && !Contains(error.body, "expired") && !Contains(error.body, "clock")
        && !Contains(error.body, "created_at is too far"))
  }

  lemma MentionsIff(text: string, words: string)
    ensures Mentions(text, words) <==> Contains(text, words)
  {
    if Contains(text, words) {
      var before, rest :| text == before + words + rest;
      assert text[|before|..|before| + |words|] == words;
      assert OccursAt(text, words, |before|);
    }
    if Mentions(text, words) {
      var at := Find(text, words, 0).value;
      assert text == text[..at] + words + text[at + |words|..];
    }
  }

  lemma PermanentIff(error: HttpError)
    ensures PermanentRejection(error) <==> RefusedForGood(error)
  {
    hide Mentions, Contains;
    MentionsIff(error.body, "different content");
    MentionsIff(error.body, "expired");
    MentionsIff(error.body, "clock");
    MentionsIff(error.body, "created_at is too far");
  }

  /** A row becomes a dead letter only when the coordinator refuses its envelope for good. */
  lemma DeadOnlyByRejection(cfg: Config, ws: seq<World>, actions: seq<Action>, i: nat, k: nat)
    requires IsRun(cfg, ws, actions) && i < |actions|
    requires k in ws[i + 1].queue.rows && ws[i + 1].queue.rows[k].state.DeadLetter?
    requires !(k in ws[i].queue.rows && ws[i].queue.rows[k].state.DeadLetter?)
    ensures actions[i].Reject? && ws[i].pc.Sent? && ws[i].pc.k == k && RefusedForGood(actions[i].error)
  {
    hide Inv, Enqueues, StoresAttempt, Confirms, GapRequest, NewAttempt, EventId, ReportedWith, RetryDelay, RefusedForGood,
      PermanentRejection, Reusable, Nap.Allocate, ReadyNext, Sound, Used, Row.Size, Row.Evictable, Request.Stored, DigestOk;
    var w, a, w' := ws[i], actions[i], ws[i + 1];
    assert Step(cfg, w, a, w');
    RunKeepsInv(cfg, ws, actions, i);
    SoundNow(cfg, w);
    if a.Produce? || a.Gap? {
      EnqueueMovesCounters(cfg, w, a, w');
      var request := if a.Produce? then a.request else GapRequest(w.queue.dropped, cfg.hash);
      EnqueueKeepsSound(cfg.maxBytes, w.queue, request, a.at, a.room, a.result, w'.queue);
    } else if a.Store? {
      var attempt := NewAttempt(cfg, w.pc.k, w.pc.row, w.pc.now, w.pc.sequence, a.messageId);
      StoreKeepsSound(cfg.maxBytes, w.queue, w.pc.k, attempt, a.room, true, w'.queue);
    } else if a.Reject? {
      PermanentIff(a.error);
    }
  }

  /** And such a refusal does make it one. */
  lemma RejectedIsDead(cfg: Config, w: World, a: Action, w': World)
    requires Inv(cfg, w) && Step(cfg, w, a, w') && a.Reject? && RefusedForGood(a.error)
    ensures w.pc.Sent? && w.pc.k in w'.queue.rows && w'.queue.rows[w.pc.k].state.DeadLetter?
  {
    hide Inv, RetryDelay, RefusedForGood, PermanentRejection;
    PermanentIff(a.error);
    PcWaits(cfg, w);
  }

  // ---------- Envelopes are current ----------

  /** Every envelope is good for five minutes, and the one in hand for at least five seconds more. */
  ghost predicate Current(w: World) {
    && (forall e | e in w.issued :: e.expiresAt == e.createdAt + 300 * SECOND)
    && (w.pc.Prepared? || w.pc.Sent? ==> w.pc.attempt.envelope.expiresAt > w.pc.now + 5 * SECOND)
  }

  lemma CurrentStep(cfg: Config, w: World, a: Action, w': World)
    requires Step(cfg, w, a, w') && Current(w)
    ensures Current(w')
  {
    hide Enqueues, StoresAttempt, Confirms, GapRequest, EventId, RetryDelay, PermanentRejection, Nap.Allocate, MarkRetry,
      MarkDeadLetter, MarkAcknowledged, PruneAcknowledged, ReadyNext;
  }

  lemma {:induction false} AlwaysCurrent(cfg: Config, ws: seq<World>, actions: seq<Action>, i: nat)
    requires IsRun(cfg, ws, actions) && i < |ws|
    ensures Current(ws[i])
  {
    hide Step, DigestOk;
    if i > 0 {
      AlwaysCurrent(cfg, ws, actions, i - 1);
      CurrentStep(cfg, ws[i - 1], actions[i - 1], ws[i]);
    }
  }

  /** No envelope is sent that expires within five seconds of the fetch, and each is good for five minutes from
      when it was made. */
  lemma PostsAreCurrent(cfg: Config, ws: seq<World>, actions: seq<Action>, i: nat)
    requires IsRun(cfg, ws, actions) && i < |actions| && actions[i].Send?
    ensures ws[i].pc.Prepared?
    ensures var envelope := ws[i].pc.attempt.envelope;
            envelope.expiresAt == envelope.createdAt + 300 * SECOND && envelope.expiresAt > ws[i].pc.now + 5 * SECOND
  {
    hide Inv, Start;
    AlwaysCurrent(cfg, ws, actions, i);
    RunKeepsInv(cfg, ws, actions, i);
    PreparedIsIssued(cfg, ws[i], ws[i + 1]);
  }

  lemma PreparedIsIssued(cfg: Config, w: World, w': World)
    requires Inv(cfg, w) && Step(cfg, w, Send, w')
    ensures w.pc.Prepared? && w.pc.attempt.envelope in w.issued
  {
    hide Sound, IssuedOk, PostsOk, AckedOk, DigestOk, High, Nap.SomeSlotParses, AttemptFor;
    var k := w.pc.k;
    assert k in w.queue.rows && w.queue.rows[k].attempt.Some?;
  }

  // ---------- Who is next, who may go, and what an acknowledgement says ----------

  /** The event fetched is due and unsettled, and no other such event has a higher priority, or the same and is
      older. */
  lemma FetchedComesFirst(cfg: Config, ws: seq<World>, actions: seq<Action>, i: nat)
    requires IsRun(cfg, ws, actions) && i < |actions| && actions[i].Fetch?
    ensures var rows, k, at := ws[i].queue.rows, actions[i].k, actions[i].at;
            && k in rows && rows[k].state in {Pending, InFlight} && rows[k].nextAttemptAt <= at
            && forall j | j in rows && rows[j].state in {Pending, InFlight} && rows[j].nextAttemptAt <= at ::
                 || rows[j].request.priority < rows[k].request.priority
                 || (rows[j].request.priority == rows[k].request.priority && rows[k].createdAt <= rows[j].createdAt)
  {
    hide Start;
    assert Step(cfg, ws[i], actions[i], ws[i + 1]);
    var rows := ws[i].queue.rows;
    forall j | j in rows && rows[j].state in {Pending, InFlight} && rows[j].nextAttemptAt <= actions[i].at
      ensures Sooner(rows[actions[i].k], rows[j])
    {
      assert Ready(rows[j], actions[i].at);
    }
  }

  /** An event leaves the table without being acknowledged only if it is waiting, was never attempted and has a
      priority of one at most. */
  lemma ImportantIsNeverDropped(cfg: Config, ws: seq<World>, actions: seq<Action>, i: nat, k: nat)
    requires IsRun(cfg, ws, actions) && i < |actions| && k in ws[i].queue.rows && k !in ws[i + 1].queue.rows
    ensures var row := ws[i].queue.rows[k];
            row.state == Acked || (row.state == Pending && row.attemptCount == 0 && row.request.priority <= 1)
  {
    hide Inv, Enqueues, StoresAttempt, Confirms, GapRequest, NewAttempt, EventId, ReportedWith, RetryDelay, Reusable,
      PermanentRejection, Nap.Allocate, ReadyNext, Sound, Used, Row.Size, Request.Stored, DigestOk;
    var w, a, w' := ws[i], actions[i], ws[i + 1];
    assert Step(cfg, w, a, w');
    RunKeepsInv(cfg, ws, actions, i);
    SoundNow(cfg, w);
    if a.Produce? || a.Gap? {
      EnqueueMovesCounters(cfg, w, a, w');
      var request := if a.Produce? then a.request else GapRequest(w.queue.dropped, cfg.hash);
      EnqueueKeepsSound(cfg.maxBytes, w.queue, request, a.at, a.room, a.result, w'.queue);
    } else if a.Store? {
      var attempt := NewAttempt(cfg, w.pc.k, w.pc.row, w.pc.now, w.pc.sequence, a.messageId);
      StoreKeepsSound(cfg.maxBytes, w.queue, w.pc.k, attempt, a.room, true, w'.queue);
    }
  }

  /** So the queue's own gap marker is never sacrificed: it has a higher priority than that. */
  lemma GapMarkersAreImportant(q: Queue, hash: string -> string, now: nat)
    ensures !NewRow(GapRequest(q.dropped, hash).Stored(), now).Evictable()
    ensures GapRequest(q.dropped, hash).priority > 1
  {
    hide Column;
  }

  /** Deleting old acknowledged rows deletes exactly those acknowledged before the limit, and changes no other. */
  lemma PruneDeletesExactly(q: Queue, olderThan: nat, k: nat)
    requires k in q.rows
    ensures var rows := PruneAcknowledged(q, olderThan).rows;
            && (k !in rows <==> q.rows[k].state == Acked && q.rows[k].ackedAt < olderThan)
            && (k in rows ==> rows[k] == q.rows[k])
  {
  }

  /** A row becomes acknowledged only by an acknowledgement of this protocol that accepts an envelope posted for it,
      now or earlier, and repeats its message id, sequence number, event id and payload hash. */
  lemma AcknowledgementMatches(cfg: Config, ws: seq<World>, actions: seq<Action>, i: nat, k: nat)
    requires IsRun(cfg, ws, actions) && i < |actions|
    requires k in ws[i + 1].queue.rows && ws[i + 1].queue.rows[k].state.Acked?
    requires !(k in ws[i].queue.rows && ws[i].queue.rows[k].state.Acked?)
    ensures actions[i].Confirm? && ws[i].pc.Sent? && Post(k, ws[i].pc.attempt) in ws[i].posted
    ensures var ack, envelope := actions[i].ack, ws[i].pc.attempt.envelope;
            && ack.protocol == "neta-agent/1" && ack.schemaVersion == 1 && ack.messageType == "Ack" && ack.version == 1
            && ack.messageId == envelope.messageId && ack.sequence == envelope.sequence
            && ack.idempotencyKey == envelope.idempotencyKey && ack.payloadHash == envelope.payloadHash
            && ack.status in {"ACCEPTED", "ALREADY_ACCEPTED"} && ack.receivedAt != ""
            && ws[i + 1].queue.rows[k].ackedAt == actions[i].at
  {
    hide Inv, Start, Step, EventId;
    AcknowledgedOnlyByConfirmation(cfg, ws, actions, i, k);
    RunKeepsInv(cfg, ws, actions, i);
    SentCarriesItsEvent(cfg, ws[i]);
    AckedThen(cfg, ws[i], actions[i], ws[i + 1]);
  }

  lemma SentCarriesItsEvent(cfg: Config, w: World)
    requires Inv(cfg, w) && w.pc.Sent?
    ensures w.pc.attempt.envelope.idempotencyKey == EventId(cfg.agent, w.pc.k)
    ensures w.pc.attempt.envelope.payloadHash == w.pc.row.request.payloadHash
    ensures w.pc.k in w.queue.rows && w.queue.rows[w.pc.k].request == w.pc.row.request
  {
    hide Sound, IssuedOk, RowsOk, PostsOk, AckedOk, DigestOk, High, Nap.SomeSlotParses, EventId;
  }

  lemma AckedThen(cfg: Config, w: World, a: Action, w': World)
    requires Step(cfg, w, a, w') && a.Confirm? && w.pc.Sent? && w.pc.k in w.queue.rows
    ensures w.pc.k in w'.queue.rows && w'.queue.rows[w.pc.k].ackedAt == a.at
    ensures w'.queue.rows[w.pc.k].request == w.queue.rows[w.pc.k].request
  {
    hide Confirms, EventId, ReportedWith;
  }

  /** The delay before each try: five seconds, doubled with every attempt up to five minutes, and up to four seconds
      more so that events spread. */
  lemma RetryDelayIs(counter: nat, row: Row)
    ensures var tries := row.attemptCount;
            RetryDelay(counter, row) == ((if tries == 0 then 5 else if tries == 1 then 10 else if tries == 2 then 20
                                          else if tries == 3 then 40 else if tries == 4 then 80 else if tries == 5 then 160
                                          else 300) + counter % 5) * 1_000_000_000
  {
    ShiftedFive();
  }
}
