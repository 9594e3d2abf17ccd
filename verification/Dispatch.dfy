/** The dispatcher and everything around it as a state machine: producers may enqueue at any moment,
    a reply may be lost or wrong, and the process may die between any two steps. One drain runs at a
    time. Sequence numbers come from the allocator and its files, which others may use too. */
module Dispatch {
  import opened Base
  import opened Texts
  import opened OutboxModel
  import Nap = NapSequence
  import NapRecord

  const SECOND: nat := 1_000_000_000
  const ATTEMPT_LIFETIME: nat := 300 * SECOND
  const REFRESH_MARGIN: nat := 5 * SECOND

  // ---------- Pure parts ----------

  function Shifted(seconds: nat, exponent: nat): nat {
    if exponent == 0 then seconds else 2 * Shifted(seconds, exponent - 1)
  }

  /** The wait before the next try of an event, from the row as it was fetched. */
  function RetryDelay(counter: nat, row: Row): nat {
    (Min(300, Shifted(5, Min(row.attemptCount, 6))) + counter % 5) * SECOND
  }

  datatype HttpError = HttpError(status: int, body: string)

  predicate Mentions(body: string, words: string) { Find(body, words, 0).Some? }

  predicate PermanentRejection(error: HttpError) {
    if error.status == 413 || error.status == 422 then true
    else if error.status == 409 then Mentions(error.body, "different content")
    else if error.status != 400 then false
    else !Mentions(error.body, "expired") && !Mentions(error.body, "clock")
         && !Mentions(error.body, "created_at is too far")
  }

  datatype Ack = Ack(protocol: string, schemaVersion: int, messageType: string, version: int, messageId: string,
                     sequence: nat, idempotencyKey: string, payloadHash: string, status: string, receivedAt: string)

  /** The reply acknowledges this message, this sequence number, this event and this payload. */
  predicate Confirms(ack: Ack, messageId: string, sequence: nat, eventId: string, payloadHash: string) {
    && ack.protocol == "neta-agent/1" && ack.schemaVersion == 1 && ack.messageType == "Ack" && ack.version == 1
    && ack.messageId == messageId && ack.sequence == sequence
    && ack.idempotencyKey == eventId && ack.payloadHash == payloadHash
    && (ack.status == "ACCEPTED" || ack.status == "ALREADY_ACCEPTED")
    && ack.receivedAt != []
  }

  // ---------- The world ----------

  /** `wire` renders an envelope as the text that is stored and sent; `digest` guards the sequence files. */
  datatype Config = Config(agent: string, maxBytes: nat, wire: Envelope -> string, hash: string -> string,
                           digest: string -> string)

  /** Where the drain is, with the row as it was fetched and the time it was fetched at. */
  datatype Pc =
    | Idle
    | Fetched(k: nat, row: Row, now: nat)
    | Allocated(k: nat, row: Row, now: nat, sequence: nat)
    | Prepared(k: nat, row: Row, now: nat, attempt: Attempt)
    | Sent(k: nat, row: Row, now: nat, attempt: Attempt)

  datatype Post = Post(counter: nat, attempt: Attempt)

  datatype Confirmation = Confirmation(counter: nat, attempt: Attempt, ack: Ack)

  /** `issued` lists the envelopes ever stored, `posted` those ever sent, `confirmed` the accepted replies. */
  datatype World = World(queue: Queue, disk: Nap.Disk, pc: Pc,
                         issued: seq<Envelope>, posted: seq<Post>, confirmed: seq<Confirmation>)

  datatype Action =
    | Produce(request: Request, at: nat, room: Room, result: Option<nat>)
    | Prune(olderThan: nat)
    | Gap(at: nat, room: Room, result: Option<nat>)
    | Fetch(at: nat, k: nat)
    | Reuse
    | Allocate(call: Nap.Call, sequence: nat)
    | AllocateFailed(call: Nap.Call)
    | AllocateElsewhere(call: Nap.Call)
    | Store(messageId: string, room: Room)
    | StoreRefused(messageId: string, room: Room)
    | Send
    | Confirm(ack: Ack, at: nat)
    | Reject(error: HttpError)
    | Fail
    | Crash

  function NewAttempt(cfg: Config, k: nat, row: Row, now: nat, sequence: nat, messageId: string): Attempt {
    var envelope := Envelope(messageId, row.request.messageType, sequence, now, now + ATTEMPT_LIFETIME,
                             EventId(cfg.agent, k), row.request.payloadHash, row.request.payload);
    Attempt(envelope, cfg.wire(envelope))
  }

  /** A stored envelope is sent again while it is not about to expire. */
  predicate Reusable(row: Row, now: nat) {
    row.attempt.Some? && row.attempt.value.text != [] && row.attempt.value.envelope.expiresAt > now + REFRESH_MARGIN
  }

  function Retried(w: World): World
    requires !w.pc.Idle?
  {
    w.(queue := MarkRetry(w.queue, w.pc.k, w.pc.now + RetryDelay(w.pc.k, w.pc.row)), pc := Idle)
  }

  ghost predicate Step(cfg: Config, w: World, a: Action, w': World) {
    match a
    case Produce(request, at, room, result) =>
      && Enqueues(cfg.maxBytes, w.queue, request, at, room, result, w'.queue)
      && w' == w.(queue := w'.queue)
    case Prune(olderThan) =>
      w.pc.Idle? && w' == w.(queue := PruneAcknowledged(w.queue, olderThan))
    case Gap(at, room, result) =>
      && w.pc.Idle? && GapNeeded(w.queue)
      && Enqueues(cfg.maxBytes, w.queue, GapRequest(w.queue.dropped, cfg.hash), at, room, result, w'.queue)
      && w' == w.(queue := w'.queue)
    case Fetch(at, k) =>
      && w.pc.Idle? && ReadyNext(w.queue.rows, at, Some(k))
      && w' == w.(pc := Fetched(k, w.queue.rows[k], at))
    case Reuse =>
      && w.pc.Fetched? && Reusable(w.pc.row, w.pc.now)
      && w' == w.(pc := Prepared(w.pc.k, w.pc.row, w.pc.now, w.pc.row.attempt.value))
    case Allocate(call, sequence) =>
      && w.pc.Fetched? && !Reusable(w.pc.row, w.pc.now)
      && Nap.Allocate(cfg.digest, w.disk, call) == (w'.disk, Nap.Returned(sequence))
      && w' == w.(disk := w'.disk, pc := Allocated(w.pc.k, w.pc.row, w.pc.now, sequence))
    case AllocateFailed(call) =>
      && w.pc.Fetched? && !Reusable(w.pc.row, w.pc.now)
      && var (disk, outcome) := Nap.Allocate(cfg.digest, w.disk, call);
      && !outcome.Returned?
      && w' == if outcome.Died? then w.(disk := disk, pc := Idle) else Retried(w.(disk := disk))
    case AllocateElsewhere(call) => w' == w.(disk := Nap.Allocate(cfg.digest, w.disk, call).0)
    case Store(messageId, room) =>
      && w.pc.Allocated?
      && var attempt := NewAttempt(cfg, w.pc.k, w.pc.row, w.pc.now, w.pc.sequence, messageId);
      && StoresAttempt(cfg.maxBytes, w.queue, w.pc.k, attempt, room, true, w'.queue)
      && w' == w.(queue := w'.queue, pc := Prepared(w.pc.k, w.pc.row, w.pc.now, attempt),
                  issued := w.issued + [attempt.envelope])
    case StoreRefused(messageId, room) =>
      && w.pc.Allocated?
      && var attempt := NewAttempt(cfg, w.pc.k, w.pc.row, w.pc.now, w.pc.sequence, messageId);
      && StoresAttempt(cfg.maxBytes, w.queue, w.pc.k, attempt, room, false, w.queue)
      && w' == Retried(w)
    case Send =>
      && w.pc.Prepared?
      && w' == w.(pc := Sent(w.pc.k, w.pc.row, w.pc.now, w.pc.attempt),
                  posted := w.posted + [Post(w.pc.k, w.pc.attempt)])
    case Confirm(ack, at) =>
      && w.pc.Sent?
      && Confirms(ack, w.pc.attempt.envelope.messageId, w.pc.attempt.envelope.sequence,
                  EventId(cfg.agent, w.pc.k), w.pc.row.request.payloadHash)
      && w' == w.(queue := MarkAcknowledged(w.queue, w.pc.k, at), pc := Idle,
                  confirmed := w.confirmed + [Confirmation(w.pc.k, w.pc.attempt, ack)])
    case Reject(error) =>
      && w.pc.Sent?
      && w' == if PermanentRejection(error) then w.(queue := MarkDeadLetter(w.queue, w.pc.k), pc := Idle) else Retried(w)
    case Fail => !w.pc.Idle? && w' == Retried(w)
    case Crash => w' == w.(pc := Idle)
  }

  // ---------- The invariant ----------

  /** The attempt carries this event's id, payload and hash, and its text is that of its envelope, whole or as a
      column keeps it. */
  predicate AttemptFor(cfg: Config, k: nat, request: Request, attempt: Attempt) {
    && attempt.envelope.idempotencyKey == EventId(cfg.agent, k)
    && attempt.envelope.payload == request.payload
    && attempt.envelope.payloadHash == request.payloadHash
    && attempt.envelope.messageType == request.messageType
    && (attempt.text == cfg.wire(attempt.envelope) || attempt.text == Column(cfg.wire(attempt.envelope)))
  }

  /** The digest has the form the sequence files are checked for. */
  ghost predicate DigestOk(cfg: Config) { NapRecord.HexDigest(cfg.digest) }

  /** Once a number was taken, some slot of the sequence files always parses. */
  predicate SlotsOk(cfg: Config, w: World) {
    w.issued != [] || w.pc.Allocated? ==> Nap.SomeSlotParses(cfg.digest, w.disk)
  }

  /** The largest number handed out. */
  function High(cfg: Config, disk: Nap.Disk): nat { Nap.Durable(cfg.digest, disk).GetOr(0) }

  ghost predicate IssuedOk(issued: seq<Envelope>, high: nat) {
    && (forall i, j | 0 <= i < j < |issued| :: issued[i].sequence < issued[j].sequence)
    && (forall i | 0 <= i < |issued| :: issued[i].sequence <= high)
  }

  ghost predicate RowsOk(cfg: Config, rows: Rows, issued: seq<Envelope>) {
    forall k | k in rows && rows[k].attempt.Some? ::
      && AttemptFor(cfg, k, rows[k].request, rows[k].attempt.value) && rows[k].attempt.value.envelope in issued
      && rows[k].attempt.value.Stored() == rows[k].attempt.value
  }

  ghost predicate PostOk(cfg: Config, q: Queue, issued: seq<Envelope>, p: Post) {
    && p.attempt.envelope in issued && p.counter < q.nextCounter
    && p.attempt.envelope.idempotencyKey == EventId(cfg.agent, p.counter)
    && (p.counter in q.rows ==>
          q.rows[p.counter].attemptCount > 0 && AttemptFor(cfg, p.counter, q.rows[p.counter].request, p.attempt))
  }

  predicate SameContent(a: Envelope, b: Envelope) {
    a.idempotencyKey == b.idempotencyKey && a.payload == b.payload && a.payloadHash == b.payloadHash
    && a.messageType == b.messageType
  }

  ghost predicate PostsOk(cfg: Config, q: Queue, issued: seq<Envelope>, posted: seq<Post>) {
    && (forall p | p in posted :: PostOk(cfg, q, issued, p))
    && (forall p, p' | p in posted && p' in posted && p.counter == p'.counter ::
          SameContent(p.attempt.envelope, p'.attempt.envelope))
  }

  ghost predicate ConfirmedFor(cfg: Config, posted: seq<Post>, k: nat, request: Request, c: Confirmation) {
    && c.counter == k && Post(k, c.attempt) in posted
    && Confirms(c.ack, c.attempt.envelope.messageId, c.attempt.envelope.sequence,
                EventId(cfg.agent, k), request.payloadHash)
  }

  ghost predicate AckedOk(cfg: Config, w: World) {
    forall k | k in w.queue.rows && w.queue.rows[k].state.Acked? ::
      exists c | c in w.confirmed :: ConfirmedFor(cfg, w.posted, k, w.queue.rows[k].request, c)
  }

  ghost predicate PcOk(cfg: Config, w: World) {
    match w.pc
    case Idle => true
    case Fetched(k, row, _) => RowAt(w.queue, k, row)
    case Allocated(k, row, _, sequence) =>
      RowAt(w.queue, k, row) && sequence <= High(cfg, w.disk)
      && forall i | 0 <= i < |w.issued| :: w.issued[i].sequence < sequence
    case Prepared(k, row, _, attempt) =>
      HeldAt(w.queue, k, row, attempt) && AttemptFor(cfg, k, row.request, attempt)
    case Sent(k, row, _, attempt) =>
      HeldAt(w.queue, k, row, attempt) && AttemptFor(cfg, k, row.request, attempt) && Post(k, attempt) in w.posted
  }

  /** The row as it was fetched: still there and unchanged, or never attempted and evicted since. */
  ghost predicate RowAt(q: Queue, k: nat, row: Row) {
    row.Waiting() && k < q.nextCounter && (k in q.rows ==> q.rows[k] == row) && (row.attempt.Some? ==> k in q.rows)
  }

  /** The envelope in hand is the one stored in its row. */
  ghost predicate HeldAt(q: Queue, k: nat, row: Row, attempt: Attempt) {
    k in q.rows && q.rows[k].Waiting() && q.rows[k].attempt == Some(attempt.Stored()) && q.rows[k].request == row.request
  }

  ghost predicate Inv(cfg: Config, w: World) {
    && Sound(cfg.maxBytes, w.queue)
    && DigestOk(cfg) && SlotsOk(cfg, w)
    && IssuedOk(w.issued, High(cfg, w.disk))
    && RowsOk(cfg, w.queue.rows, w.issued)
    && PostsOk(cfg, w.queue, w.issued, w.posted)
    && AckedOk(cfg, w)
    && PcOk(cfg, w)
  }
}
