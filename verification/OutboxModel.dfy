/** The durable outbox as a table of rows and a few counters, and what each queue operation may do
    to it. Texts are byte strings; a text column holds the bytes before the first NUL. */
module OutboxModel {
  import opened Base
  import opened Sums
  import Decimal

  const ROW_OVERHEAD: nat := 512
  const ACKED_BATCH: nat := 256
  const GAP: string := "TELEMETRY_GAP"

  // ---------- Sizes ----------

  /** SQLite's `length()` of a stored text: characters before the first NUL, where the continuation
      bytes of a multi-byte character are not counted. */
  function Characters(s: string, inCharacter: bool): (n: nat)
    ensures n <= |s|
  {
    if s == [] || s[0] == '\0' then 0
    else if inCharacter && 0x80 <= s[0] as int < 0xC0 then Characters(s[1..], true)
    else 1 + Characters(s[1..], s[0] as int >= 0xC0)
  }

  function StoredLength(s: string): (n: nat)
    ensures n <= |s|
  {
    Characters(s, false)
  }

  /** What a text column keeps of a bound text: the bytes before the first NUL. */
  function Column(s: string): (c: string)
    ensures c <= s
  {
    if s == [] || s[0] == '\0' then [] else [s[0]] + Column(s[1..])
  }

  // ---------- Rows ----------

  datatype RowState = Pending | InFlight | Acked | DeadLetter

  /** The protocol message built for one attempt at an event. */
  datatype Envelope = Envelope(messageId: string, messageType: string, sequence: nat, createdAt: nat, expiresAt: nat,
                               idempotencyKey: string, payloadHash: string, payload: string)

  /** The write-ahead copy of an envelope, as text and as what the text says. */
  datatype Attempt = Attempt(envelope: Envelope, text: string) {
    /** The copy as its column keeps it. */
    function Stored(): Attempt { Attempt(envelope, Column(text)) }
  }

  datatype Request = Request(producerKey: string, messageType: string, findingType: string, findingKey: string,
                             priority: int, payload: string, payloadHash: string) {
    /** The request as its columns keep it. */
    function Stored(): Request {
      Request(Column(producerKey), Column(messageType), Column(findingType), Column(findingKey), priority,
              Column(payload), Column(payloadHash))
    }
  }

  datatype Row = Row(request: Request, createdAt: nat, state: RowState, attempt: Option<Attempt>,
                     attemptCount: nat, nextAttemptAt: nat, ackedAt: nat) {
    function AttemptLength(): nat {
      if attempt.None? then 0 else StoredLength(attempt.value.text)
    }

    function Size(): nat { StoredLength(request.payload) + AttemptLength() + ROW_OVERHEAD }

    /** What the row counts against the byte budget. Acknowledged rows are free. */
    function Charge(): nat { if state.Acked? then 0 else Size() }

    predicate Waiting() { state.Pending? || state.InFlight? }

    /** Only a low-priority event that was never attempted may be sacrificed. */
    predicate Evictable() { state.Pending? && attemptCount == 0 && request.priority <= 1 }

    predicate IsGap() { request.findingType == GAP }
  }

  type Rows = map<nat, Row>

  /** Row keys are event counters; `removedAcked` counts the acknowledged rows deleted so far. */
  datatype Queue = Queue(rows: Rows, nextCounter: nat, dropped: nat, reported: nat, coalesced: nat, lastAck: nat,
                         removedAcked: nat)

  const EMPTY: Queue := Queue(map[], 1, 0, 0, 0, 0, 0)

  function EventId(agent: string, counter: nat): string { agent + ":" + Decimal.ToText(counter) }

  /** Event ids of different counters differ, even across a change of agent id. */
  lemma EventIdsDiffer(agent: string, counter: nat, agent': string, counter': nat)
    requires EventId(agent, counter) == EventId(agent', counter')
    ensures agent == agent' && counter == counter'
  {
    var id := EventId(agent, counter);
    var digits, digits' := Decimal.ToText(counter), Decimal.ToText(counter');
    forall i | 0 <= i < |id|
      ensures i > |agent| ==> Decimal.IsDigit(id[i])
      ensures i > |agent'| ==> Decimal.IsDigit(id[i])
    {
      if i > |agent| { assert id[i] == digits[i - |agent| - 1]; }
      if i > |agent'| { assert id[i] == digits'[i - |agent'| - 1]; }
    }
    assert id[|agent|] == ':' && id[|agent'|] == ':';
    assert |agent| == |agent'|;
    assert id[..|agent|] == agent && id[..|agent'|] == agent';
    assert id[|agent| + 1..] == digits && id[|agent'| + 1..] == digits';
    Decimal.TextIsInjective(counter, counter');
  }

  // ---------- The budget ----------

  ghost function ChargeIn(rows: Rows): nat -> nat { k => if k in rows then rows[k].Charge() else 0 }

  /** The size the budget is about: what all rows but the acknowledged ones take. */
  ghost function Used(rows: Rows): nat { Sum(rows.Keys, ChargeIn(rows)) }

  lemma UsedWithout(rows: Rows, k: nat)
    requires k in rows
    ensures Used(rows) == rows[k].Charge() + Used(rows - {k})
  {
    SumWithout(rows.Keys, ChargeIn(rows), k);
    assert (rows - {k}).Keys == rows.Keys - {k};
    SumSame(rows.Keys - {k}, ChargeIn(rows), ChargeIn(rows - {k}));
  }

  lemma UsedWith(rows: Rows, k: nat, row: Row)
    ensures Used(rows[k := row]) == row.Charge() + Used(rows - {k})
  {
    UsedWithout(rows[k := row], k);
    assert rows[k := row] - {k} == rows - {k};
  }

  lemma UsedAfterUpdate(rows: Rows, k: nat, row: Row)
    requires k in rows
    ensures Used(rows[k := row]) == Used(rows) - rows[k].Charge() + row.Charge()
  {
    UsedWith(rows, k, row);
    UsedWithout(rows, k);
  }

  lemma UsedWithoutFree(rows: Rows, free: set<nat>)
    requires free <= rows.Keys && forall k | k in free :: rows[k].Charge() == 0
    ensures Used(rows - free) == Used(rows)
  {
    SumWithoutFree(rows.Keys, free, ChargeIn(rows));
    assert (rows - free).Keys == rows.Keys - free;
    SumSame(rows.Keys - free, ChargeIn(rows), ChargeIn(rows - free));
  }

  predicate Fits(max: nat, used: nat, required: nat) { required <= max && used <= max - required }

  // ---------- Making room ----------

  predicate Before(a: Row, b: Row) {
    a.request.priority < b.request.priority
    || (a.request.priority == b.request.priority && a.createdAt <= b.createdAt)
  }

  /** The row deleted next: an evictable one, first by priority and then by age; ties may go either way. */
  ghost predicate Victim(rows: Rows, k: nat) {
    k in rows && rows[k].Evictable() && forall j | j in rows && rows[j].Evictable() :: Before(rows[k], rows[j])
  }

  /** Evictions one after the other, none of them while the request already fits. */
  ghost predicate EvictsWhileFull(max: nat, required: nat, rows: Rows, victims: seq<nat>, rows': Rows)
    decreases |victims|
  {
    if victims == [] then rows' == rows
    else !Fits(max, Used(rows), required) && Victim(rows, victims[0])
         && EvictsWhileFull(max, required, rows - {victims[0]}, victims[1..], rows')
  }

  ghost predicate EvictsUntilFit(max: nat, required: nat, rows: Rows, victims: seq<nat>, rows': Rows) {
    EvictsWhileFull(max, required, rows, victims, rows') && Fits(max, Used(rows'), required)
  }

  ghost function AckedKeys(rows: Rows): set<nat> { set k | k in rows && rows[k].state.Acked? }

  /** The oldest acknowledged rows, at most one batch of them. */
  ghost predicate OldestAcked(rows: Rows, batch: set<nat>) {
    && batch <= AckedKeys(rows)
    && |batch| == Min(ACKED_BATCH, |AckedKeys(rows)|)
    && forall a, b | a in batch && b in AckedKeys(rows) - batch :: rows[a].ackedAt <= rows[b].ackedAt
  }

  /** What was deleted to make room. */
  datatype Room = Room(acked: set<nat>, victims: seq<nat>)

  ghost predicate MakesRoom(max: nat, q: Queue, required: nat, room: Room, q': Queue) {
    if max == 0 || Fits(max, Used(q.rows), required) then q' == q && room == Room({}, [])
    else
      && OldestAcked(q.rows, room.acked)
      && EvictsUntilFit(max, required, q.rows - room.acked, room.victims, q'.rows)
      && q' == q.(rows := q'.rows, dropped := q.dropped + |room.victims|,
                  removedAcked := q.removedAcked + |room.acked|)
  }

  ghost function Kept(rows: Rows): set<nat> { set k | k in rows && !rows[k].Evictable() }

  /** What the rows that may not be sacrificed take. */
  ghost function Reserved(rows: Rows): nat { Sum(Kept(rows), ChargeIn(rows)) }

  /** Room can be made exactly when the rows that may not be sacrificed leave enough of the budget. */
  ghost predicate RoomExists(max: nat, rows: Rows, required: nat) {
    max == 0 || Fits(max, Reserved(rows), required)
  }

  // ---------- Operations ----------

  ghost predicate HasProducer(rows: Rows, key: string, k: nat) {
    k in rows && rows[k].request.producerKey == key
  }

  function NewRow(stored: Request, now: nat): Row {
    Row(stored, now, Pending, None, 0, now, 0)
  }

  function RequestBytes(request: Request): nat { |request.payload| + ROW_OVERHEAD }

  /** Enqueue: an event already held under the producer key is returned; otherwise room is made and a
      fresh counter is used; without room the queue is unchanged and there is no result. */
  ghost predicate Enqueues(max: nat, q: Queue, request: Request, now: nat, room: Room, result: Option<nat>, q': Queue) {
    var stored := request.Stored();
    if exists k :: HasProducer(q.rows, stored.producerKey, k) then
      && result.Some? && HasProducer(q.rows, stored.producerKey, result.value)
      && q' == q.(coalesced := q.coalesced + 1)
    else if !RoomExists(max, q.rows, RequestBytes(request)) then result.None? && q' == q
    else
      && result == Some(q.nextCounter)
      && exists mid ::
           && MakesRoom(max, q, RequestBytes(request), room, mid)
           && q' == mid.(rows := mid.rows[q.nextCounter := NewRow(stored, now)], nextCounter := q.nextCounter + 1)
  }

  predicate Ready(row: Row, now: nat) { row.Waiting() && row.nextAttemptAt <= now }

  predicate Sooner(a: Row, b: Row) {
    a.request.priority > b.request.priority
    || (a.request.priority == b.request.priority && a.createdAt <= b.createdAt)
  }

  /** The event sent next: highest priority, then oldest; ties may go either way. */
  ghost predicate ReadyNext(rows: Rows, now: nat, next: Option<nat>) {
    if next.None? then forall k | k in rows :: !Ready(rows[k], now)
    else
      && next.value in rows && Ready(rows[next.value], now)
      && forall j | j in rows && Ready(rows[j], now) :: Sooner(rows[next.value], rows[j])
  }

  function Reserve(q: Queue, k: nat): Queue
    requires k in q.rows
  {
    q.(rows := q.rows[k := q.rows[k].(state := InFlight)])
  }

  function AttemptGrowth(row: Row, attempt: Attempt): nat {
    if |attempt.text| > row.AttemptLength() then |attempt.text| - row.AttemptLength() else 0
  }

  function WithAttempt(row: Row, attempt: Attempt): Row {
    row.(state := InFlight, attempt := Some(attempt.Stored()), attemptCount := row.attemptCount + 1)
  }

  /** Store an attempt: the row is reserved first, so that it cannot be evicted for its own envelope. */
  ghost predicate StoresAttempt(max: nat, q: Queue, k: nat, attempt: Attempt, room: Room, ok: bool, q': Queue) {
    if k !in q.rows then !ok && q' == q
    else
      var growth := AttemptGrowth(q.rows[k], attempt);
      if growth > 0 && !RoomExists(max, Reserve(q, k).rows, growth) then !ok && q' == q
      else
        && ok
        && exists mid ::
             && (if growth > 0 then MakesRoom(max, Reserve(q, k), growth, room, mid)
                 else mid == Reserve(q, k) && room == Room({}, []))
             && k in mid.rows
             && q' == mid.(rows := mid.rows[k := WithAttempt(mid.rows[k], attempt)])
  }

  function MarkRetry(q: Queue, k: nat, nextAttemptAt: nat): Queue {
    if k !in q.rows then q
    else q.(rows := q.rows[k := q.rows[k].(state := Pending, nextAttemptAt := nextAttemptAt)])
  }

  function MarkDeadLetter(q: Queue, k: nat): Queue {
    if k !in q.rows then q else q.(rows := q.rows[k := q.rows[k].(state := DeadLetter)])
  }

  function LeadingDigits(s: string): (d: string)
    ensures Decimal.AllDigits(d)
    ensures Decimal.AllDigits(s) ==> d == s
  {
    if s == [] || !Decimal.IsDigit(s[0]) then [] else [s[0]] + LeadingDigits(s[1..])
  }

  /** What SQLite skips before a number. */
  predicate IsBlank(c: char) { c == ' ' || 9 <= c as int <= 13 }

  function SkipBlanks(s: string): string { if s != [] && IsBlank(s[0]) then SkipBlanks(s[1..]) else s }

  const INT64_MAX: nat := 0x7FFF_FFFF_FFFF_FFFF

  /** SQLite's integer cast of a text: blanks, a sign and as many digits as there are, held to 64 bits. */
  function CastInteger(s: string): int {
    var t := SkipBlanks(s);
    if t != [] && t[0] == '-' then 0 - Min(Decimal.Value(LeadingDigits(t[1..])), INT64_MAX + 1)
    else Min(Decimal.Value(LeadingDigits(if t != [] && t[0] == '+' then t[1..] else t)), INT64_MAX)
  }

  /** What a gap marker makes of the reported drops. */
  function ReportedWith(reported: nat, findingKey: string): nat {
    if CastInteger(findingKey) > reported then CastInteger(findingKey) else reported
  }

  function MarkAcknowledged(q: Queue, k: nat, now: nat): Queue {
    if k !in q.rows then q.(lastAck := now)
    else
      var row := q.rows[k];
      q.(rows := q.rows[k := row.(state := Acked, ackedAt := now)], lastAck := now,
         reported := if row.IsGap() then ReportedWith(q.reported, row.request.findingKey) else q.reported)
  }

  function PrunedKeys(rows: Rows, olderThan: nat): set<nat> {
    set k | k in rows && rows[k].state.Acked? && rows[k].ackedAt < olderThan
  }

  function PruneAcknowledged(q: Queue, olderThan: nat): Queue {
    var gone := PrunedKeys(q.rows, olderThan);
    q.(rows := q.rows - gone, removedAcked := q.removedAcked + |gone|)
  }

  ghost predicate GapOutstanding(rows: Rows) { exists k | k in rows :: rows[k].IsGap() && rows[k].Waiting() }

  ghost predicate GapNeeded(q: Queue) { q.dropped > q.reported && !GapOutstanding(q.rows) }

  function GapRequest(dropped: nat, hash: string -> string): Request {
    var count := Decimal.ToText(dropped);
    var body := "{\"telemetry_gap\":{\"reason\":\"outbox_capacity\",\"dropped_low_priority\":" + count + "}}";
    Request("EvidenceSummary:TelemetryGap:" + count, "EvidenceSummary", GAP, count, 4, body, "sha256:" + hash(body))
  }

  // ---------- What every operation keeps ----------

  /** Counters are handed out once and never taken back. */
  ghost predicate CountersFresh(q: Queue) {
    q.nextCounter >= 1 && forall k | k in q.rows :: 1 <= k < q.nextCounter
  }

  /** Every event ever accepted is held, was dropped and counted, or was acknowledged and then deleted. */
  ghost predicate Conserved(q: Queue) { q.nextCounter - 1 == |q.rows| + q.dropped + q.removedAcked }

  ghost predicate WithinBudget(max: nat, q: Queue) { max > 0 ==> Used(q.rows) <= max }

  ghost predicate AttemptsCounted(rows: Rows) {
    forall k | k in rows :: rows[k].attempt.Some? <==> rows[k].attemptCount > 0
  }

  ghost predicate ProducersDistinct(rows: Rows) {
    forall j, k | j in rows && k in rows && j != k :: rows[j].request.producerKey != rows[k].request.producerKey
  }

  ghost predicate OneMarker(rows: Rows) {
    forall j, k | j in rows && k in rows && rows[j].IsGap() && rows[k].IsGap() && rows[j].Waiting() && rows[k].Waiting() ::
      j == k
  }

  /** Gap accounting: no marker claims more than was dropped, and at most one is outstanding. */
  ghost predicate GapsSound(q: Queue) {
    && q.reported <= q.dropped
    && (forall k | k in q.rows && q.rows[k].IsGap() :: CastInteger(q.rows[k].request.findingKey) <= q.dropped)
    && OneMarker(q.rows)
  }

  /** The queue's own invariant. */
  ghost predicate Sound(max: nat, q: Queue) {
    CountersFresh(q) && Conserved(q) && WithinBudget(max, q) && AttemptsCounted(q.rows) && ProducersDistinct(q.rows)
  }
}
