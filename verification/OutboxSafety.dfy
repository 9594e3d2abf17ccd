/** What making room, enqueueing and storing attempts keep: the byte budget, the order of sacrifice,
    the conservation of events and the gap accounting. */
module OutboxSafety {
  import opened Base
  import opened Sums
  import opened OutboxModel

  ghost predicate OnlyEvictable(rows: Rows, victims: seq<nat>) {
    forall k | k in victims :: k in rows && rows[k].Evictable()
  }

  /** Row a is sacrificed before row b for a reason: it has a lower priority, or the same and is no younger. */
  ghost predicate PairInOrder(rows: Rows, a: nat, b: nat) {
    && a in rows && b in rows && a != b
    && (|| rows[a].request.priority < rows[b].request.priority
        || (rows[a].request.priority == rows[b].request.priority && rows[a].createdAt <= rows[b].createdAt))
  }

  ghost predicate VictimsInOrder(rows: Rows, victims: seq<nat>) {
    forall i, j | 0 <= i < j < |victims| :: PairInOrder(rows, victims[i], victims[j])
  }

  ghost predicate SurvivorsLast(rows: Rows, victims: seq<nat>, rows': Rows) {
    forall k, j | k in victims && j in rows' && rows'[j].Evictable() :: PairInOrder(rows, k, j)
  }

  /** The rows given up, as a property of the table before and after: only evictable rows go, lowest
      priority first and oldest first within a priority, and none goes before one that stays. */
  ghost predicate SacrificedInOrder(rows: Rows, victims: seq<nat>, rows': Rows) {
    OnlyEvictable(rows, victims) && VictimsInOrder(rows, victims) && SurvivorsLast(rows, victims, rows')
  }

  /** The table without the victims. */
  ghost predicate Removed(rows: Rows, victims: seq<nat>, rows': Rows) {
    && (forall k | k in rows' :: k in rows && k !in victims && rows'[k] == rows[k])
    && (forall k | k in rows && k !in rows' :: k in victims && rows[k].Evictable())
    && |rows'| + |victims| == |rows|
  }

  lemma RowsWithout(rows: Rows, k: nat)
    requires k in rows
    ensures |rows - {k}| == |rows| - 1
  {
    assert (rows - {k}).Keys == rows.Keys - {k};
  }

  lemma RemovedFirst(rows: Rows, k: nat, rest: seq<nat>, rows': Rows)
    requires k in rows && rows[k].Evictable() && Removed(rows - {k}, rest, rows')
    ensures Removed(rows, [k] + rest, rows')
  {
    hide Row.Evictable;
    RowsWithout(rows, k);
  }

  lemma RemovedNone(rows: Rows)
    ensures Removed(rows, [], rows)
  {
  }

  lemma {:induction false} EvictionRemoves(max: nat, required: nat, rows: Rows, victims: seq<nat>, rows': Rows)
    requires EvictsWhileFull(max, required, rows, victims, rows')
    ensures Removed(rows, victims, rows')
    decreases |victims|
  {
    hide Used, Before, Row.Evictable, Fits, Removed;
    if victims == [] {
      RemovedNone(rows);
    } else {
      var k := victims[0];
      EvictionRemoves(max, required, rows - {k}, victims[1..], rows');
      RemovedFirst(rows, k, victims[1..], rows');
      assert victims == [k] + victims[1..];
    }
  }

  lemma VictimBefore(rows: Rows, k: nat, j: nat)
    requires Victim(rows, k) && j in rows - {k} && rows[j].Evictable()
    ensures PairInOrder(rows, k, j)
  {
  }

  lemma PairInLarger(rows: Rows, k: nat, a: nat, b: nat)
    requires PairInOrder(rows - {k}, a, b)
    ensures PairInOrder(rows, a, b)
  {
  }

  lemma FirstVictimInOrder(rows: Rows, k: nat, rest: seq<nat>)
    requires Victim(rows, k) && OnlyEvictable(rows - {k}, rest) && VictimsInOrder(rows - {k}, rest)
    ensures OnlyEvictable(rows, [k] + rest) && VictimsInOrder(rows, [k] + rest)
  {
    hide Before, Row.Evictable, PairInOrder;
    var victims := [k] + rest;
    forall i, j | 0 <= i < j < |victims| ensures PairInOrder(rows, victims[i], victims[j]) {
      assert victims[j] == rest[j - 1] && victims[j] in rest;
      if i == 0 {
        VictimBefore(rows, k, victims[j]);
      } else {
        assert victims[i] == rest[i - 1];
        PairInLarger(rows, k, victims[i], victims[j]);
      }
    }
  }

  lemma FirstVictimBeforeSurvivors(rows: Rows, k: nat, rest: seq<nat>, rows': Rows)
    requires Victim(rows, k) && SurvivorsLast(rows - {k}, rest, rows') && Removed(rows - {k}, rest, rows')
    ensures SurvivorsLast(rows, [k] + rest, rows')
  {
    hide Before, Row.Evictable, PairInOrder;
    forall v, j | v in [k] + rest && j in rows' && rows'[j].Evictable() ensures PairInOrder(rows, v, j) {
      assert j in rows - {k} && (rows - {k})[j] == rows[j];
      if v == k {
        VictimBefore(rows, k, j);
      } else {
        assert v in rest;
        PairInLarger(rows, k, v, j);
      }
    }
  }

  /** Eviction has sacrificed rows in order. */
  lemma {:induction false} EvictionInOrder(max: nat, required: nat, rows: Rows, victims: seq<nat>, rows': Rows)
    requires EvictsWhileFull(max, required, rows, victims, rows')
    ensures SacrificedInOrder(rows, victims, rows')
    decreases |victims|
  {
    hide Used, Before, Row.Evictable, Fits, OnlyEvictable, VictimsInOrder, SurvivorsLast, Removed, Victim;
    if victims == [] {
      NoVictims(rows);
    } else {
      var k, rest := victims[0], victims[1..];
      EvictionInOrder(max, required, rows - {k}, rest, rows');
      EvictionRemoves(max, required, rows - {k}, rest, rows');
      FirstVictimInOrder(rows, k, rest);
      FirstVictimBeforeSurvivors(rows, k, rest, rows');
      assert victims == [k] + rest;
    }
  }

  lemma NoVictims(rows: Rows)
    ensures SacrificedInOrder(rows, [], rows)
  {
  }

  // ---------- When room can be made ----------

  lemma ReservedAfterVictim(rows: Rows, k: nat)
    requires k in rows && rows[k].Evictable()
    ensures Reserved(rows - {k}) == Reserved(rows)
  {
    hide Row.Charge;
    assert Kept(rows - {k}) == Kept(rows);
    SumSame(Kept(rows), ChargeIn(rows - {k}), ChargeIn(rows));
  }

  lemma ReservedIsAll(rows: Rows)
    requires forall k | k in rows :: !rows[k].Evictable()
    ensures Reserved(rows) == Used(rows)
  {
    assert Kept(rows) == rows.Keys;
  }

  lemma AckedIsFree(rows: Rows, acked: set<nat>)
    requires acked <= AckedKeys(rows)
    ensures forall k | k in acked :: k in Kept(rows) && rows[k].Charge() == 0
  {
  }

  lemma ReservedWithoutAcked(rows: Rows, acked: set<nat>)
    requires acked <= AckedKeys(rows)
    ensures Reserved(rows - acked) == Reserved(rows)
  {
    hide Row.Charge, AckedKeys;
    AckedIsFree(rows, acked);
    SumWithoutFree(Kept(rows), acked, ChargeIn(rows));
    assert Kept(rows - acked) == Kept(rows) - acked;
    SumSame(Kept(rows) - acked, ChargeIn(rows - acked), ChargeIn(rows));
  }

  lemma UsedWithoutAcked(rows: Rows, acked: set<nat>)
    requires acked <= AckedKeys(rows)
    ensures Used(rows - acked) == Used(rows)
  {
    hide Row.Charge, AckedKeys, Used;
    AckedIsFree(rows, acked);
    UsedWithoutFree(rows, acked);
  }

  lemma ReservedIsPart(rows: Rows)
    ensures Reserved(rows) <= Used(rows)
  {
    hide Row.Charge;
    SumOfPart(Kept(rows), rows.Keys, ChargeIn(rows));
  }

  lemma {:induction false} OneMoreVictim(max: nat, required: nat, rows: Rows, victims: seq<nat>, rows': Rows, k: nat)
    requires EvictsWhileFull(max, required, rows, victims, rows')
    requires !Fits(max, Used(rows'), required) && Victim(rows', k)
    ensures EvictsWhileFull(max, required, rows, victims + [k], rows' - {k})
    decreases |victims|
  {
    hide Used, Victim, Fits;
    if victims == [] {
      assert (victims + [k])[1..] == [];
    } else {
      assert (victims + [k])[1..] == victims[1..] + [k];
      OneMoreVictim(max, required, rows - {victims[0]}, victims[1..], rows', k);
    }
  }

  // ---------- Making room ----------

  /** Making room keeps every row that is not a never-attempted low-priority event or acknowledged,
      leaves room for the request, and accounts for every row that goes. */
  lemma RoomMade(max: nat, q: Queue, required: nat, room: Room, q': Queue)
    requires MakesRoom(max, q, required, room, q')
    ensures max > 0 ==> Fits(max, Used(q'.rows), required)
    ensures forall k | k in q'.rows :: k in q.rows && q'.rows[k] == q.rows[k]
    ensures forall k | k in q.rows && k !in q'.rows :: q.rows[k].Evictable() || q.rows[k].state.Acked?
    ensures |q'.rows| + q'.dropped + q'.removedAcked == |q.rows| + q.dropped + q.removedAcked
    ensures q'.dropped >= q.dropped && q'.reported == q.reported && q'.nextCounter == q.nextCounter
    ensures q'.coalesced == q.coalesced && q'.lastAck == q.lastAck
  {
    hide Used, EvictsWhileFull, Row.Evictable;
    if !(max == 0 || Fits(max, Used(q.rows), required)) {
      var rows1 := q.rows - room.acked;
      EvictionRemoves(max, required, rows1, room.victims, q'.rows);
      assert rows1.Keys == q.rows.Keys - room.acked;
      assert |rows1| == |q.rows| - |room.acked|;
    }
  }

  // ---------- Parts of the invariant ----------

  /** Deleting rows keeps everything that is said row by row. */
  lemma ShrinkKeeps(q: Queue, q': Queue)
    requires CountersFresh(q) && AttemptsCounted(q.rows) && ProducersDistinct(q.rows)
    requires forall k | k in q'.rows :: k in q.rows && q'.rows[k] == q.rows[k]
    requires q'.nextCounter == q.nextCounter
    ensures CountersFresh(q') && AttemptsCounted(q'.rows) && ProducersDistinct(q'.rows)
  {
  }

  /** Changing one row, without touching what it asks for, keeps everything that is said row by row. */
  lemma UpdateKeeps(q: Queue, k: nat, row: Row)
    requires CountersFresh(q) && AttemptsCounted(q.rows) && ProducersDistinct(q.rows)
    requires k in q.rows && row.request == q.rows[k].request && (row.attempt.Some? <==> row.attemptCount > 0)
    ensures var q' := q.(rows := q.rows[k := row]);
            CountersFresh(q') && AttemptsCounted(q'.rows) && ProducersDistinct(q'.rows)
  {
  }

  lemma CountedAt(rows: Rows, k: nat)
    requires AttemptsCounted(rows) && k in rows
    ensures rows[k].attempt.Some? <==> rows[k].attemptCount > 0
  {
  }

  lemma UpdateKeepsCount(rows: Rows, k: nat, row: Row)
    requires k in rows
    ensures |rows[k := row]| == |rows|
  {
    assert rows[k := row].Keys == rows.Keys;
  }

  // ---------- Enqueue ----------

  lemma NewRowCharge(request: Request, now: nat)
    ensures NewRow(request.Stored(), now).Charge() <= RequestBytes(request)
  {
  }

  /** Adding a row under the next counter. */
  lemma InsertKeeps(max: nat, q: Queue, request: Request, now: nat)
    requires CountersFresh(q) && AttemptsCounted(q.rows) && ProducersDistinct(q.rows) && Conserved(q)
    requires max > 0 ==> Fits(max, Used(q.rows), RequestBytes(request))
    requires forall k :: !HasProducer(q.rows, request.Stored().producerKey, k)
    ensures Sound(max, q.(rows := q.rows[q.nextCounter := NewRow(request.Stored(), now)], nextCounter := q.nextCounter + 1))
  {
    hide Used, Row.Charge, ProducersDistinct;
    var c, row := q.nextCounter, NewRow(request.Stored(), now);
    NewRowCharge(request, now);
    var q' := q.(rows := q.rows[c := row], nextCounter := c + 1);
    assert c !in q.rows;
    UsedWith(q.rows, c, row);
    assert q.rows - {c} == q.rows;
    assert q'.rows.Keys == q.rows.Keys + {c};
    InsertKeepsProducers(q, request.Stored(), now);
  }

  lemma InsertKeepsProducers(q: Queue, request: Request, now: nat)
    requires ProducersDistinct(q.rows) && forall k :: !HasProducer(q.rows, request.producerKey, k)
    ensures ProducersDistinct(q.rows[q.nextCounter := NewRow(request, now)])
  {
    assert forall k | k in q.rows :: !HasProducer(q.rows, request.producerKey, k);
  }

  /** Enqueueing any request keeps the queue sound; no row that was ever attempted and no important row goes. */
  lemma EnqueueKeepsSound(max: nat, q: Queue, request: Request, now: nat, room: Room, result: Option<nat>, q': Queue)
    requires Sound(max, q) && Enqueues(max, q, request, now, room, result, q')
    ensures Sound(max, q')
    ensures result.Some? ==> HasProducer(q'.rows, request.Stored().producerKey, result.value)
    ensures forall k | k in q'.rows && k in q.rows :: q'.rows[k] == q.rows[k]
    ensures forall k | k in q'.rows && k !in q.rows :: k == q.nextCounter && q'.rows[k] == NewRow(request.Stored(), now)
    ensures forall k | k in q.rows && k !in q'.rows :: q.rows[k].Evictable() || q.rows[k].state.Acked?
    ensures q'.dropped >= q.dropped && q'.reported == q.reported
    ensures if q'.nextCounter == q.nextCounter then q'.rows == q.rows && q'.dropped == q.dropped
            else q'.nextCounter == q.nextCounter + 1 && q.nextCounter in q'.rows && q.nextCounter !in q.rows
  {
    hide Used, Row.Charge, Row.Evictable, MakesRoom, RoomExists, ProducersDistinct, AttemptsCounted, Request.Stored;
    var stored := request.Stored();
    if !(exists k :: HasProducer(q.rows, stored.producerKey, k)) && RoomExists(max, q.rows, RequestBytes(request)) {
      var mid :| MakesRoom(max, q, RequestBytes(request), room, mid)
                 && q' == mid.(rows := mid.rows[q.nextCounter := NewRow(stored, now)], nextCounter := q.nextCounter + 1);
      RoomMade(max, q, RequestBytes(request), room, mid);
      ShrinkKeeps(q, mid);
      forall k ensures !HasProducer(mid.rows, stored.producerKey, k) {
        assert !HasProducer(q.rows, stored.producerKey, k);
      }
      assert Conserved(mid);
      InsertKeeps(max, mid, request, now);
    } else {
      StampKeepsSound(max, q, q.coalesced + 1, q.lastAck, q.reported);
    }
  }

  /** The queue does not hold the request yet and can make room for it. */
  ghost predicate Taken(max: nat, q: Queue, request: Request) {
    && (forall k :: !HasProducer(q.rows, request.Stored().producerKey, k))
    && RoomExists(max, q.rows, RequestBytes(request))
  }

  lemma RoomKeeps(max: nat, q: Queue, required: nat, room: Room, q': Queue, k: nat)
    requires MakesRoom(max, q, required, room, q') && k in q.rows && !q.rows[k].state.Acked?
    ensures k in q'.rows <==> k !in room.victims
  {
    hide Used, EvictsWhileFull, Row.Evictable;
    if !(max == 0 || Fits(max, Used(q.rows), required)) {
      EvictionRemoves(max, required, q.rows - room.acked, room.victims, q'.rows);
    }
  }

  /** A new row comes exactly with a request that is taken, and then the rows that go are the victims and
      acknowledged ones. */
  lemma TakenExactly(max: nat, q: Queue, request: Request, now: nat, room: Room, result: Option<nat>, q': Queue)
    requires Sound(max, q) && Enqueues(max, q, request, now, room, result, q')
    ensures q'.nextCounter > q.nextCounter <==> Taken(max, q, request)
    ensures Taken(max, q, request) ==>
              forall k | k in q.rows && !q.rows[k].state.Acked? :: k in q'.rows <==> k !in room.victims
  {
    hide Used, MakesRoom, RoomExists, Conserved, WithinBudget, ProducersDistinct, AttemptsCounted, Request.Stored;
    if Taken(max, q, request) {
      var required := RequestBytes(request);
      var mid :| MakesRoom(max, q, required, room, mid)
                 && q' == mid.(rows := mid.rows[q.nextCounter := NewRow(request.Stored(), now)], nextCounter := q.nextCounter + 1);
      forall k | k in q.rows && !q.rows[k].state.Acked? ensures k in q'.rows <==> k !in room.victims {
        RoomKeeps(max, q, required, room, mid, k);
      }
    }
  }

  // ---------- Attempts and marks ----------

  /** Changing one row without touching what it asks for keeps the queue sound exactly when the rest of
      the budget covers what the row is then charged. */
  lemma UpdateSoundIff(max: nat, q: Queue, k: nat, row: Row)
    requires CountersFresh(q) && Conserved(q) && AttemptsCounted(q.rows) && ProducersDistinct(q.rows)
    requires k in q.rows && row.request == q.rows[k].request && (row.attempt.Some? <==> row.attemptCount > 0)
    ensures Sound(max, q.(rows := q.rows[k := row]))
            <==> (max > 0 ==> Used(q.rows) - q.rows[k].Charge() + row.Charge() <= max)
  {
    hide Used, Row.Charge, ProducersDistinct, AttemptsCounted, CountersFresh;
    UpdateKeepsCount(q.rows, k, row);
    UsedAfterUpdate(q.rows, k, row);
    UpdateKeeps(q, k, row);
  }

  /** The bytes reserved for an envelope cover the characters it is charged for. */
  lemma AttemptCharge(row: Row, attempt: Attempt)
    requires !row.state.Acked?
    ensures WithAttempt(row, attempt).Charge() <= row.Charge() + AttemptGrowth(row, attempt)
  {
  }

  /** Storing an attempt never loses the event attempted, and a refusal changes nothing. It keeps the queue
      sound, except that an acknowledged row whose envelope does not grow comes back without being paid for. */
  lemma StoreKeepsSound(max: nat, q: Queue, k: nat, attempt: Attempt, room: Room, ok: bool, q': Queue)
    requires Sound(max, q) && StoresAttempt(max, q, k, attempt, room, ok, q')
    ensures Sound(max, q')
            <==> (k in q.rows && max > 0 && q.rows[k].state.Acked? && AttemptGrowth(q.rows[k], attempt) == 0
                  ==> Used(q.rows) + WithAttempt(q.rows[k], attempt).Size() <= max)
    ensures !ok ==> q' == q
    ensures ok ==> k in q.rows && k in q'.rows && q'.rows[k] == WithAttempt(q.rows[k], attempt)
    ensures forall j | j in q'.rows && j != k :: j in q.rows && q'.rows[j] == q.rows[j]
    ensures forall j | j in q.rows && j !in q'.rows :: j != k && (q.rows[j].Evictable() || q.rows[j].state.Acked?)
    ensures q'.nextCounter == q.nextCounter && q'.dropped >= q.dropped && q'.reported == q.reported
  {
    hide Used, Row.AttemptLength, Row.Size, AttemptGrowth, MakesRoom, RoomExists, Row.Evictable,
      ProducersDistinct, AttemptsCounted, CountersFresh;
    if ok {
      var growth := AttemptGrowth(q.rows[k], attempt);
      var reserved := Reserve(q, k);
      var mid :| (if growth > 0 then MakesRoom(max, reserved, growth, room, mid) else mid == reserved && room == Room({}, []))
                 && k in mid.rows && q' == mid.(rows := mid.rows[k := WithAttempt(mid.rows[k], attempt)]);
      if growth > 0 {
        RoomMade(max, reserved, growth, room, mid);
        AttachWithRoom(max, q, k, attempt, mid);
      } else {
        AttachInPlace(max, q, k, attempt);
        assert q' == q.(rows := q.rows[k := WithAttempt(q.rows[k], attempt)]);
      }
    }
  }

  /** Once there is room for it, the envelope of the reserved row is paid for. */
  lemma AttachWithRoom(max: nat, q: Queue, k: nat, attempt: Attempt, mid: Queue)
    requires Sound(max, q) && k in q.rows && k in mid.rows
    requires max > 0 ==> Fits(max, Used(mid.rows), AttemptGrowth(q.rows[k], attempt))
    requires var reserved := Reserve(q, k);
             && (forall j | j in mid.rows :: j in reserved.rows && mid.rows[j] == reserved.rows[j])
             && |mid.rows| + mid.dropped + mid.removedAcked == |reserved.rows| + q.dropped + q.removedAcked
             && mid.nextCounter == q.nextCounter
    ensures Sound(max, mid.(rows := mid.rows[k := WithAttempt(mid.rows[k], attempt)]))
  {
    hide Used, Row.AttemptLength, Row.Size, AttemptGrowth, ProducersDistinct, AttemptsCounted, CountersFresh;
    var reserved := Reserve(q, k);
    CountedAt(q.rows, k);
    UpdateKeeps(q, k, reserved.rows[k]);
    UpdateKeepsCount(q.rows, k, reserved.rows[k]);
    GrowthOfReserved(q.rows[k], attempt);
    ShrinkKeeps(reserved, mid);
    AttemptCharge(mid.rows[k], attempt);
    UpdateSoundIff(max, mid, k, WithAttempt(mid.rows[k], attempt));
  }

  lemma AttachInPlace(max: nat, q: Queue, k: nat, attempt: Attempt)
    requires Sound(max, q) && k in q.rows && AttemptGrowth(q.rows[k], attempt) == 0
    ensures Sound(max, q.(rows := q.rows[k := WithAttempt(q.rows[k], attempt)]))
            <==> (max > 0 && q.rows[k].state.Acked? ==> Used(q.rows) + WithAttempt(q.rows[k], attempt).Size() <= max)
  {
    hide Used, Row.Size, AttemptGrowth, ProducersDistinct, AttemptsCounted, CountersFresh;
    UpdateSoundIff(max, q, k, WithAttempt(q.rows[k], attempt));
    if !q.rows[k].state.Acked? {
      AttemptCharge(q.rows[k], attempt);
    }
  }

  lemma GrowthOfReserved(row: Row, attempt: Attempt)
    ensures AttemptGrowth(row.(state := InFlight), attempt) == AttemptGrowth(row, attempt)
  {
  }

  /** Changing the state of one row keeps the queue sound exactly when an acknowledged row that comes back
      still fits the budget. */
  lemma MarkSoundIff(max: nat, q: Queue, k: nat, row: Row)
    requires Sound(max, q) && k in q.rows
    requires row.request == q.rows[k].request && row.attempt == q.rows[k].attempt && row.attemptCount == q.rows[k].attemptCount
    ensures Sound(max, q.(rows := q.rows[k := row]))
            <==> (max > 0 && q.rows[k].state.Acked? && !row.state.Acked? ==> Used(q.rows) + q.rows[k].Size() <= max)
  {
    hide Used, Row.Size, ProducersDistinct, CountersFresh;
    assert row.Size() == q.rows[k].Size() by { SameSize(q.rows[k], row); }
    UpdateSoundIff(max, q, k, row);
  }

  lemma SameSize(a: Row, b: Row)
    requires a.request == b.request && a.attempt == b.attempt
    ensures a.Size() == b.Size()
  {
  }

  lemma RetryKeepsSound(max: nat, q: Queue, k: nat, at: nat)
    requires Sound(max, q)
    ensures Sound(max, MarkRetry(q, k, at))
            <==> (max > 0 && k in q.rows && q.rows[k].state.Acked? ==> Used(q.rows) + q.rows[k].Size() <= max)
  {
    hide Sound, Used, Row.Size;
    if k in q.rows {
      MarkSoundIff(max, q, k, q.rows[k].(state := Pending, nextAttemptAt := at));
    }
  }

  lemma DeadLetterKeepsSound(max: nat, q: Queue, k: nat)
    requires Sound(max, q)
    ensures Sound(max, MarkDeadLetter(q, k))
            <==> (max > 0 && k in q.rows && q.rows[k].state.Acked? ==> Used(q.rows) + q.rows[k].Size() <= max)
  {
    hide Sound, Used, Row.Size;
    if k in q.rows {
      MarkSoundIff(max, q, k, q.rows[k].(state := DeadLetter));
    }
  }

  lemma AckKeepsSound(max: nat, q: Queue, k: nat, now: nat)
    requires Sound(max, q)
    ensures Sound(max, MarkAcknowledged(q, k, now))
  {
    hide Sound, Used, Row.Size, ReportedWith;
    var q' := MarkAcknowledged(q, k, now);
    if k in q.rows {
      var row := q.rows[k].(state := Acked, ackedAt := now);
      MarkSoundIff(max, q, k, row);
      var marked := q.(rows := q.rows[k := row]);
      assert q' == marked.(lastAck := now, reported := q'.reported);
      StampKeepsSound(max, marked, q.coalesced, now, q'.reported);
    } else {
      StampKeepsSound(max, q, q.coalesced, now, q.reported);
    }
  }

  /** Three counters play no part in what the queue promises. */
  lemma StampKeepsSound(max: nat, q: Queue, coalesced: nat, now: nat, reported: nat)
    requires Sound(max, q)
    ensures Sound(max, q.(coalesced := coalesced, lastAck := now, reported := reported))
  {
  }

  lemma PruneKeepsSound(max: nat, q: Queue, olderThan: nat)
    requires Sound(max, q)
    ensures Sound(max, PruneAcknowledged(q, olderThan))
  {
    hide Used, Row.Charge, ProducersDistinct, AttemptsCounted, CountersFresh;
    var gone := PrunedKeys(q.rows, olderThan);
    UsedWithoutAcked(q.rows, gone);
    assert (q.rows - gone).Keys == q.rows.Keys - gone;
    assert |q.rows - gone| == |q.rows| - |gone|;
    ShrinkKeeps(q, PruneAcknowledged(q, olderThan));
  }

  lemma EmptyIsSound(max: nat)
    ensures Sound(max, EMPTY)
  {
  }

  lemma PlainColumn(s: string)
    requires '\0' !in s
    ensures Column(s) == s
  {
  }

  lemma ColumnTwice(s: string)
    ensures Column(Column(s)) == Column(s)
  {
  }

  // ---------- Gap markers ----------

  /** What a producer that leaves the gap marker's finding type to the queue hands in. */
  predicate ProducerRequest(request: Request) { request.findingType != GAP }

  /** A marker may claim what was dropped, and only when none is outstanding. */
  ghost predicate GapRequestAllowed(q: Queue, request: Request) {
    request.findingType == GAP && CastInteger(request.findingKey) <= q.dropped && !GapOutstanding(q.rows)
  }

  /** Rows that stay keep what they ask for, and no marker starts to wait again. */
  ghost predicate GapRowsStay(q: Queue, q': Queue) {
    forall k | k in q'.rows && q'.rows[k].IsGap() ::
      && k in q.rows && q'.rows[k].request == q.rows[k].request
      && (q'.rows[k].Waiting() ==> q.rows[k].Waiting())
  }

  lemma GapsStay(q: Queue, q': Queue)
    requires GapsSound(q) && GapRowsStay(q, q') && q'.dropped >= q.dropped && q'.reported <= q'.dropped
    ensures GapsSound(q')
  {
    hide CastInteger;
  }

  lemma EnqueueKeepsGaps(max: nat, q: Queue, request: Request, now: nat, room: Room, result: Option<nat>, q': Queue)
    requires Sound(max, q) && GapsSound(q) && Enqueues(max, q, request, now, room, result, q')
    requires ProducerRequest(request.Stored()) || GapRequestAllowed(q, request.Stored())
    ensures GapsSound(q')
  {
    hide Sound, Enqueues, CastInteger, Request.Stored, Row.Evictable;
    EnqueueKeepsSound(max, q, request, now, room, result, q');
  }

  /** A marker is waiting, and is no victim. */
  ghost predicate OtherMarker(rows: Rows, victims: seq<nat>) {
    exists j | j in rows && j !in victims :: rows[j].IsGap() && rows[j].Waiting()
  }

  /** Enqueueing leaves at most one marker waiting exactly unless it takes one while another stays. */
  lemma EnqueuedMarkers(max: nat, q: Queue, request: Request, now: nat, room: Room, result: Option<nat>, q': Queue)
    requires Sound(max, q) && OneMarker(q.rows) && Enqueues(max, q, request, now, room, result, q')
    ensures OneMarker(q'.rows)
            <==> !(request.Stored().findingType == GAP && Taken(max, q, request) && OtherMarker(q.rows, room.victims))
  {
    hide Sound, Enqueues, Taken, Request.Stored, Row.Evictable;
    EnqueueKeepsSound(max, q, request, now, room, result, q');
    TakenExactly(max, q, request, now, room, result, q');
    if request.Stored().findingType == GAP && Taken(max, q, request) && OtherMarker(q.rows, room.victims) {
      var k :| k in q.rows && k !in room.victims && q.rows[k].IsGap() && q.rows[k].Waiting();
      assert q'.rows[k].IsGap() && q'.rows[q.nextCounter].IsGap() && k != q.nextCounter;
    }
  }

  /** Acknowledging, giving up and deleting rows keep the gap accounting. */
  lemma EndKeepsGaps(q: Queue, k: nat, at: nat)
    requires GapsSound(q)
    ensures GapsSound(MarkAcknowledged(q, k, at)) && GapsSound(MarkDeadLetter(q, k)) && GapsSound(PruneAcknowledged(q, at))
  {
    hide CastInteger, GapsSound;
    AckReportsWithin(q, k, at);
    GapsStay(q, MarkAcknowledged(q, k, at));
    GapsStay(q, MarkDeadLetter(q, k));
    GapsStay(q, PruneAcknowledged(q, at));
  }

  lemma AckReportsWithin(q: Queue, k: nat, at: nat)
    requires GapsSound(q)
    ensures q.reported <= q.dropped && MarkAcknowledged(q, k, at).reported <= q.dropped
  {
    hide CastInteger;
  }

  /** A retry keeps it too, exactly unless it brings a settled marker back while another one is waiting. */
  lemma RetryKeepsGaps(q: Queue, k: nat, at: nat)
    requires GapsSound(q)
    ensures GapsSound(MarkRetry(q, k, at))
            <==> (k in q.rows && q.rows[k].IsGap() && !q.rows[k].Waiting() ==> !GapOutstanding(q.rows))
  {
    hide CastInteger;
    var rows, rows' := q.rows, MarkRetry(q, k, at).rows;
    if k in rows && rows[k].IsGap() && !rows[k].Waiting() && GapOutstanding(rows) {
      var j :| j in rows && rows[j].IsGap() && rows[j].Waiting();
      assert rows'[j] == rows[j] && rows'[k].Waiting() && rows'[k].IsGap();
    }
  }

  /** The row is there, and its envelope does not grow or room can be made for the growth. */
  ghost predicate Attachable(max: nat, q: Queue, k: nat, attempt: Attempt) {
    && k in q.rows
    && (AttemptGrowth(q.rows[k], attempt) == 0 || RoomExists(max, Reserve(q, k).rows, AttemptGrowth(q.rows[k], attempt)))
  }

  /** So does storing an attempt: exactly unless it brings a settled marker back while another one is waiting
      that is not sacrificed for the envelope. */
  lemma StoreKeepsGaps(max: nat, q: Queue, k: nat, attempt: Attempt, room: Room, ok: bool, q': Queue)
    requires Sound(max, q) && GapsSound(q) && StoresAttempt(max, q, k, attempt, room, ok, q')
    ensures GapsSound(q')
            <==> (Attachable(max, q, k, attempt) && q.rows[k].IsGap() && !q.rows[k].Waiting()
                  ==> !OtherMarker(q.rows, room.victims))
  {
    hide Sound, StoresAttempt, CastInteger, Row.Evictable, AttemptGrowth, RoomExists, Used, Row.Size;
    StoreKeepsSound(max, q, k, attempt, room, ok, q');
    OthersStay(max, q, k, attempt, room, ok, q');
    if ok && q.rows[k].IsGap() && !q.rows[k].Waiting() && OtherMarker(q.rows, room.victims) {
      var j :| j in q.rows && j !in room.victims && q.rows[j].IsGap() && q.rows[j].Waiting();
      assert q'.rows[j] == q.rows[j] && q'.rows[k].Waiting() && q'.rows[k].IsGap();
    }
  }

  lemma OthersStay(max: nat, q: Queue, k: nat, attempt: Attempt, room: Room, ok: bool, q': Queue)
    requires StoresAttempt(max, q, k, attempt, room, ok, q')
    ensures ok <==> Attachable(max, q, k, attempt)
    ensures ok ==> forall j | j in q.rows && j != k && !q.rows[j].state.Acked? :: j in q'.rows <==> j !in room.victims
  {
    hide Used, MakesRoom, RoomExists, AttemptGrowth;
    if ok {
      var growth, reserved := AttemptGrowth(q.rows[k], attempt), Reserve(q, k);
      var mid :| (if growth > 0 then MakesRoom(max, reserved, growth, room, mid) else mid == reserved && room == Room({}, []))
                 && k in mid.rows && q' == mid.(rows := mid.rows[k := WithAttempt(mid.rows[k], attempt)]);
      if growth > 0 {
        forall j | j in q.rows && j != k && !q.rows[j].state.Acked? ensures j in q'.rows <==> j !in room.victims {
          RoomKeeps(max, reserved, growth, room, mid, j);
        }
      }
    }
  }

  /** When a marker is due, one waits afterwards exactly when the queue takes it: it holds no marker for the same
      number of drops, and has room. */
  lemma GapMarkerEntersIff(max: nat, q: Queue, hash: string -> string, now: nat, room: Room, result: Option<nat>, q': Queue)
    requires Sound(max, q) && GapNeeded(q) && Enqueues(max, q, GapRequest(q.dropped, hash), now, room, result, q')
    ensures GapOutstanding(q'.rows) <==> Taken(max, q, GapRequest(q.dropped, hash))
  {
    hide Sound, Enqueues, Taken, GapRequest, Request.Stored, Row.Evictable, CastInteger;
    var request := GapRequest(q.dropped, hash);
    GapMarkerAllowed(q, hash);
    EnqueueKeepsSound(max, q, request, now, room, result, q');
    TakenExactly(max, q, request, now, room, result, q');
    if Taken(max, q, request) {
      assert q'.rows[q.nextCounter] == NewRow(request.Stored(), now);
    }
  }

  /** A marker that was given up keeps the next one for the same drops out. */
  lemma DeadMarkerKeepsNextOut(hash: string -> string) returns (q: Queue, q': Queue)
    ensures Sound(0, q) && GapsSound(q) && GapNeeded(q) && q.rows.Keys == {2} && q.rows[2].state.DeadLetter?
    ensures Enqueues(0, q, GapRequest(q.dropped, hash), 0, Room({}, []), Some(2), q') && q'.rows == q.rows
  {
    hide CastInteger, GapRequest, Request.Stored, Used;
    var marker := GapRequest(1, hash).Stored();
    q := EMPTY.(rows := map[2 := NewRow(marker, 0).(state := DeadLetter)], nextCounter := 3, dropped := 1);
    GapMarkerAllowed(EMPTY.(dropped := 1), hash);
    q' := q.(coalesced := 1);
    assert HasProducer(q.rows, marker.producerKey, 2);
  }

  /** The gap marker the queue writes for itself is one it may write. */
  lemma GapMarkerAllowed(q: Queue, hash: string -> string)
    requires GapNeeded(q)
    ensures GapRequestAllowed(q, GapRequest(q.dropped, hash).Stored())
  {
    hide CastInteger, Column;
    CastOfCount(q.dropped);
    PlainColumn(GAP);
  }

  lemma CastOfCount(n: nat)
    ensures Column(Decimal.ToText(n)) == Decimal.ToText(n) && CastInteger(Decimal.ToText(n)) == Min(n, INT64_MAX)
  {
    var count := Decimal.ToText(n);
    Decimal.ValueOfText(n);
    forall i | 0 <= i < |count| ensures count[i] != '\0' { assert Decimal.IsDigit(count[i]); }
    PlainColumn(count);
    assert Decimal.IsDigit(count[0]);
    assert SkipBlanks(count) == count && LeadingDigits(count) == count;
  }

  predicate AllBlank(s: string) { forall i | 0 <= i < |s| :: IsBlank(s[i]) }

  predicate EndsNumber(tail: string) { tail == [] || !Decimal.IsDigit(tail[0]) }

  /** The cast skips blanks, takes a sign and the digits after it, ignores the rest, and saturates at 64 bits. */
  lemma CastReads(blanks: string, sign: string, digits: string, tail: string)
    requires AllBlank(blanks) && (sign == "+" || sign == "-" || (sign == "" && digits != []))
    requires Decimal.AllDigits(digits) && EndsNumber(tail)
    ensures CastInteger(blanks + sign + digits + tail)
            == if sign == "-" then 0 - Min(Decimal.Value(digits), INT64_MAX + 1) else Min(Decimal.Value(digits), INT64_MAX)
  {
    hide CastInteger, SkipBlanks, LeadingDigits, Decimal.Value;
    var number := sign + digits + tail;
    NumberBegins(sign, digits, tail);
    BlanksSkipped(blanks, number);
    DigitsRead(digits, tail);
    assert blanks + sign + digits + tail == blanks + number;
    CastNumber(blanks + number, number, sign, digits + tail, digits);
  }

  lemma NumberBegins(sign: string, digits: string, tail: string)
    requires (sign == "+" || sign == "-" || (sign == "" && digits != [])) && Decimal.AllDigits(digits)
    ensures var number := sign + digits + tail;
            && number != [] && !IsBlank(number[0])
            && (if sign == "" then number == digits + tail && number[0] != '+' && number[0] != '-'
                else number[0] == sign[0] && number[1..] == digits + tail)
  {
    if sign == "" {
      assert Decimal.IsDigit(digits[0]);
    }
  }

  lemma CastNumber(s: string, number: string, sign: string, unsigned: string, digits: string)
    requires SkipBlanks(s) == number && number != [] && Decimal.AllDigits(digits) && LeadingDigits(unsigned) == digits
    requires if sign == "" then number == unsigned && number[0] != '+' && number[0] != '-'
             else (sign == "+" || sign == "-") && number[0] == sign[0] && number[1..] == unsigned
    ensures CastInteger(s)
            == if sign == "-" then 0 - Min(Decimal.Value(digits), INT64_MAX + 1) else Min(Decimal.Value(digits), INT64_MAX)
  {
    hide SkipBlanks, LeadingDigits, Decimal.Value;
  }

  lemma {:induction false} BlanksSkipped(blanks: string, rest: string)
    requires AllBlank(blanks) && rest != [] && !IsBlank(rest[0])
    ensures SkipBlanks(blanks + rest) == rest
  {
    if blanks == [] {
      assert blanks + rest == rest;
    } else {
      assert (blanks + rest)[1..] == blanks[1..] + rest;
      BlanksSkipped(blanks[1..], rest);
    }
  }

  lemma {:induction false} DigitsRead(digits: string, tail: string)
    requires Decimal.AllDigits(digits) && EndsNumber(tail)
    ensures LeadingDigits(digits + tail) == digits
  {
    if digits == [] {
      assert digits + tail == tail;
    } else {
      assert (digits + tail)[1..] == digits[1..] + tail;
      DigitsRead(digits[1..], tail);
    }
  }

  lemma CastOfNine()
    ensures CastInteger("9") == 9
  {
    CastReads("", "", "9", "");
    assert "" + "" + "9" + "" == "9" && "9"[..0] == [] && Decimal.Value("9") == 9;
  }

  /** Acknowledging a row keeps the reported drops within the dropped ones exactly when the row is not a
      gap marker that claims more. */
  lemma AckOverreportsIff(q: Queue, k: nat, now: nat)
    requires q.reported <= q.dropped && k in q.rows
    ensures MarkAcknowledged(q, k, now).reported <= q.dropped
            <==> (q.rows[k].IsGap() ==> CastInteger(q.rows[k].request.findingKey) <= q.dropped)
  {
  }

  function ForeignMarker(producer: string): Request { Request(producer, "m", GAP, "9", 4, "", "") }

  lemma ForeignMarkerIsStored(producer: string)
    requires '\0' !in producer
    ensures ForeignMarker(producer).Stored() == ForeignMarker(producer)
  {
    PlainColumn(producer);
    PlainColumn("m");
    PlainColumn(GAP);
    PlainColumn("9");
  }

  /** Without a budget any request under a new producer key is taken. */
  lemma TakenWithoutBudget(q: Queue, request: Request, now: nat)
    requires forall k :: !HasProducer(q.rows, request.Stored().producerKey, k)
    ensures Enqueues(0, q, request, now, Room({}, []), Some(q.nextCounter),
                     q.(rows := q.rows[q.nextCounter := NewRow(request.Stored(), now)], nextCounter := q.nextCounter + 1))
  {
    hide Request.Stored, Used;
    assert MakesRoom(0, q, RequestBytes(request), Room({}, []), q);
  }

  /** The reserved finding type matters: a producer that used it could make the queue report more drops
      than there were. */
  lemma ForeignGapMarkerOverreports()
    ensures exists q: Queue, request: Request, room: Room, q': Queue ::
              && Sound(0, q) && GapsSound(q) && request.Stored().findingType == GAP
              && Enqueues(0, q, request, 0, room, Some(1), q')
              && MarkAcknowledged(q', 1, 0).reported > MarkAcknowledged(q', 1, 0).dropped
  {
    hide Request.Stored, CastInteger, Enqueues;
    var request := ForeignMarker("p");
    var q' := EMPTY.(rows := EMPTY.rows[1 := NewRow(request, 0)], nextCounter := 2);
    EmptyIsSound(0);
    ForeignMarkerIsStored("p");
    CastOfNine();
    TakenWithoutBudget(EMPTY, request, 0);
    assert Enqueues(0, EMPTY, request, 0, Room({}, []), Some(1), q');
  }
}
