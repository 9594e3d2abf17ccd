/** The outbound queue as the code runs it: statements that update the table in place, inside a
    transaction that is undone when room cannot be made. */
module OutboundQueues {
  import opened Base
  import opened Sums
  import opened OutboxModel
  import opened OutboxSafety

  class OutboundQueue {
    const maxBytes: nat
    var rows: Rows
    var nextCounter: nat
    var dropped: nat
    var reported: nat
    var coalesced: nat
    var lastAck: nat
    ghost var removedAcked: nat

    ghost function State(): Queue
      reads this
    {
      Queue(rows, nextCounter, dropped, reported, coalesced, lastAck, removedAcked)
    }

    constructor (maxBytes: nat)
      ensures this.maxBytes == maxBytes && State() == EMPTY
    {
      this.maxBytes := maxBytes;
      rows, nextCounter, dropped, reported, coalesced, lastAck := map[], 1, 0, 0, 0, 0;
      removedAcked := 0;
    }

    /** SELECT SUM over the rows that are not acknowledged. */
    method Measure() returns (used: nat)
      ensures used == Used(rows)
    {
      hide Row.Charge;
      used := 0;
      var left := rows.Keys;
      while left != {}
        invariant left <= rows.Keys
        invariant used + Sum(left, ChargeIn(rows)) == Used(rows)
        decreases left
      {
        var k :| k in left;
        SumWithout(left, ChargeIn(rows), k);
        used := used + rows[k].Charge();
        left := left - {k};
      }
    }

    /** The next row to sacrifice, if any. */
    method FindVictim() returns (victim: Option<nat>)
      ensures victim.None? ==> forall k | k in rows :: !rows[k].Evictable()
      ensures victim.Some? ==> Victim(rows, victim.value) && victim.value in rows && rows[victim.value].Evictable()
    {
      hide Row.Evictable;
      victim := None;
      var left := rows.Keys;
      while left != {}
        invariant left <= rows.Keys
        invariant victim.None? ==> forall k | k in rows && k !in left :: !rows[k].Evictable()
        invariant victim.Some? ==> victim.value in rows && rows[victim.value].Evictable()
        invariant victim.Some? ==> forall k | k in rows && k !in left && rows[k].Evictable() :: Before(rows[victim.value], rows[k])
        decreases left
      {
        var k :| k in left;
        left := left - {k};
        if rows[k].Evictable() && (victim.None? || Before(rows[k], rows[victim.value])) {
          victim := Some(k);
        }
      }
    }

    /** The acknowledged row with the oldest acknowledgement among the candidates. */
    method OldestOf(candidates: set<nat>) returns (oldest: nat)
      requires candidates != {} && candidates <= rows.Keys
      ensures oldest in candidates
      ensures forall k | k in candidates :: rows[oldest].ackedAt <= rows[k].ackedAt
    {
      oldest :| oldest in candidates;
      var left := candidates - {oldest};
      while left != {}
        invariant left <= candidates && oldest in candidates
        invariant forall k | k in candidates && k !in left :: rows[oldest].ackedAt <= rows[k].ackedAt
        decreases left
      {
        var k :| k in left;
        left := left - {k};
        if rows[k].ackedAt < rows[oldest].ackedAt {
          oldest := k;
        }
      }
    }

    method OldestAckedBatch() returns (batch: set<nat>)
      ensures OldestAcked(rows, batch) && batch <= AckedKeys(rows)
    {
      var acked := set k | k in rows && rows[k].state.Acked?;
      assert acked == AckedKeys(rows);
      batch := {};
      var left := acked;
      while |batch| < ACKED_BATCH && left != {}
        invariant batch <= acked && left == acked - batch && |batch| <= ACKED_BATCH
        invariant forall a, b | a in batch && b in left :: rows[a].ackedAt <= rows[b].ackedAt
        decreases left
      {
        var k := OldestOf(left);
        batch, left := batch + {k}, left - {k};
      }
      assert |left| == |acked| - |batch|;
    }

    /** Deletes one batch of acknowledged rows and then low-priority rows until the request fits. It
        succeeds exactly when the rows that may not be sacrificed leave enough of the budget. */
    method EnforceBudget(required: nat) returns (ok: bool, ghost room: Room)
      modifies this`rows, this`dropped, this`removedAcked
      ensures ok <==> RoomExists(maxBytes, old(rows), required)
      ensures ok ==> MakesRoom(maxBytes, old(State()), required, room, State())
    {
      hide Used, Reserved, Victim, OldestAcked, Row.Charge, Row.Evictable;
      room := Room({}, []);
      if maxBytes == 0 {
        return true, room;
      }
      ReservedIsPart(rows);
      var used := Measure();
      if Fits(maxBytes, used, required) {
        return true, room;
      }
      var batch := OldestAckedBatch();
      ReservedWithoutAcked(rows, batch);
      UsedWithoutAcked(rows, batch);
      rows := rows - batch;
      removedAcked := removedAcked + |batch|;
      ghost var trimmed := rows;
      ghost var victims := [];
      while !Fits(maxBytes, used, required)
        invariant used == Used(rows) && Reserved(rows) == Reserved(old(rows))
        invariant EvictsWhileFull(maxBytes, required, trimmed, victims, rows)
        invariant dropped == old(dropped) + |victims| && removedAcked == old(removedAcked) + |batch|
        decreases |rows|
      {
        var victim := FindVictim();
        if victim.None? {
          ReservedIsAll(rows);
          return false, room;
        }
        var k := victim.value;
        ReservedAfterVictim(rows, k);
        RowsWithout(rows, k);
        OneMoreVictim(maxBytes, required, trimmed, victims, rows, k);
        rows := rows - {k};
        victims := victims + [k];
        dropped := dropped + 1;
        used := Measure();
      }
      ReservedIsPart(rows);
      ok, room := true, Room(batch, victims);
    }

    /** Enqueues one event under its producer key. */
    method Enqueue(request: Request, now: nat) returns (result: Option<nat>, ghost room: Room)
      modifies this
      ensures Enqueues(maxBytes, old(State()), request, now, room, result, State())
    {
      hide MakesRoom, RoomExists, Request.Stored;
      room := Room({}, []);
      var stored := request.Stored();
      var existing := FindProducer(stored.producerKey);
      if existing.Some? {
        coalesced := coalesced + 1;
        return existing, room;
      }
      // BEGIN: what ROLLBACK puts back.
      var rows0, dropped0 := rows, dropped;
      ghost var removed0 := removedAcked;
      var ok;
      ok, room := EnforceBudget(|request.payload| + ROW_OVERHEAD);
      if !ok {
        rows, dropped, removedAcked := rows0, dropped0, removed0;
        return None, room;
      }
      ghost var mid := State();
      result := Some(nextCounter);
      rows := rows[nextCounter := NewRow(stored, now)];
      nextCounter := nextCounter + 1;
    }

    method FindProducer(key: string) returns (found: Option<nat>)
      ensures found.Some? ==> HasProducer(rows, key, found.value)
      ensures found.None? ==> forall k :: !HasProducer(rows, key, k)
    {
      var left := rows.Keys;
      while left != {}
        invariant left <= rows.Keys
        invariant forall k | k in rows && k !in left :: rows[k].request.producerKey != key
        decreases left
      {
        var k :| k in left;
        if rows[k].request.producerKey == key {
          return Some(k);
        }
        left := left - {k};
      }
      found := None;
    }

    /** The event to send now, if any. */
    method NextReady(now: nat) returns (next: Option<nat>)
      ensures ReadyNext(rows, now, next)
      ensures next.None? <==> forall k | k in rows && rows[k].state in {Pending, InFlight} :: rows[k].nextAttemptAt > now
    {
      next := None;
      var left := rows.Keys;
      while left != {}
        invariant left <= rows.Keys
        invariant next.None? ==> forall k | k in rows && k !in left :: !Ready(rows[k], now)
        invariant next.Some? ==> next.value in rows && Ready(rows[next.value], now)
        invariant next.Some? ==> forall k | k in rows && k !in left && Ready(rows[k], now) :: Sooner(rows[next.value], rows[k])
        decreases left
      {
        var k :| k in left;
        left := left - {k};
        if Ready(rows[k], now) && (next.None? || Sooner(rows[k], rows[next.value])) {
          next := Some(k);
        }
      }
    }

    /** Stores the write-ahead copy of an envelope in its row, before the envelope is sent. */
    method StoreAttempt(k: nat, attempt: Attempt) returns (ok: bool, ghost room: Room)
      modifies this
      ensures StoresAttempt(maxBytes, old(State()), k, attempt, room, ok, State())
    {
      hide MakesRoom, RoomExists, AttemptGrowth;
      room := Room({}, []);
      if k !in rows {
        return false, room;
      }
      // BEGIN: what ROLLBACK puts back.
      var rows0, dropped0 := rows, dropped;
      ghost var removed0 := removedAcked;
      var growth := AttemptGrowth(rows[k], attempt);
      rows := rows[k := rows[k].(state := InFlight)];
      ghost var reserved := State();
      if growth > 0 {
        ok, room := EnforceBudget(growth);
        if !ok {
          rows, dropped, removedAcked := rows0, dropped0, removed0;
          return;
        }
        RoomMade(maxBytes, reserved, growth, room, State());
      }
      ghost var mid := State();
      rows := rows[k := WithAttempt(rows[k], attempt)];
      ok := true;
    }

    method Retry(k: nat, nextAttemptAt: nat)
      modifies this`rows
      ensures State() == MarkRetry(old(State()), k, nextAttemptAt)
    {
      if k in rows {
        rows := rows[k := rows[k].(state := Pending, nextAttemptAt := nextAttemptAt)];
      }
    }

    method DeadLetter(k: nat)
      modifies this`rows
      ensures State() == MarkDeadLetter(old(State()), k)
    {
      if k in rows {
        rows := rows[k := rows[k].(state := RowState.DeadLetter)];
      }
    }

    method Acknowledge(k: nat, now: nat)
      modifies this`rows, this`reported, this`lastAck
      ensures State() == MarkAcknowledged(old(State()), k, now)
    {
      if k in rows {
        var row := rows[k];
        rows := rows[k := row.(state := Acked, ackedAt := now)];
        if row.IsGap() {
          reported := ReportedWith(reported, row.request.findingKey);
        }
      }
      lastAck := now;
    }

    method Prune(olderThan: nat)
      modifies this`rows, this`removedAcked
      ensures State() == PruneAcknowledged(old(State()), olderThan)
    {
      var gone := PrunedKeys(rows, olderThan);
      rows := rows - gone;
      removedAcked := removedAcked + |gone|;
    }

    /** Hands the queue the marker that reports dropped events, when there are unreported drops and no marker
        is outstanding. A queue that holds that marker already, or has no room for it, takes none. */
    method EnqueueGapMarker(hash: string -> string, now: nat)
      returns (ghost due: bool, ghost room: Room, ghost result: Option<nat>)
      modifies this
      ensures due <==> old(GapNeeded(State()))
      ensures !due ==> State() == old(State())
      ensures due ==> Enqueues(maxBytes, old(State()), GapRequest(old(dropped), hash), now, room, result, State())
      ensures due && Sound(maxBytes, old(State())) ==>
                (GapOutstanding(rows) <==> Taken(maxBytes, old(State()), GapRequest(old(dropped), hash)))
    {
      hide GapRequest, Enqueues, Sound, Taken;
      due, room, result := false, Room({}, []), None;
      if dropped <= reported {
        return;
      }
      var outstanding := exists k | k in rows :: rows[k].IsGap() && rows[k].Waiting();
      if outstanding {
        return;
      }
      due := true;
      var enqueued;
      enqueued, room := Enqueue(GapRequest(dropped, hash), now);
      result := enqueued;
      if Sound(maxBytes, old(State())) {
        GapMarkerEntersIff(maxBytes, old(State()), hash, now, room, result, State());
      }
    }
  }
}
