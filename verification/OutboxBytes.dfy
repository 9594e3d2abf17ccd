/** What the length SQLite measures says about bytes, and so what the budget of the outbox is a budget of. */
module OutboxBytes {
  import opened Sums
  import opened OutboxModel
  import opened OutboxSafety
  import opened Dispatch
  import opened DispatchRuns

  // ---------- Lengths ----------

  /** Bytes of ASCII other than NUL. */
  predicate Plain(s: string) { forall i | 0 <= i < |s| :: 1 <= s[i] as int <= 127 }

  predicate Continues(c: char) { 0x80 <= c as int < 0xC0 }

  /** The bytes of one character in UTF-8, other than NUL: by its first byte, one to four of them. */
  predicate IsCharacter(s: string) {
    && s != []
    && (var first := s[0] as int;
        || (|s| == 1 && 1 <= first < 0x80)
        || (|s| == 2 && 0xC2 <= first < 0xE0)
        || (|s| == 3 && 0xE0 <= first < 0xF0)
        || (|s| == 4 && 0xF0 <= first < 0xF5))
    && forall i | 1 <= i < |s| :: Continues(s[i])
  }

  function Text(characters: seq<string>): string {
    if characters == [] then [] else characters[0] + Text(characters[1..])
  }

  ghost predicate AllCharacters(characters: seq<string>) {
    forall i | 0 <= i < |characters| :: IsCharacter(characters[i])
  }

  /** A text in UTF-8 without NUL. */
  ghost predicate WellFormed(s: string) { exists characters :: AllCharacters(characters) && Text(characters) == s }

  /** Continuation bytes of the character being read are passed over. */
  lemma {:induction false} SkipsRest(rest: string, after: string)
    requires forall i | 0 <= i < |rest| :: Continues(rest[i])
    ensures Characters(rest + after, true) == Characters(after, true)
  {
    if rest == [] {
      assert rest + after == after;
    } else {
      assert (rest + after)[1..] == rest[1..] + after && Continues(rest[0]);
      SkipsRest(rest[1..], after);
    }
  }

  lemma OneCharacter(c: string, after: string, inCharacter: bool)
    requires IsCharacter(c)
    ensures Characters(c + after, inCharacter) == 1 + Characters(after, c[0] as int >= 0xC0)
  {
    assert (c + after)[0] == c[0] && (c + after)[1..] == c[1..] + after;
    if |c| == 1 {
      assert c[1..] + after == after;
    } else {
      SkipsRest(c[1..], after);
    }
  }

  /** The measured length of a text is the number of its characters. */
  lemma {:induction false} LengthCountsCharacters(characters: seq<string>, inCharacter: bool)
    requires AllCharacters(characters)
    ensures Characters(Text(characters), inCharacter) == |characters|
    ensures |characters| <= |Text(characters)| <= 4 * |characters|
  {
    if characters != [] {
      var c, rest := characters[0], characters[1..];
      LengthCountsCharacters(rest, c[0] as int >= 0xC0);
      OneCharacter(c, Text(rest), inCharacter);
    }
  }

  /** Of plain text it is the number of bytes. */
  lemma {:induction false} LengthOfPlain(s: string, inCharacter: bool)
    requires Plain(s)
    ensures Characters(s, inCharacter) == |s|
  {
    if s != [] {
      assert Plain(s[1..]) && 1 <= s[0] as int <= 127;
      LengthOfPlain(s[1..], false);
    }
  }

  /** Of text in UTF-8 it is at least a quarter of the bytes. */
  lemma LengthOfWellFormed(s: string)
    requires WellFormed(s)
    ensures |s| <= 4 * StoredLength(s)
  {
    var characters :| AllCharacters(characters) && Text(characters) == s;
    LengthCountsCharacters(characters, false);
  }

  // ---------- Bytes in the table ----------

  function TextOf(row: Row): string { if row.attempt.Some? then row.attempt.value.text else [] }

  /** The bytes a row holds, with the allowance for the rest of it. */
  function BytesOf(row: Row): nat { |row.request.payload| + |TextOf(row)| + 512 }

  predicate PlainRow(row: Row) { Plain(row.request.payload) && Plain(TextOf(row)) }

  ghost predicate WellFormedRow(row: Row) { WellFormed(row.request.payload) && WellFormed(TextOf(row)) }

  ghost function PlainIn(rows: Rows): nat -> nat {
    k => if k in rows && !rows[k].state.Acked? && PlainRow(rows[k]) then BytesOf(rows[k]) else 0
  }

  ghost function WellFormedIn(rows: Rows): nat -> nat {
    k => if k in rows && !rows[k].state.Acked? && WellFormedRow(rows[k]) then BytesOf(rows[k]) else 0
  }

  lemma {:induction false} SumAtMost(keys: set<nat>, f: nat -> nat, g: nat -> nat)
    requires forall k | k in keys :: f(k) <= g(k)
    ensures Sum(keys, f) <= Sum(keys, g)
    decreases |keys|
  {
    if keys != {} {
      var k :| k in keys;
      SumWithout(keys, f, k);
      SumWithout(keys, g, k);
      SumAtMost(keys - {k}, f, g);
    }
  }

  lemma {:induction false} SumQuarter(keys: set<nat>, f: nat -> nat, g: nat -> nat)
    requires forall k | k in keys :: f(k) <= 4 * g(k)
    ensures Sum(keys, f) <= 4 * Sum(keys, g)
    decreases |keys|
  {
    if keys != {} {
      var k :| k in keys;
      SumWithout(keys, f, k);
      SumWithout(keys, g, k);
      SumQuarter(keys - {k}, f, g);
    }
  }

  lemma PlainCharge(row: Row)
    requires PlainRow(row) && !row.state.Acked?
    ensures BytesOf(row) == row.Charge()
  {
    LengthOfPlain(row.request.payload, false);
    LengthOfPlain(TextOf(row), false);
  }

  lemma WellFormedCharge(row: Row)
    requires WellFormedRow(row) && !row.state.Acked?
    ensures BytesOf(row) <= 4 * row.Charge()
  {
    hide WellFormed, StoredLength;
    LengthOfWellFormed(row.request.payload);
    LengthOfWellFormed(TextOf(row));
  }

  /** In every state of every run the rows of plain text that are not acknowledged hold no more bytes than the
      budget, and those in UTF-8 no more than four times as many. */
  lemma BytesAreWithinBudget(cfg: Config, ws: seq<World>, actions: seq<Action>, i: nat)
    requires IsRun(cfg, ws, actions) && i < |ws| && cfg.maxBytes > 0
    ensures var rows := ws[i].queue.rows;
            Sum(rows.Keys, PlainIn(rows)) <= cfg.maxBytes && Sum(rows.Keys, WellFormedIn(rows)) <= 4 * cfg.maxBytes
  {
    hide Step, Start, PlainRow, WellFormedRow, BytesOf, Row.Charge;
    var rows := ws[i].queue.rows;
    OutboxAccounts(cfg, ws, actions, i);
    forall k | k in rows.Keys
      ensures PlainIn(rows)(k) <= ChargeIn(rows)(k) && WellFormedIn(rows)(k) <= 4 * ChargeIn(rows)(k)
    {
      if !rows[k].state.Acked? {
        if PlainRow(rows[k]) { PlainCharge(rows[k]); }
        if WellFormedRow(rows[k]) { WellFormedCharge(rows[k]); }
      }
    }
    SumAtMost(rows.Keys, PlainIn(rows), ChargeIn(rows));
    SumQuarter(rows.Keys, WellFormedIn(rows), ChargeIn(rows));
  }

  /** A queue of plain text takes a new event, when nothing in it may be sacrificed, exactly when its bytes and
      those of the event fit the budget. */
  lemma PlainQueueTakesExactly(max: nat, q: Queue, request: Request)
    requires max > 0 && forall k | k in q.rows :: !q.rows[k].Evictable() && PlainRow(q.rows[k])
    ensures RoomExists(max, q.rows, RequestBytes(request))
            <==> Sum(q.rows.Keys, PlainIn(q.rows)) + |request.payload| + 512 <= max
  {
    hide Row.Evictable, PlainRow, BytesOf, Row.Charge;
    var rows := q.rows;
    forall k | k in rows ensures PlainIn(rows)(k) == ChargeIn(rows)(k) {
      if !rows[k].state.Acked? {
        PlainCharge(rows[k]);
      } else {
        AckedCharge(rows[k]);
      }
    }
    SumSame(rows.Keys, PlainIn(rows), ChargeIn(rows));
    assert Kept(rows) == rows.Keys;
  }

  /** And an event in it gets a new envelope exactly when that is no longer than the one before, or the bytes it has
      more fit the budget too. */
  lemma PlainAttemptFitsExactly(max: nat, q: Queue, k: nat, attempt: Attempt)
    requires max > 0 && forall j | j in q.rows :: !q.rows[j].Evictable() && PlainRow(q.rows[j])
    requires k in q.rows && !q.rows[k].state.Acked?
    ensures var more := |attempt.text| - |TextOf(q.rows[k])|;
            Attachable(max, q, k, attempt) <==> more <= 0 || Sum(q.rows.Keys, PlainIn(q.rows)) + more <= max
  {
    hide PlainRow, BytesOf, Row.Charge;
    var rows := Reserve(q, k).rows;
    PlainGrowth(q.rows[k], attempt);
    forall j | j in rows ensures PlainIn(q.rows)(j) == ChargeIn(rows)(j) && !rows[j].Evictable() {
      if q.rows[j].state.Acked? {
        AckedCharge(q.rows[j]);
      } else {
        PlainCharge(q.rows[j]);
        ReservedCharge(q.rows[j]);
      }
    }
    assert rows.Keys == q.rows.Keys && Kept(rows) == rows.Keys;
    SumSame(rows.Keys, PlainIn(q.rows), ChargeIn(rows));
  }

  lemma PlainGrowth(row: Row, attempt: Attempt)
    requires PlainRow(row)
    ensures AttemptGrowth(row, attempt) == if |attempt.text| > |TextOf(row)| then |attempt.text| - |TextOf(row)| else 0
  {
    LengthOfPlain(TextOf(row), false);
  }

  lemma ReservedCharge(row: Row)
    requires !row.state.Acked?
    ensures row.(state := InFlight).Charge() == row.Charge()
  {
  }

  lemma AckedCharge(row: Row)
    requires row.state.Acked?
    ensures row.Charge() == 0
  {
  }
}
