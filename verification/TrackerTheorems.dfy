/** Whole runs of the tracker: connection ids, write-once facts, snapshot reconciliation, and the
    samples that are stored. */
module TrackerTheorems {
  import opened Base
  import opened TrackerModel
  import opened TrackerRuns

  /** A run: the states it passes through and the input between each two of them. The tracker starts
      empty, over a store with any history. */
  ghost predicate IsRun(states: seq<State>, inputs: seq<Input>) {
    && |states| == |inputs| + 1
    && states[0].entries == map[] && states[0].store.Fresh()
    && forall i | 0 <= i < |inputs| :: states[i + 1] == Step(states[i], inputs[i]).0
  }

  ghost function ReportAt(states: seq<State>, inputs: seq<Input>, i: nat): Report
    requires i < |inputs| && i < |states|
  {
    Step(states[i], inputs[i]).1
  }

  lemma EmptyInv(s: State)
    requires s.entries == map[] && s.store.Fresh()
    ensures Inv(s)
  {
  }

  /** Every state of every run satisfies the invariant. */
  lemma {:induction false} RunInv(states: seq<State>, inputs: seq<Input>, i: nat)
    requires IsRun(states, inputs) && i < |states|
    ensures Inv(states[i])
  {
    hide Inv, Step, Effects, Store.Fresh;
    if i == 0 {
      EmptyInv(states[0]);
    } else {
      RunInv(states, inputs, i - 1);
      StepEffects(states[i - 1], inputs[i - 1]);
    }
  }

  lemma RunEffects(states: seq<State>, inputs: seq<Input>, i: nat)
    requires IsRun(states, inputs) && i < |inputs|
    ensures Inv(states[i]) && Effects(states[i], ReportAt(states, inputs, i), states[i + 1])
  {
    hide Inv, Step, Effects, Store.Fresh;
    RunInv(states, inputs, i);
    StepEffects(states[i], inputs[i]);
  }

  /** At every moment: tracked connections have distinct ids, all of them stored, and a connection known by
      its cookie has that cookie in the store. */
  lemma TrackedIdsAreDistinct(states: seq<State>, inputs: seq<Input>, n: nat, i: Identity, j: Identity)
    requires IsRun(states, inputs) && n < |states| && i in states[n].entries && j in states[n].entries
    ensures states[n].entries[i].tracked.id == states[n].entries[j].tracked.id ==> i == j
    ensures states[n].entries[i].tracked.id in states[n].store.rows
    ensures i.Cookie? ==> states[n].store.rows[states[n].entries[i].tracked.id].cookie == i.cookie
  {
    hide Step;
    RunInv(states, inputs, n);
  }

  // ---------- Admission and retirement ----------

  ghost predicate Gone(s: State, id: nat) { id < s.store.nextId && id !in Live(s.entries) }

  lemma GoneStep(s: State, report: Report, s': State, id: nat)
    requires Effects(s, report, s') && Gone(s, id)
    ensures Gone(s', id) && id !in AdmittedBy(report) && id !in RetiredBy(report)
    ensures report.Admission? ==> report.id != id
    ensures id in s.store.rows ==> id in s'.store.rows && s'.store.rows[id] == s.store.rows[id]
  {
  }

  lemma {:induction false} GoneForever(states: seq<State>, inputs: seq<Input>, i: nat, j: nat, id: nat)
    requires IsRun(states, inputs) && i <= j < |states| && Gone(states[i], id)
    ensures Gone(states[j], id)
    ensures id in states[i].store.rows ==> id in states[j].store.rows && states[j].store.rows[id] == states[i].store.rows[id]
    decreases j - i
  {
    hide Step, Effects, Gone, Inv, Store.Fresh;
    if i < j {
      RunEffects(states, inputs, i);
      GoneStep(states[i], ReportAt(states, inputs, i), states[i + 1], id);
      GoneForever(states, inputs, i + 1, j, id);
    }
  }

  /** A connection that was reported closed or inactive is never reported again, by any later step, and its
      row stays exactly as that report left it. */
  lemma RetiredForGood(states: seq<State>, inputs: seq<Input>, i: nat, j: nat, id: nat)
    requires IsRun(states, inputs) && i < j < |inputs| && id in RetiredBy(ReportAt(states, inputs, i))
    ensures var later := ReportAt(states, inputs, j);
            id !in AdmittedBy(later) && id !in RetiredBy(later) && (later.Admission? ==> later.id != id)
    ensures id in states[i + 1].store.rows && id in states[j + 1].store.rows
            && states[j + 1].store.rows[id] == states[i + 1].store.rows[id]
  {
    hide Step, Effects, Inv, Store.Fresh;
    RunEffects(states, inputs, i);
    RetiredIsGone(states[i], ReportAt(states, inputs, i), states[i + 1], id);
    GoneForever(states, inputs, i + 1, j, id);
    GoneForever(states, inputs, i + 1, j + 1, id);
    RunEffects(states, inputs, j);
    GoneStep(states[j], ReportAt(states, inputs, j), states[j + 1], id);
  }

  lemma RetiredIsGone(s: State, report: Report, s': State, id: nat)
    requires Inv(s) && Effects(s, report, s') && id in RetiredBy(report)
    ensures Gone(s', id) && id in s.store.rows && id in s'.store.rows
  {
  }

  /** No id is admitted twice. */
  lemma AdmittedOnce(states: seq<State>, inputs: seq<Input>, i: nat, j: nat, id: nat)
    requires IsRun(states, inputs) && i < j < |inputs| && id in AdmittedBy(ReportAt(states, inputs, i))
    ensures id !in AdmittedBy(ReportAt(states, inputs, j))
  {
    hide Step, Inv, Store.Fresh;
    RunEffects(states, inputs, i);
    RunEffects(states, inputs, j);
    IdsGrow(states, inputs, i + 1, j);
  }

  lemma {:induction false} IdsGrow(states: seq<State>, inputs: seq<Input>, i: nat, j: nat)
    requires IsRun(states, inputs) && i <= j < |states|
    ensures states[i].store.nextId <= states[j].store.nextId
    decreases j - i
  {
    hide Step, Inv, Store.Fresh;
    if i < j {
      RunEffects(states, inputs, i);
      IdsGrow(states, inputs, i + 1, j);
    }
  }

  // ---------- Write-once facts ----------

  lemma GrowsTransitively(a: Row, b: Row, c: Row)
    requires RowGrows(a, b) && RowGrows(b, c)
    ensures RowGrows(a, c)
  {
  }

  /** Over any stretch of a run, a stored cookie and a known direction never change, and samples and
      events are only added. */
  lemma {:induction false} RowsOnlyGrow(states: seq<State>, inputs: seq<Input>, i: nat, j: nat, id: nat)
    requires IsRun(states, inputs) && i <= j < |states| && id in states[i].store.rows
    ensures id in states[j].store.rows && RowGrows(states[i].store.rows[id], states[j].store.rows[id])
    decreases j - i
  {
    hide Step, Inv, Store.Fresh, RowGrows;
    if i < j {
      RunEffects(states, inputs, i);
      RowsOnlyGrow(states, inputs, i + 1, j, id);
      GrowsTransitively(states[i].store.rows[id], states[i + 1].store.rows[id], states[j].store.rows[id]);
    } else {
      GrowsReflexively(states[i].store.rows[id]);
    }
  }

  lemma GrowsReflexively(a: Row)
    ensures RowGrows(a, a)
  {
  }

  /** A direction promotion is reported at most once per connection. */
  lemma PromotedOnce(states: seq<State>, inputs: seq<Input>, i: nat, j: nat)
    requires IsRun(states, inputs) && i < j < |inputs|
    requires ReportAt(states, inputs, i).Admission? && ReportAt(states, inputs, i).promoted
    requires ReportAt(states, inputs, j).Admission? && ReportAt(states, inputs, j).promoted
    ensures ReportAt(states, inputs, i).id != ReportAt(states, inputs, j).id
  {
    hide Step, Store.Fresh;
    RunEffects(states, inputs, i);
    RunEffects(states, inputs, j);
    var id := ReportAt(states, inputs, i).id;
    PromotionIsReal(states[i], ReportAt(states, inputs, i), states[i + 1]);
    RowsOnlyGrow(states, inputs, i + 1, j, id);
    RowsOnlyGrow(states, inputs, j, j + 1, id);
    PromotionIsReal(states[j], ReportAt(states, inputs, j), states[j + 1]);
  }

  lemma PromotionIsReal(s: State, report: Report, s': State)
    requires Inv(s) && Effects(s, report, s') && report.Admission? && report.promoted
    ensures report.id in s.store.rows && report.id in s'.store.rows
    ensures s.store.rows[report.id].direction == Unknown != s'.store.rows[report.id].direction
  {
  }

  // ---------- Cookies and identities ----------

  /** A step that writes the cookie of a stored connection. */
  ghost predicate WritesCookie(s: State, s': State, id: nat) {
    id in s.store.rows && id in s'.store.rows && s'.store.rows[id].cookie != s.store.rows[id].cookie
  }

  /** The connection has moved to the identity of its new cookie, which nothing else had. */
  ghost predicate MovedToCookie(s: State, report: Report, s': State, id: nat) {
    && id in s.store.rows && id in s'.store.rows
    && var c := s'.store.rows[id].cookie;
    && s.store.rows[id].cookie == 0 && ValidCookie(c) && Cookie(c) !in s.entries
    && (id in RetiredBy(report) || (Cookie(c) in s'.entries && s'.entries[Cookie(c)].tracked.id == id))
  }

  lemma AdoptMoves(s: State, target: Identity, identity: Identity, cookie: Option<nat>, id: nat)
    requires target in s.entries && (target != identity ==> identity !in s.entries)
    requires target != identity && cookie.Some? && ValidCookie(cookie.value) ==> identity == Cookie(cookie.value)
    requires WritesCookie(s, Adopt(s, target, identity, cookie).0, id)
    ensures var (s1, at) := Adopt(s, target, identity, cookie);
            && at == identity == Cookie(s1.store.rows[id].cookie) && identity !in s.entries
            && s.entries[target].tracked.id == id && s.store.rows[id].cookie == 0 && ValidCookie(s1.store.rows[id].cookie)
  {
  }

  lemma LifecycleCookieMoves(s: State, event: LifecycleEvent, direction: Direction, id: nat)
    requires Inv(s) && WritesCookie(s, LifecycleStep(s, event, direction).0, id)
    ensures MovedToCookie(s, LifecycleStep(s, event, direction).1, LifecycleStep(s, event, direction).0, id)
  {
    hide Inv, UniqueMatch, Adopt, EventIdentity, EventTarget, EventKey, Live;
    var (s', report) := LifecycleStep(s, event, direction);
    var identity := EventIdentity(event).value;
    NamedByCookie(event, identity);
    var target := EventTarget(s.entries, event, identity);
    if target.Some? {
      AdoptKeeps(s, target.value, identity, event.cookie);
      var (s1, at) := Adopt(s, target.value, identity, event.cookie);
      TrackedIsStored(s1, at);
      if event.kind.Close? {
        ClosedCookie(s1.store, s1.entries[at].tracked.id, event);
      } else {
        PromotedRow(s1.store, s1.entries[at].tracked.id, event, direction);
      }
      AdoptMoves(s, target.value, identity, event.cookie, id);
    } else {
      BegunRow(s.store, event.cookie.GetOr(0), direction, event);
      FreshId(s);
    }
  }

  lemma FreshId(s: State)
    requires Inv(s)
    ensures s.store.nextId !in s.store.rows
  {
  }

  lemma ClosedCookie(store: Store, id: nat, event: LifecycleEvent)
    requires id in store.rows
    ensures var store' := store.Touch(id, event.at, Closed).AddEvent(id, event);
            store'.rows.Keys == store.rows.Keys && forall k | k in store.rows :: store'.rows[k].cookie == store.rows[k].cookie
  {
  }

  lemma SocketCookieMoves(s: State, input: Input, id: nat)
    requires Inv(s) && input.Snapshot? && WritesCookie(s, Step(s, input).0, id)
    ensures MovedToCookie(s, Step(s, input).1, Step(s, input).0, id)
  {
    hide Inv, UniqueMatch, Adopt, SocketKey, Live, SampleStored, Sampled, Enriched, AdmittedState, Linked;
    var (s', report) := Step(s, input);
    if report.Admission? && !report.newlyAdmitted {
      var cookie := Some(input.socket.cookie);
      var (target, identity) := SocketTarget(s, input.socket, input.resolved);
      AdoptKeeps(s, target, identity, cookie);
      var (s1, at) := Adopt(s, target, identity, cookie);
      TrackedIsStored(s1, at);
      SampledRow(s1.store, s1.entries[at].tracked, input.socket.sample);
      AdoptMoves(s, target, identity, cookie, id);
    } else if report.Admission? {
      SnapshotRow(s.store, input.socket.cookie, input.direction, input.socket.sample, input.origin);
      FreshId(s);
    }
  }

  /** Whenever a run writes a cookie into the store, it was missing, the identity of that cookie was free,
      and the connection is known by it from then on: storing the cookie and re-keying go together. */
  lemma StoredCookieMeansRekeyed(states: seq<State>, inputs: seq<Input>, n: nat, id: nat)
    requires IsRun(states, inputs) && n < |inputs| && WritesCookie(states[n], states[n + 1], id)
    ensures MovedToCookie(states[n], ReportAt(states, inputs, n), states[n + 1], id)
  {
    hide Inv, MovedToCookie, LifecycleStep, SocketStep, ReapedRow, BeginStep;
    RunInv(states, inputs, n);
    match inputs[n]
    case Lifecycle(event, direction) => LifecycleCookieMoves(states[n], event, direction, id);
    case Snapshot(_, _, _, _, _) => SocketCookieMoves(states[n], inputs[n], id);
    case BeginSnapshot => BeginKeepsStore(states[n]);
    case EndSnapshot(polling, incomplete) => EndRow(states[n], polling, incomplete, id);
  }

  lemma BeginKeepsStore(s: State)
    ensures BeginStep(s).store == s.store
  {
  }
}
