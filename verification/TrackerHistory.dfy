/** What the tracker remembers about a connection, against the history of the run: when it was seen,
    how many snapshots it has missed, whether lifecycle events vouch for it, and which samples it had. */
module TrackerHistory {
  import opened Base
  import opened Lists
  import opened Samples
  import opened TrackerModel
  import opened TrackerRuns
  import opened TrackerTheorems

  predicate Mentions(report: Report, id: nat) { report.Admission? && report.id == id }

  ghost function TrackedOf(entries: Entries, id: nat): Tracked
    requires id in Live(entries)
  {
    var i :| i in entries && entries[i].tracked.id == id;
    entries[i].tracked
  }

  lemma TrackedIs(entries: Entries, i: Identity)
    requires i in entries && IdsDistinct(entries)
    ensures entries[i].tracked.id in Live(entries) && TrackedOf(entries, entries[i].tracked.id) == entries[i].tracked
  {
    var id := entries[i].tracked.id;
    assert id in Live(entries);
    var j :| j in entries && entries[j].tracked.id == id && TrackedOf(entries, id) == entries[j].tracked;
  }

  // ---------- One step ----------

  /** The part of the memory that decides whether a connection is given up, and since when it is absent then. */
  datatype View = View(present: bool, misses: nat, lifecycle: bool, lastSeen: nat)

  function ViewOf(t: Tracked): View { View(t.present, t.misses, !SnapshotOwned(t.origin), t.lastSeen.at) }

  function EvolvedView(v: View, input: Input, mentioned: bool): View {
    match input
    case Lifecycle(_, _) => if mentioned then v.(lifecycle := true) else v
    case Snapshot(socket, _, _, _, _) => if mentioned then v.(present := true, lastSeen := socket.sample.at) else v
    case BeginSnapshot => v.(present := false)
    case EndSnapshot(_, _) => v.(misses := if v.present then 0 else v.misses + 1)
  }

  function NewView(input: Input): View {
    match input
    case Snapshot(socket, _, _, origin, _) => View(true, 0, !SnapshotOwned(origin), socket.sample.at)
    case Lifecycle(event, _) => View(false, 0, true, event.at)
    case _ => View(false, 0, true, 0)
  }

  /** The memory of a connection that is tracked after a step, in terms of what it was before. */
  ghost predicate Evolves(s: State, input: Input, report: Report, s': State) {
    forall i | i in s'.entries ::
      var t' := s'.entries[i].tracked;
      if t'.id in AdmittedBy(report) then ViewOf(t') == NewView(input)
      else
        && t'.id in Live(s.entries)
        && ViewOf(t') == EvolvedView(ViewOf(TrackedOf(s.entries, t'.id)), input, Mentions(report, t'.id))
  }

  /** The stored samples after a step, in terms of what they were before. */
  ghost predicate SamplesEvolve(s: State, input: Input, report: Report, s': State) {
    && (forall id | id in s.store.rows && id in s'.store.rows ::
          s'.store.rows[id].samples ==
            if input.Snapshot? && Mentions(report, id) && id in Live(s.entries)
               && Stores(TrackedOf(s.entries, id), input.socket.sample)
            then s.store.rows[id].samples + [input.socket.sample] else s.store.rows[id].samples)
    && (forall id | id in s'.store.rows && id in AdmittedBy(report) ::
          s'.store.rows[id].samples == if input.Snapshot? then [input.socket.sample] else [])
  }

  /** Every connection of `entries1` is one of `entries`, remembered the same way. */
  ghost predicate Remembers(entries: Entries, entries1: Entries) {
    forall i | i in entries1 ::
      entries1[i].tracked.id in Live(entries) && TrackedOf(entries, entries1[i].tracked.id) == entries1[i].tracked
  }

  /** Re-keying moves what is remembered of a connection along. */
  lemma AdoptRemembers(s: State, target: Identity, identity: Identity, cookie: Option<nat>)
    requires IdsDistinct(s.entries) && target in s.entries && (target != identity ==> identity !in s.entries)
    ensures Remembers(s.entries, Adopt(s, target, identity, cookie).0.entries)
  {
    var s1 := Adopt(s, target, identity, cookie).0;
    forall i | i in s1.entries
      ensures s1.entries[i].tracked.id in Live(s.entries)
      ensures TrackedOf(s.entries, s1.entries[i].tracked.id) == s1.entries[i].tracked
    {
      var was := if i in s.entries && s.entries[i] == s1.entries[i] then i else target;
      assert was in s.entries && s.entries[was] == s1.entries[i];
      TrackedIs(s.entries, was);
    }
  }

  /** One tracked connection changes as the input says. */
  lemma KnownEvolves(s: State, entries1: Entries, at: Identity, input: Input, report: Report, s': State)
    requires Remembers(s.entries, entries1) && IdsDistinct(entries1) && at in entries1 && at in s'.entries
    requires s'.entries == entries1[at := s'.entries[at]] && s'.entries[at].tracked.id == entries1[at].tracked.id
    requires report.Admission? && !report.newlyAdmitted && report.id == entries1[at].tracked.id
    requires ViewOf(s'.entries[at].tracked) == EvolvedView(ViewOf(entries1[at].tracked), input, true)
    requires input.Lifecycle? || input.Snapshot?
    ensures Evolves(s, input, report, s')
  {
    hide Live, TrackedOf, ViewOf;
    forall i | i in s'.entries
      ensures var t' := s'.entries[i].tracked;
              && t'.id in Live(s.entries)
              && ViewOf(t') == EvolvedView(ViewOf(TrackedOf(s.entries, t'.id)), input, Mentions(report, t'.id))
    {
      assert i in entries1;
    }
  }

  lemma ClosedEvolves(s: State, entries1: Entries, at: Identity, input: Input, report: Report, s': State)
    requires Remembers(s.entries, entries1) && IdsDistinct(entries1) && at in entries1 && s'.entries == entries1 - {at}
    requires report.Admission? && !report.newlyAdmitted && report.id == entries1[at].tracked.id && input.Lifecycle?
    ensures Evolves(s, input, report, s')
  {
    hide Live, TrackedOf, ViewOf;
    forall i | i in s'.entries
      ensures var t' := s'.entries[i].tracked;
              && t'.id in Live(s.entries)
              && ViewOf(t') == EvolvedView(ViewOf(TrackedOf(s.entries, t'.id)), input, Mentions(report, t'.id))
    {
      assert i in entries1 && i != at;
    }
  }

  lemma CloseEvolves(s: State, event: LifecycleEvent, direction: Direction)
    requires Inv(s) && event.kind.Close?
    ensures var (s', report) := LifecycleStep(s, event, direction);
            report.Admission? ==> Evolves(s, Lifecycle(event, direction), report, s')
                                  && SamplesEvolve(s, Lifecycle(event, direction), report, s')
  {
    hide Inv, Live, RowGrows, Adopt, EventIdentity, EventTarget, TrackedOf, StoreGrows, Evolves, Remembers, IdsDistinct;
    var (s', report) := LifecycleStep(s, event, direction);
    if report.Admission? {
      var identity := EventIdentity(event).value;
      var target := EventTarget(s.entries, event, identity).value;
      NamedByCookie(event, identity);
      InvIds(s);
      AdoptKeeps(s, target, identity, event.cookie);
      AdoptRemembers(s, target, identity, event.cookie);
      var (s1, at) := Adopt(s, target, identity, event.cookie);
      InvIds(s1);
      TrackedIsStored(s1, at);
      ClosedRow(s1.store, s1.entries[at].tracked.id, event);
      ClosedEvolves(s, s1.entries, at, Lifecycle(event, direction), report, s');
    }
  }

  lemma OpenKnownEvolves(s: State, event: LifecycleEvent, direction: Direction)
    requires Inv(s) && !event.kind.Close? && EventIdentity(event).Some?
    requires EventTarget(s.entries, event, EventIdentity(event).value).Some?
    requires LifecycleStep(s, event, direction).1.Admission?
    ensures var (s', report) := LifecycleStep(s, event, direction);
            Evolves(s, Lifecycle(event, direction), report, s') && SamplesEvolve(s, Lifecycle(event, direction), report, s')
  {
    hide Inv, Live, RowGrows, Adopt, EventIdentity, EventTarget, TrackedOf, StoreGrows, Evolves, SamplesEvolve, Remembers, IdsDistinct;
    var (s', report) := LifecycleStep(s, event, direction);
    var identity := EventIdentity(event).value;
    var target := EventTarget(s.entries, event, identity).value;
    NamedByCookie(event, identity);
    InvIds(s);
    AdoptKeeps(s, target, identity, event.cookie);
    AdoptRemembers(s, target, identity, event.cookie);
    var (s1, at) := Adopt(s, target, identity, event.cookie);
    InvIds(s1);
    TrackedIsStored(s1, at);
    PromotedRow(s1.store, s1.entries[at].tracked.id, event, direction);
    KnownEvolves(s, s1.entries, at, Lifecycle(event, direction), report, s');
    SamplesStay(s, Lifecycle(event, direction), report, s');
  }

  lemma SamplesStay(s: State, input: Input, report: Report, s': State)
    requires input.Lifecycle? && AdmittedBy(report) == {}
    requires forall id | id in s.store.rows && id in s'.store.rows :: s'.store.rows[id].samples == s.store.rows[id].samples
    ensures SamplesEvolve(s, input, report, s')
  {
    hide Live, TrackedOf;
  }

  lemma OpenNewEvolves(s: State, event: LifecycleEvent, direction: Direction)
    requires Inv(s) && !event.kind.Close? && EventIdentity(event).Some?
    requires EventTarget(s.entries, event, EventIdentity(event).value).None?
    requires LifecycleStep(s, event, direction).1.Admission?
    ensures var (s', report) := LifecycleStep(s, event, direction);
            Evolves(s, Lifecycle(event, direction), report, s') && SamplesEvolve(s, Lifecycle(event, direction), report, s')
  {
    hide Live, EventIdentity, UniqueMatch, Linked, SamplesLinked, CookiesStored, TrackedOf, EventKey, Evolves;
    var (s', report) := LifecycleStep(s, event, direction);
    BegunRow(s.store, event.cookie.GetOr(0), direction, event);
    OldRemembered(s, s', EventIdentity(event).value, Lifecycle(event, direction), report);
  }

  /** Admitting one connection leaves the memory of the others alone. */
  lemma OldRemembered(s: State, s': State, identity: Identity, input: Input, report: Report)
    requires Inv(s) && identity in s'.entries && s'.entries == s.entries[identity := s'.entries[identity]]
    requires identity !in s.entries && s'.entries[identity].tracked.id == s.store.nextId
    requires report.Admission? && report.newlyAdmitted && report.id == s.store.nextId
    requires input.Lifecycle? || input.Snapshot?
    requires ViewOf(s'.entries[identity].tracked) == NewView(input)
    ensures Evolves(s, input, report, s')
  {
    hide Live, TrackedOf, Linked, SamplesLinked, CookiesStored;
    forall i | i in s'.entries && i != identity
      ensures var t' := s'.entries[i].tracked;
              t'.id != report.id && t'.id in Live(s.entries) && TrackedOf(s.entries, t'.id) == t'
    {
      TrackedIs(s.entries, i);
    }
  }

  lemma SocketNewEvolves(s: State, input: Input)
    requires Inv(s) && input.Snapshot?
    requires Step(s, input).1.Admission? && Step(s, input).1.newlyAdmitted
    ensures Evolves(s, input, Step(s, input).1, Step(s, input).0)
    ensures SamplesEvolve(s, input, Step(s, input).1, Step(s, input).0)
  {
    hide Live, Linked, SamplesLinked, CookiesStored, TrackedOf, SocketKey, UniqueMatch, Adopt, SampleStored, Sampled,
      AdmittedState;
    var (s', report) := Step(s, input);
    SnapshotRow(s.store, input.socket.cookie, input.direction, input.socket.sample, input.origin);
    OldRemembered(s, s', SocketIdentity(input.socket), input, report);
  }

  lemma SampledView(t: Tracked, sample: Sample)
    ensures var t' := Sampled(t, sample).(origin := Enriched(t.origin));
            t'.id == t.id && ViewOf(t') == ViewOf(t).(present := true, lastSeen := sample.at)
  {
  }

  lemma SampledSamples(store: Store, t: Tracked, sample: Sample)
    requires t.id in store.rows
    ensures var store' := SampleStored(store, t, sample);
            && store'.rows.Keys == store.rows.Keys
            && (forall id | id in store.rows :: store'.rows[id].samples ==
                  if id == t.id && Stores(t, sample) then store.rows[id].samples + [sample] else store.rows[id].samples)
  {
    hide MeaningfulChange;
  }

  lemma SocketKnownEvolves(s: State, input: Input)
    requires Inv(s) && input.Snapshot?
    requires Step(s, input).1.Admission? && !Step(s, input).1.newlyAdmitted
    ensures Evolves(s, input, Step(s, input).1, Step(s, input).0)
    ensures SamplesEvolve(s, input, Step(s, input).1, Step(s, input).0)
  {
    hide Inv, Live, TrackedOf, SocketKey, UniqueMatch, Adopt, SampleStored, Sampled, Stores, StoreGrows, Enriched, ViewOf,
      Evolves, Remembers, IdsDistinct, SamplesEvolve;
    var (s', report) := Step(s, input);
    var sample, cookie := input.socket.sample, Some(input.socket.cookie);
    var (target, identity) := SocketTarget(s, input.socket, input.resolved);
    InvIds(s);
    AdoptKeeps(s, target, identity, cookie);
    AdoptRemembers(s, target, identity, cookie);
    var (s1, at) := Adopt(s, target, identity, cookie);
    InvIds(s1);
    TrackedIsStored(s1, at);
    SampledView(s1.entries[at].tracked, sample);
    KnownEvolves(s, s1.entries, at, input, report, s');
    KnownSamples(s, s1, at, input, report, s');
  }

  lemma KnownSamples(s: State, s1: State, at: Identity, input: Input, report: Report, s': State)
    requires Remembers(s.entries, s1.entries) && at in s1.entries && input.Snapshot?
    requires s1.entries[at].tracked.id in s1.store.rows && s1.store.rows.Keys == s.store.rows.Keys
    requires forall id | id in s.store.rows :: s1.store.rows[id].samples == s.store.rows[id].samples
    requires s'.store == SampleStored(s1.store, s1.entries[at].tracked, input.socket.sample)
    requires report.Admission? && !report.newlyAdmitted && report.id == s1.entries[at].tracked.id
    ensures SamplesEvolve(s, input, report, s')
  {
    hide Live, TrackedOf, SampleStored, Stores;
    SampledSamples(s1.store, s1.entries[at].tracked, input.socket.sample);
  }

  lemma QuietEvolves(s: State, input: Input)
    requires Inv(s) && (input.BeginSnapshot? || input.EndSnapshot?)
    ensures Evolves(s, input, Step(s, input).1, Step(s, input).0)
    ensures SamplesEvolve(s, input, Step(s, input).1, Step(s, input).0)
  {
    hide Live, Linked, SamplesLinked, CookiesStored, TrackedOf, Reaped, ReapedIds, ReapedRow, LifecycleStep, SocketStep;
    var (s', report) := Step(s, input);
    forall i | i in s'.entries
      ensures s'.entries[i].tracked.id in Live(s.entries)
      ensures i in s.entries && s.entries[i].tracked == TrackedOf(s.entries, s'.entries[i].tracked.id)
    {
      TrackedIs(s.entries, i);
    }
    if input.EndSnapshot? {
      forall id | id in s.store.rows ensures s'.store.rows[id].samples == s.store.rows[id].samples {
        EndRow(s, input.polling, input.incomplete, id);
      }
    }
  }

  lemma NothingEvolves(s: State, input: Input)
    requires Inv(s) && (input.Lifecycle? || input.Snapshot?)
    ensures Evolves(s, input, Nothing, s) && SamplesEvolve(s, input, Nothing, s)
  {
    hide Live, Linked, SamplesLinked, CookiesStored, TrackedOf;
    forall i | i in s.entries
      ensures s.entries[i].tracked.id in Live(s.entries)
      ensures s.entries[i].tracked == TrackedOf(s.entries, s.entries[i].tracked.id)
    {
      TrackedIs(s.entries, i);
    }
  }

  lemma StepEvolves(s: State, input: Input)
    requires Inv(s)
    ensures Evolves(s, input, Step(s, input).1, Step(s, input).0)
    ensures SamplesEvolve(s, input, Step(s, input).1, Step(s, input).0)
  {
    hide Inv, Evolves, SamplesEvolve, EventIdentity, EventTarget, UniqueMatch, Adopt, SocketKey, EventKey;
    var (s', report) := Step(s, input);
    match input
    case Lifecycle(event, direction) =>
      NothingEvolves(s, input);
      if report.Admission? {
        if event.kind.Close? {
          CloseEvolves(s, event, direction);
        } else if EventTarget(s.entries, event, EventIdentity(event).value).Some? {
          OpenKnownEvolves(s, event, direction);
        } else {
          OpenNewEvolves(s, event, direction);
        }
      }
    case Snapshot(_, _, _, _, _) =>
      NothingEvolves(s, input);
      if report.Admission? {
        if report.newlyAdmitted { SocketNewEvolves(s, input); } else { SocketKnownEvolves(s, input); }
      }
    case _ => QuietEvolves(s, input);
  }

  // ---------- The history of one connection ----------

  /** Step m was a snapshot observation of this connection. */
  ghost predicate Sighted(states: seq<State>, inputs: seq<Input>, m: nat, id: nat)
    requires m < |inputs| && m < |states|
  {
    inputs[m].Snapshot? && Mentions(ReportAt(states, inputs, m), id)
  }

  /** Step m was a lifecycle event of this connection, or a snapshot admitted it under a lifecycle origin. */
  ghost predicate Vouched(states: seq<State>, inputs: seq<Input>, m: nat, id: nat)
    requires m < |inputs| && m < |states|
  {
    var report := ReportAt(states, inputs, m);
    && Mentions(report, id)
    && (inputs[m].Lifecycle? || (inputs[m].Snapshot? && report.newlyAdmitted && inputs[m].origin in {LifecycleExact, LifecyclePlusSnapshot}))
  }

  /** The connection was observed since the current snapshot began. */
  ghost predicate Seen(states: seq<State>, inputs: seq<Input>, n: nat, id: nat)
    requires n <= |inputs| && n <= |states|
  {
    exists m | 0 <= m < n :: Sighted(states, inputs, m, id) && forall k | m < k < n :: !inputs[k].BeginSnapshot?
  }

  ghost predicate Evidenced(states: seq<State>, inputs: seq<Input>, n: nat, id: nat)
    requires n <= |inputs| && n <= |states|
  {
    exists m | 0 <= m < n :: Vouched(states, inputs, m, id)
  }

  /** How many of the latest snapshots in a row ended without the connection, since it was admitted. */
  ghost function Misses(states: seq<State>, inputs: seq<Input>, n: nat, id: nat): nat
    requires n <= |inputs| && n <= |states|
  {
    if n == 0 || id in AdmittedBy(ReportAt(states, inputs, n - 1)) then 0
    else if !inputs[n - 1].EndSnapshot? then Misses(states, inputs, n - 1, id)
    else if Seen(states, inputs, n - 1, id) then 0
    else Misses(states, inputs, n - 1, id) + 1
  }

  /** All samples of the connection, stored or not. */
  ghost function Observed(states: seq<State>, inputs: seq<Input>, n: nat, id: nat): seq<Sample>
    requires n <= |inputs| && n <= |states|
  {
    if n == 0 then []
    else
      var before := Observed(states, inputs, n - 1, id);
      if Sighted(states, inputs, n - 1, id) then before + [inputs[n - 1].socket.sample] else before
  }

  /** When the connection was last in a snapshot, or else when the event that admitted it happened. */
  ghost function LastSeen(states: seq<State>, inputs: seq<Input>, n: nat, id: nat): nat
    requires n <= |inputs| && n <= |states|
  {
    if n == 0 then 0
    else if Sighted(states, inputs, n - 1, id) then inputs[n - 1].socket.sample.at
    else if inputs[n - 1].Lifecycle? && id in AdmittedBy(ReportAt(states, inputs, n - 1)) then inputs[n - 1].event.at
    else LastSeen(states, inputs, n - 1, id)
  }

  lemma SeenStep(states: seq<State>, inputs: seq<Input>, n: nat, id: nat)
    requires 0 < n <= |inputs| && n <= |states|
    ensures Seen(states, inputs, n, id)
            <==> !inputs[n - 1].BeginSnapshot? && (Sighted(states, inputs, n - 1, id) || Seen(states, inputs, n - 1, id))
  {
    hide ReportAt;
    if !inputs[n - 1].BeginSnapshot? && Sighted(states, inputs, n - 1, id) {
      assert Seen(states, inputs, n, id);
    }
    if !inputs[n - 1].BeginSnapshot? && Seen(states, inputs, n - 1, id) {
      var m :| 0 <= m < n - 1 && Sighted(states, inputs, m, id) && forall k | m < k < n - 1 :: !inputs[k].BeginSnapshot?;
      assert forall k | m < k < n :: !inputs[k].BeginSnapshot?;
    }
    if Seen(states, inputs, n, id) {
      var m :| 0 <= m < n && Sighted(states, inputs, m, id) && forall k | m < k < n :: !inputs[k].BeginSnapshot?;
      assert !inputs[n - 1].BeginSnapshot?;
      if m < n - 1 {
        assert forall k | m < k < n - 1 :: !inputs[k].BeginSnapshot?;
      }
    }
  }

  lemma EvidencedStep(states: seq<State>, inputs: seq<Input>, n: nat, id: nat)
    requires 0 < n <= |inputs| && n <= |states|
    ensures Evidenced(states, inputs, n, id)
            <==> Vouched(states, inputs, n - 1, id) || Evidenced(states, inputs, n - 1, id)
  {
    hide ReportAt;
  }

  lemma {:induction false} UnknownBefore(states: seq<State>, inputs: seq<Input>, n: nat, id: nat)
    requires IsRun(states, inputs) && n <= |inputs| && id >= states[n].store.nextId
    ensures forall m | 0 <= m < n :: !Mentions(ReportAt(states, inputs, m), id)
    ensures Observed(states, inputs, n, id) == []
  {
    hide Step, Inv, Store.Fresh, ReportAt;
    if n > 0 {
      RunEffects(states, inputs, n - 1);
      MentionedIsKnown(states[n - 1], ReportAt(states, inputs, n - 1), states[n]);
      UnknownBefore(states, inputs, n - 1, id);
    }
  }

  lemma MentionedIsKnown(s: State, report: Report, s': State)
    requires Inv(s) && Effects(s, report, s')
    ensures report.Admission? ==> report.id < s'.store.nextId
    ensures s.store.nextId <= s'.store.nextId
  {
  }

  /** What the tracker remembers of a tracked connection is its history: present means seen since the
      snapshot began, the miss count is the number of snapshots missed in a row, and the origin is a
      lifecycle one exactly when something vouched for it, which is never forgotten. It was last seen when it
      was last in a snapshot, or else when it was admitted. */
  lemma {:induction false} MemoryIsHistory(states: seq<State>, inputs: seq<Input>, n: nat, id: nat)
    requires IsRun(states, inputs) && n <= |inputs| && id in Live(states[n].entries)
    ensures ViewOf(TrackedOf(states[n].entries, id))
            == View(Seen(states, inputs, n, id), Misses(states, inputs, n, id), Evidenced(states, inputs, n, id),
                    LastSeen(states, inputs, n, id))
  {
    hide Step, Inv, Store.Fresh, Effects, TrackedOf, ViewOf, Seen, Evidenced;
    if n > 0 {
      var report := ReportAt(states, inputs, n - 1);
      RunEffects(states, inputs, n - 1);
      ViewStep(states, inputs, n, id);
      SeenStep(states, inputs, n, id);
      EvidencedStep(states, inputs, n, id);
      if id in AdmittedBy(report) {
        AdmittedIsNew(states[n - 1], report, states[n], id);
        OnlyObservationsAdmit(states[n - 1], inputs[n - 1]);
        UnknownBefore(states, inputs, n - 1, id);
        NotSeenBefore(states, inputs, n - 1, id);
      } else {
        MemoryIsHistory(states, inputs, n - 1, id);
      }
    }
  }

  lemma AdmittedIsNew(s: State, report: Report, s': State, id: nat)
    requires Effects(s, report, s') && id in AdmittedBy(report)
    ensures id == s.store.nextId
  {
  }

  lemma OnlyObservationsAdmit(s: State, input: Input)
    ensures Step(s, input).1.Admission? ==> input.Lifecycle? || input.Snapshot?
  {
    hide LifecycleStep, SocketStep;
  }

  lemma NotSeenBefore(states: seq<State>, inputs: seq<Input>, n: nat, id: nat)
    requires n <= |inputs| && n <= |states| && forall m | 0 <= m < n :: !Mentions(ReportAt(states, inputs, m), id)
    ensures !Seen(states, inputs, n, id) && !Evidenced(states, inputs, n, id)
  {
  }

  lemma ViewStep(states: seq<State>, inputs: seq<Input>, n: nat, id: nat)
    requires IsRun(states, inputs) && 0 < n <= |inputs| && id in Live(states[n].entries)
    ensures var report := ReportAt(states, inputs, n - 1);
            var view' := ViewOf(TrackedOf(states[n].entries, id));
            if id in AdmittedBy(report) then view' == NewView(inputs[n - 1])
            else id in Live(states[n - 1].entries)
                 && view' == EvolvedView(ViewOf(TrackedOf(states[n - 1].entries, id)), inputs[n - 1], Mentions(report, id))
  {
    hide Step, Inv, ViewOf, NewView, EvolvedView;
    RunInv(states, inputs, n - 1);
    RunInv(states, inputs, n);
    InvIds(states[n]);
    StepEvolves(states[n - 1], inputs[n - 1]);
    var i :| i in states[n].entries && states[n].entries[i].tracked.id == id;
    TrackedIs(states[n].entries, i);
  }

  // ---------- Reconciliation ----------

  /** A snapshot ends by giving up exactly the tracked connections that were not in it and that either
      polling decides about, or that have now been missing for three snapshots in a row while nothing but
      snapshots vouches for them or lifecycle evidence is known to be incomplete. */
  lemma SnapshotGivesUpExactly(states: seq<State>, inputs: seq<Input>, n: nat, id: nat)
    requires IsRun(states, inputs) && n < |inputs| && inputs[n].EndSnapshot?
    ensures id in RetiredBy(ReportAt(states, inputs, n))
            <==> && id in Live(states[n].entries) && !Seen(states, inputs, n, id)
                 && (inputs[n].polling
                     || ((!Evidenced(states, inputs, n, id) || inputs[n].incomplete)
                         && Misses(states, inputs, n, id) + 1 >= MISS_LIMIT))
  {
    hide Seen, Evidenced, Misses, Inv, TrackedOf, BeginStep, LifecycleStep, SocketStep;
    RunInv(states, inputs, n);
    InvIds(states[n]);
    ReapedExactly(states[n], inputs[n].polling, inputs[n].incomplete, id);
    if id in Live(states[n].entries) {
      MemoryIsHistory(states, inputs, n, id);
    }
  }

  lemma ReapedExactly(s: State, polling: bool, incomplete: bool, id: nat)
    requires IdsDistinct(s.entries)
    ensures id in ReapedIds(s.entries, polling, incomplete)
            <==> id in Live(s.entries) && Reaped(TrackedOf(s.entries, id), polling, incomplete)
  {
    if id in Live(s.entries) {
      var i :| i in s.entries && s.entries[i].tracked.id == id;
      TrackedIs(s.entries, i);
    }
  }

  /** With complete lifecycle evidence, absence from snapshots never gives up a connection that something, a
      lifecycle event in particular, vouched for. */
  lemma LifecycleConnectionsSurviveAbsence(states: seq<State>, inputs: seq<Input>, n: nat, m: nat, id: nat)
    requires IsRun(states, inputs) && m < n < |inputs|
    requires inputs[n] == EndSnapshot(false, false) && Vouched(states, inputs, m, id)
    ensures id !in RetiredBy(ReportAt(states, inputs, n))
  {
    hide Step, Seen, Misses, Inv;
    SnapshotGivesUpExactly(states, inputs, n, id);
  }

  /** A run of misses is made of snapshots that ended without the connection while it was tracked. */
  lemma {:induction false} MissesAreSnapshots(states: seq<State>, inputs: seq<Input>, n: nat, id: nat) returns (m: nat)
    requires IsRun(states, inputs) && n <= |inputs| && id in Live(states[n].entries) && Misses(states, inputs, n, id) > 0
    ensures m < n && inputs[m].EndSnapshot? && id in Live(states[m].entries) && !Seen(states, inputs, m, id)
    ensures Misses(states, inputs, m, id) == Misses(states, inputs, n, id) - 1
    ensures forall k | m < k < n :: !inputs[k].EndSnapshot?
  {
    hide Step, Inv, Store.Fresh, ReportAt, Seen;
    m := n - 1;
    RunEffects(states, inputs, n - 1);
    LiveBefore(states[n - 1], ReportAt(states, inputs, n - 1), states[n], id);
    if !inputs[n - 1].EndSnapshot? {
      m := MissesAreSnapshots(states, inputs, n - 1, id);
    }
  }

  lemma LiveBefore(s: State, report: Report, s': State, id: nat)
    requires Effects(s, report, s') && id in Live(s'.entries) && id !in AdmittedBy(report)
    ensures id in Live(s.entries)
  {
  }

  /** Unless polling decides, a connection is given up only after it was missing from at least three
      snapshots in a row, all of them while it was tracked. */
  lemma ThreeMissesBeforeGivingUp(states: seq<State>, inputs: seq<Input>, n: nat, id: nat) returns (a: nat, b: nat)
    requires IsRun(states, inputs) && n < |inputs|
    requires inputs[n].EndSnapshot? && !inputs[n].polling && id in RetiredBy(ReportAt(states, inputs, n))
    ensures a < b < n && inputs[a].EndSnapshot? && inputs[b].EndSnapshot?
    ensures forall k | a < k < n && k != b :: !inputs[k].EndSnapshot?
    ensures forall k | k in {a, b, n} :: id in Live(states[k].entries) && !Seen(states, inputs, k, id)
  {
    hide Step, Inv, Seen, Evidenced, Misses, ReportAt;
    SnapshotGivesUpExactly(states, inputs, n, id);
    b := MissesAreSnapshots(states, inputs, n, id);
    a := MissesAreSnapshots(states, inputs, b, id);
  }

  // ---------- What the store says of connections that ended ----------

  /** A connection that is given up is marked, for good, by why it was: polling decided, lifecycle evidence was
      lost, or a connection found in a snapshot went; and with the time it was last seen. */
  lemma AbsentRowsSayWhy(states: seq<State>, inputs: seq<Input>, i: nat, j: nat, id: nat)
    requires IsRun(states, inputs) && i < j < |states| && inputs[i].EndSnapshot? && id in RetiredBy(ReportAt(states, inputs, i))
    ensures id in states[j].store.rows
    ensures var row := states[j].store.rows[id];
            && row.lastSeen == LastSeen(states, inputs, i, id)
            && (row.state == Disappeared <==> inputs[i].polling)
            && (row.state == AbsentAfterLoss <==> !inputs[i].polling && inputs[i].incomplete)
            && (row.state == PreexistingDisappeared <==> !inputs[i].polling && !inputs[i].incomplete)
  {
    hide Inv, Effects, LastSeen, Seen, Evidenced, Misses, TrackedOf, LifecycleStep, SocketStep, BeginStep;
    RunEffects(states, inputs, i);
    RetiredIsGone(states[i], ReportAt(states, inputs, i), states[i + 1], id);
    GoneForever(states, inputs, i + 1, j, id);
    InvIds(states[i]);
    ReapedExactly(states[i], inputs[i].polling, inputs[i].incomplete, id);
    MemoryIsHistory(states, inputs, i, id);
    ReapedRowIs(states[i], inputs[i].polling, inputs[i].incomplete, id);
  }

  lemma ReapedRowIs(s: State, polling: bool, incomplete: bool, id: nat)
    requires IdsDistinct(s.entries) && id in s.store.rows && id in ReapedIds(s.entries, polling, incomplete)
    ensures id in Live(s.entries)
    ensures ReapedRow(s, polling, incomplete, id)
            == s.store.rows[id].(lastSeen := TrackedOf(s.entries, id).lastSeen.at, state := AbsentState(polling, incomplete))
  {
    var i :| i in s.entries && Reaped(s.entries[i].tracked, polling, incomplete) && s.entries[i].tracked.id == id;
    assert ReapedAs(s, polling, incomplete, id, i);
    TrackedIs(s.entries, i);
  }

  /** A connection that a close event ends is marked closed, for good, at the time of that event, which is
      among its events. */
  lemma ClosedRowsSayWhen(states: seq<State>, inputs: seq<Input>, i: nat, j: nat, id: nat)
    requires IsRun(states, inputs) && i < j < |states| && inputs[i].Lifecycle? && id in RetiredBy(ReportAt(states, inputs, i))
    ensures id in states[j].store.rows
    ensures var row, event := states[j].store.rows[id], inputs[i].event;
            event.kind.Close? && row.state == Closed && row.lastSeen == event.at && (event.kind, event.at) in row.events
  {
    hide Inv, Effects, SocketStep, BeginStep, EndStep, EventIdentity, EventTarget, Adopt;
    RunEffects(states, inputs, i);
    RetiredIsGone(states[i], ReportAt(states, inputs, i), states[i + 1], id);
    GoneForever(states, inputs, i + 1, j, id);
    ClosedRowIs(states[i], inputs[i].event, inputs[i].direction, id);
  }

  lemma ClosedRowIs(s: State, event: LifecycleEvent, direction: Direction, id: nat)
    requires Inv(s) && id in RetiredBy(LifecycleStep(s, event, direction).1)
    ensures var s' := LifecycleStep(s, event, direction).0;
            && event.kind.Close? && id in s'.store.rows
            && var row := s'.store.rows[id];
               row.state == Closed && row.lastSeen == event.at && (event.kind, event.at) in row.events
  {
    hide Inv, EventIdentity, EventTarget, Adopt, EventKey;
    var identity := EventIdentity(event).value;
    NamedByCookie(event, identity);
    var target := EventTarget(s.entries, event, identity).value;
    AdoptKeeps(s, target, identity, event.cookie);
    var (s1, at) := Adopt(s, target, identity, event.cookie);
    TrackedIsStored(s1, at);
  }

  // ---------- Stored samples ----------

  /** For every connection admitted in a run, tracked or not any more, the store holds exactly the thinned
      history of all its samples. */
  lemma {:induction false} StoredSamplesAreThinned(states: seq<State>, inputs: seq<Input>, n: nat, id: nat)
    requires IsRun(states, inputs) && n <= |inputs|
    requires id in states[n].store.rows && id >= states[0].store.nextId
    ensures states[n].store.rows[id].samples == Thin(Observed(states, inputs, n, id))
  {
    hide Step, Inv, ReportAt, Effects, TrackedOf, Thin;
    if n > 0 {
      var report := ReportAt(states, inputs, n - 1);
      RunEffects(states, inputs, n - 1);
      SamplesStep(states, inputs, n, id);
      if id !in states[n - 1].store.rows {
        NewIsAdmitted(states[n - 1], report, states[n], id);
        UnknownBefore(states, inputs, n - 1, id);
        ThinNothing();
        if inputs[n - 1].Snapshot? {
          var sample := inputs[n - 1].socket.sample;
          ThinStep([], sample, [sample]);
          assert [] + [sample] == [sample];
        }
      } else {
        StoredSamplesAreThinned(states, inputs, n - 1, id);
        if Sighted(states, inputs, n - 1, id) {
          SightedIsLive(states[n - 1], report, states[n], id);
          StoresAsThinned(states[n - 1], id, Observed(states, inputs, n - 1, id), inputs[n - 1].socket.sample);
        }
      }
    }
  }

  lemma ThinNothing()
    ensures Thin([]) == []
  {
  }

  lemma SamplesStep(states: seq<State>, inputs: seq<Input>, n: nat, id: nat)
    requires IsRun(states, inputs) && 0 < n <= |inputs| && id in states[n].store.rows
    ensures SamplesEvolve(states[n - 1], inputs[n - 1], ReportAt(states, inputs, n - 1), states[n])
  {
    hide Step, Inv, SamplesEvolve, Evolves;
    RunInv(states, inputs, n - 1);
    StepEvolves(states[n - 1], inputs[n - 1]);
  }

  lemma NewIsAdmitted(s: State, report: Report, s': State, id: nat)
    requires Inv(s) && Effects(s, report, s') && id in s'.store.rows && id !in s.store.rows
    ensures id == s.store.nextId && id in AdmittedBy(report)
  {
  }

  lemma SightedIsLive(s: State, report: Report, s': State, id: nat)
    requires Inv(s) && Effects(s, report, s') && Mentions(report, id) && id in s.store.rows
    ensures id in Live(s.entries)
  {
  }

  lemma StoresAsThinned(s: State, id: nat, observed: seq<Sample>, sample: Sample)
    requires Inv(s) && id in Live(s.entries) && id in s.store.rows && s.store.rows[id].samples == Thin(observed)
    ensures Thin(observed + [sample])
            == if Stores(TrackedOf(s.entries, id), sample) then Thin(observed) + [sample] else Thin(observed)
  {
    hide Thin, MeaningfulChange;
    ThinStep(observed, sample, observed + [sample]);
    var i :| i in s.entries && s.entries[i].tracked.id == id;
    TrackedIs(s.entries, i);
    assert Linked(s.entries[i].tracked, s.store.rows[id]);
  }

  /** So a verdict over the samples read back for a connection agrees with one over everything observed
      of it: a maximum round-trip time within the thinning bound, a variance within its bound when the stored
      variances are covered, and equal retransmissions when its times increase and the rows come back in order. */
  lemma VerdictEvidenceSurvivesThinning(states: seq<State>, inputs: seq<Input>, n: nat, id: nat, read: seq<Sample>)
    requires IsRun(states, inputs) && n <= |inputs|
    requires id in states[n].store.rows && id >= states[0].store.nextId
    requires SameElements(states[n].store.rows[id].samples, read)
    ensures var full := Observed(states, inputs, n, id);
            && (TimesIncrease(full) && SortedByTime(read) ==> RetransmissionDelta(read) == RetransmissionDelta(full))
            && MaxRtt(read) <= MaxRtt(full)
            && (full != [] ==> MaxRtt(full) < MaxRtt(read) + MATERIAL_FLOOR || 4 * MaxRtt(full) < 5 * MaxRtt(read))
            && MaxVariance(read) <= MaxVariance(full)
            && (VarianceCovered(read) ==> NearVariance(MaxVariance(full), MaxVariance(read)))
  {
    hide Step, Inv, Observed, Thin, TimesIncrease, SortedByTime, RetransmissionDelta, MaxRtt, MaxVariance, VarianceCovered, NearVariance;
    StoredSamplesAreThinned(states, inputs, n, id);
    StoredEvidenceIsEnough(Observed(states, inputs, n, id), read);
  }
}
