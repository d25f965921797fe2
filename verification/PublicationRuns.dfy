/** Whole runs of the publication worker: the three ways in which a publication gets stuck, what a lost
    tail costs, and when a package is declared failed although a step is in doubt. */
module PublicationRuns {
  import opened Wrappers
  import opened PublicationSaga
  import opened PublicationWorker
  import P = CampaignPackages

  // ---------------------------------------------------------------------------
  // Row checks, cycle by cycle
  // ---------------------------------------------------------------------------

  lemma UpsertIsChecked(t: Tables, k: Key, s: Step)
    requires RowsChecked(t)
    ensures var t' := Upsert(t, k, s); t'.Some? ==> RowsChecked(t'.value)
  {
    if k in t.steps {
      var row := t.steps[k];
      RowsCheckedStep(t, UpdateStep(k, s.(
        kind := row.kind, localRef := row.localRef, parentLocalRef := row.parentLocalRef)));
    } else {
      RowsCheckedStep(t, InsertStep(k, s));
    }
  }

  lemma PersistIsChecked(t: Tables, k: Key, p: Template, r: Report, sent: Option<Id>)
    requires RowsChecked(t)
    ensures var t' := Persist(t, k, p, r, sent); t'.Some? ==> RowsChecked(t'.value)
  {
    if Persist(t, k, p, r, sent).Some? {
      var t0 := Open(t, k, p);
      var running := Record(p, StepState.Running, ProposalOf(t, k, sent));
      UpsertIsChecked(t, k, Record(p, Pending, None));
      UpsertIsChecked(t0.value, k, running);
      var t1 := if PassesThroughRunning(t, k, r) then Upsert(t0.value, k, running) else t0;
      UpsertIsChecked(t1.value, k, Outcome(t, k, p, r, sent));
    }
  }

  lemma AdvanceIsChecked(t: Tables, id: Id, cursor: int, state: PublicationState, haltReason: Option<string>,
                         failedStepIndex: Option<int>, finishedAt: Option<int>)
    requires id in t.publications && RowsChecked(t)
    ensures var t' := Advance(t, id, cursor, state, haltReason, failedStepIndex, finishedAt);
            t'.Some? ==> RowsChecked(t'.value) && t'.value.steps == t.steps
  {
    RowsCheckedStep(t, UpdatePublication(id, t.publications[id].(
      cursor := cursor, state := state, haltReason := haltReason, failedStepIndex := failedStepIndex,
      finishedAt := finishedAt)));
  }

  lemma HaltIsChecked(plan: Plan, id: Id, w: World, reason: string, failed: Option<int>, now: int)
    requires id in w.tables.publications && RowsChecked(w.tables)
    ensures var a := Halt(plan, id, w, reason, failed, now); a.Committed? ==> RowsChecked(a.world.tables)
  {
    AdvanceIsChecked(w.tables, id, w.tables.publications[id].cursor, PubHalted, Some(reason), failed, Some(now));
  }

  lemma ConcludeIsChecked(plan: Plan, id: Id, w: World, i: nat, r: Report, x: Cycle)
    requires id in w.tables.publications && i < |plan| && RowsChecked(w.tables)
    ensures var a := Conclude(plan, id, w, i, r, x); a.Committed? ==> RowsChecked(a.world.tables)
  {
    if NeedsRegistry(plan[i].kind, r) && x.registryMisses {
      HaltIsChecked(plan, id, w, RegistryReason(plan[i].kind), Some(i), x.now);
    } else if r.verdict.StepDone? {
      var last := i + 1 >= |plan|;
      AdvanceIsChecked(w.tables, id, i + 1, if last then PubCompleted else PubRunning, None, None,
                       if last then Some(x.now) else None);
    } else if r.verdict.StepUnknown? {
      AdvanceIsChecked(w.tables, id, w.tables.publications[id].cursor, PubRunning, None, None, None);
    } else {
      HaltIsChecked(plan, id, w, if Present(r.outcomeCode) then r.outcomeCode.value else "step_failed", Some(i), x.now);
    }
  }

  lemma SendIsChecked(w: World, k: Key, p: Template, x: Cycle)
    requires RowsChecked(w.tables)
    ensures var w' := Send(w, k, p, x); w'.Some? ==> RowsChecked(w'.value.tables)
  {
    PersistIsChecked(w.tables, k, p, Heard(w, k, p, x), Sent(w.tables, k, p, x));
  }

  lemma ExecuteStepIsChecked(plan: Plan, id: Id, w: World, x: Cycle)
    requires id in w.tables.publications && RowsChecked(w.tables)
    ensures var a := ExecuteStep(plan, id, w, x); a.Committed? ==> RowsChecked(a.world.tables)
  {
    var i := w.tables.publications[id].cursor;
    if !(0 <= i < |plan|) {
    } else if !StructureReady(plan, id, w.tables.steps, i, x.adRefs) {
      HaltIsChecked(plan, id, w, "structure_incomplete_before_activation", Some(i), x.now);
    } else if !OneParent(plan, i) {
    } else if !ParentReady(plan, id, w.tables.steps, i) || !SourcesReady(plan, id, w.tables.steps, i) {
      HaltIsChecked(plan, id, w, "package_parent_unconfirmed", Some(i), x.now);
    } else {
      var k, p := Key(id, i), plan[i];
      SendIsChecked(w, k, p, x);
      var sent := Send(w, k, p, x);
      if sent.Some? {
        ConcludeIsChecked(plan, id, sent.value, i, Heard(w, k, p, x), x);
      }
    }
  }

  lemma ExecuteIsChecked(plan: Plan, id: Id, w: World, x: Cycle)
    requires RowsChecked(w.tables)
    ensures var a := Execute(plan, id, w, x); a.Committed? ==> RowsChecked(a.world.tables)
  {
    if x.interrupted || !OpenPublication(w.tables, id) || InGrace(w, id, x.now) {
    } else if x.preflight.Some? {
      HaltIsChecked(plan, id, Begin(w), x.preflight.value, None, x.now);
    } else {
      ExecuteStepIsChecked(plan, id, Begin(w), x);
    }
  }

  lemma SavedIsChecked(plan: Plan, id: Id, w: World, x: Cycle)
    requires RowsChecked(w.tables)
    ensures RowsChecked(Saved(plan, id, w, x).tables)
  {
    if CommitsOnTheWay(plan, id, w, x) {
      var i := w.tables.publications[id].cursor;
      UpsertIsChecked(w.tables, Key(id, i), Record(plan[i], Pending, None));
    }
  }

  lemma InternalErrorIsChecked(id: Id, w: World, now: int)
    requires RowsChecked(w.tables)
    ensures RowsChecked(AfterInternalError(id, w, now).tables)
  {
    if id in w.tables.publications {
      AdvanceIsChecked(w.tables, id, w.tables.publications[id].cursor, PubHalted,
                       Some("package_publication_internal_error"), None, Some(now));
    }
  }

  lemma EventIsChecked(plan: Plan, id: Id, w: World, e: Event)
    requires RowsChecked(w.tables)
    ensures RowsChecked(After(plan, id, w, e).tables)
  {
    match e
    case WorkerCycle(x) =>
      ExecuteIsChecked(plan, id, w, x);
      SavedIsChecked(plan, id, w, x);
      InternalErrorIsChecked(id, Saved(plan, id, w, x), x.now);
    case Resume =>
      if id in w.tables.publications {
        AdvanceIsChecked(w.tables, id, w.tables.publications[id].cursor, PubRunning, None, None, None);
      }
    case Cancel(now) =>
      if id in w.tables.publications {
        AdvanceIsChecked(w.tables, id, w.tables.publications[id].cursor, PubHalted, Some("cancelled_by_owner"), None,
                         Some(now));
      }
    case EditCreative =>
  }

  lemma {:induction false} RunIsChecked(plan: Plan, id: Id, w: World, events: seq<Event>)
    requires RowsChecked(w.tables)
    ensures RowsChecked(RunFrom(plan, id, w, events).tables)
  {
    if events != [] {
      var init := events[..|events| - 1];
      RunIsChecked(plan, id, w, init);
      EventIsChecked(plan, id, RunFrom(plan, id, w, init), events[|events| - 1]);
    }
  }

  // ---------------------------------------------------------------------------
  // What one event does to the rows
  // ---------------------------------------------------------------------------

  /** The publication's steps, executions and cursor are as they were. */
  ghost predicate Unmoved(id: Id, w: World, w': World) {
    && w'.tables.steps == w.tables.steps && w'.claims == w.claims
    && (id in w.tables.publications ==>
          id in w'.tables.publications && w'.tables.publications[id].cursor == w.tables.publications[id].cursor)
  }

  /** The next step was sent and has reported. */
  ghost predicate StepReported(plan: Plan, id: Id, w: World, w': World, x: Cycle) {
    && CallsExecutor(plan, id, w, x) && !x.interrupted
    && var i := w.tables.publications[id].cursor;
    && var sent := Send(w, Key(id, i), plan[i], x);
    && sent.Some? && w'.tables.steps == sent.value.tables.steps && w'.claims == sent.value.claims
    && id in w'.tables.publications && w'.tables.publications[id].cursor >= i
  }

  /** The next step was sent, and of its cycle only what the chokepoint committed is left. */
  ghost predicate StepCut(plan: Plan, id: Id, w: World, w': World, x: Cycle) {
    && CommitsOnTheWay(plan, id, w, x) && !Execute(plan, id, w, x).Committed?
    && Unmoved(id, Saved(plan, id, w, x), w')
  }

  lemma HaltMoves(plan: Plan, id: Id, w: World, reason: string, failed: Option<int>, now: int)
    requires id in w.tables.publications
    ensures var a := Halt(plan, id, w, reason, failed, now); a.Committed? ==> Unmoved(id, w, a.world)
  {
  }

  ghost predicate Advances(id: Id, w: World, w': World)
    requires id in w.tables.publications
  {
    && w'.claims == w.claims
    && id in w'.tables.publications && w'.tables.publications[id].cursor >= w.tables.publications[id].cursor
  }

  lemma ProceedMoves(plan: Plan, id: Id, w: World, i: nat, now: int)
    requires id in w.tables.publications && w.tables.publications[id].cursor == i
    ensures var a := Proceed(plan, id, w, i, now);
            a.Committed? ==> a.world.tables.steps == w.tables.steps && Advances(id, w, a.world)
  {
  }

  lemma StayMoves(id: Id, w: World)
    requires id in w.tables.publications
    ensures var a := Stay(id, w); a.Committed? ==> a.world.tables.steps == w.tables.steps && Advances(id, w, a.world)
  {
  }

  lemma ConcludeMoves(plan: Plan, id: Id, w: World, i: nat, r: Report, x: Cycle)
    requires id in w.tables.publications && w.tables.publications[id].cursor == i < |plan|
    ensures var a := Conclude(plan, id, w, i, r, x);
            a.Committed? ==> a.world.tables.steps == w.tables.steps && Advances(id, w, a.world)
  {
    if NeedsRegistry(plan[i].kind, r) && x.registryMisses {
      HaltMoves(plan, id, w, RegistryReason(plan[i].kind), Some(i), x.now);
    } else if r.verdict.StepDone? {
      ProceedMoves(plan, id, w, i, x.now);
    } else if r.verdict.StepUnknown? {
      StayMoves(id, w);
    } else {
      HaltMoves(plan, id, w, if Present(r.outcomeCode) then r.outcomeCode.value else "step_failed", Some(i), x.now);
    }
  }

  lemma BeginSends(w: World, k: Key, p: Template, x: Cycle)
    ensures var sent := Send(w, k, p, x);
            Send(Begin(w), k, p, x) == if sent.Some? then Some(sent.value.(package := Begin(w).package)) else None
  {
  }

  lemma CallIsExecuted(plan: Plan, id: Id, w: World, x: Cycle)
    requires CallsExecutor(plan, id, w, x) && !x.interrupted
    ensures Execute(plan, id, w, x) == Call(plan, id, Begin(w), w.tables.publications[id].cursor, x)
  {
  }

  lemma CallMoves(plan: Plan, id: Id, w: World, x: Cycle)
    requires CallsExecutor(plan, id, w, x) && !x.interrupted
    ensures var a := Execute(plan, id, w, x); a.Committed? ==> StepReported(plan, id, w, a.world, x)
  {
    var i := w.tables.publications[id].cursor;
    var k, p := Key(id, i), plan[i];
    CallIsExecuted(plan, id, w, x);
    BeginSends(w, k, p, x);
    var sent := Send(Begin(w), k, p, x);
    if sent.Some? {
      SendFacts(Begin(w), k, p, x);
      ConcludeMoves(plan, id, sent.value, i, Heard(w, k, p, x), x);
    }
  }

  lemma StepNotCalledMoves(plan: Plan, id: Id, w: World, x: Cycle)
    requires id in w.tables.publications
    requires var i := w.tables.publications[id].cursor;
             0 <= i < |plan| ==> !Calls(plan, id, w.tables.steps, i, x.adRefs)
    ensures var a := ExecuteStep(plan, id, w, x); a.Committed? ==> Unmoved(id, w, a.world)
  {
    var i := w.tables.publications[id].cursor;
    if !(0 <= i < |plan|) {
    } else if !StructureReady(plan, id, w.tables.steps, i, x.adRefs) {
      HaltMoves(plan, id, w, "structure_incomplete_before_activation", Some(i), x.now);
    } else if !OneParent(plan, i) {
    } else {
      HaltMoves(plan, id, w, "package_parent_unconfirmed", Some(i), x.now);
    }
  }

  lemma NoCallMoves(plan: Plan, id: Id, w: World, x: Cycle)
    requires id in w.tables.publications && !CallsExecutor(plan, id, w, x)
    ensures var a := Execute(plan, id, w, x); a.Committed? ==> Unmoved(id, w, a.world)
  {
    if x.interrupted || !OpenPublication(w.tables, id) || InGrace(w, id, x.now) {
    } else if x.preflight.Some? {
      HaltMoves(plan, id, Begin(w), x.preflight.value, None, x.now);
    } else {
      StepNotCalledMoves(plan, id, Begin(w), x);
    }
  }

  lemma InternalErrorMoves(id: Id, w: World, now: int)
    ensures var w' := AfterInternalError(id, w, now); Unmoved(id, w, w') && w'.package == w.package
  {
  }

  /** What is left of a cycle that does not commit to its end. */
  lemma CutMoves(plan: Plan, id: Id, w: World, x: Cycle)
    requires id in w.tables.publications && !Execute(plan, id, w, x).Committed?
    ensures var w' := AfterCycle(plan, id, w, x);
            && Unmoved(id, Saved(plan, id, w, x), w') && w'.package == Saved(plan, id, w, x).package
            && (if CommitsOnTheWay(plan, id, w, x) then StepCut(plan, id, w, w', x) else Unmoved(id, w, w'))
  {
    InternalErrorMoves(id, Saved(plan, id, w, x), x.now);
  }

  /** Every event leaves the steps and executions as they were, except a cycle that gets to the step
      executor: that one rewrites its step's row and execution, or breaks off with what was committed. */
  lemma CycleMoves(plan: Plan, id: Id, w: World, x: Cycle)
    requires id in w.tables.publications
    ensures var w' := AfterCycle(plan, id, w, x);
            Unmoved(id, w, w') || StepReported(plan, id, w, w', x) || StepCut(plan, id, w, w', x)
  {
    if !Execute(plan, id, w, x).Committed? {
      CutMoves(plan, id, w, x);
    } else if CallsExecutor(plan, id, w, x) {
      CallMoves(plan, id, w, x);
    } else {
      NoCallMoves(plan, id, w, x);
    }
  }

  lemma OthersDoNotMove(plan: Plan, id: Id, w: World, e: Event)
    requires !e.WorkerCycle?
    ensures Unmoved(id, w, After(plan, id, w, e))
  {
  }

  // ---------------------------------------------------------------------------
  // What the environment promises
  // ---------------------------------------------------------------------------

  /** The clock is past the publication's start, and the reasons of the checks have room. */
  predicate Sane(plan: Plan, id: Id, w: World, x: Cycle) {
    id in w.tables.publications ==>
      && x.now >= w.tables.publications[id].startedAt
      && Length(x.preflight, 200)
      && var i := w.tables.publications[id].cursor;
      && (0 <= i < |plan| ==> WellFormed(plan[i]))
  }

  /** What a halt declares a package that was in progress. */
  function HaltedPackage(plan: Plan, id: Id, w: World): P.PackageState {
    if VisibleDone(plan, id, w.tables.steps) || w.package.Verifying? then P.PartiallyPublished else P.Failed
  }

  lemma HaltIsTaken(plan: Plan, id: Id, w: World, reason: string, failed: Option<int>, now: int)
    requires AtStep(plan, id, w) && OpenPublication(w.tables, id)
    requires 1 <= |reason| <= 200 && (failed.Some? ==> failed.value >= 0)
    requires now >= w.tables.publications[id].startedAt
    ensures var a := Halt(plan, id, w, reason, failed, now);
            if InProgress(w.package) then
              && a.Committed? && Unmoved(id, w, a.world)
              && a.world.package == HaltedPackage(plan, id, w)
            else a.Broken?
  {
  }

  /** The report moves the package on, to its end or to a halt. */
  predicate MovesPackage(plan: Plan, i: nat, r: Report, x: Cycle)
    requires i < |plan|
  {
    || (NeedsRegistry(plan[i].kind, r) && x.registryMisses)
    || r.verdict.StepFailed? || r.verdict.StepBlocked?
    || (r.verdict.StepDone? && i == |plan| - 1)
  }

  /** The package takes the move, and the clock is past the publication's start. */
  predicate MayMove(id: Id, w: World, now: int)
    requires id in w.tables.publications
  {
    InProgress(w.package) && now >= w.tables.publications[id].startedAt
  }

  lemma ConcludeIsTaken(plan: Plan, id: Id, w: World, i: nat, r: Report, x: Cycle)
    requires Signed(plan) && AtStep(plan, id, w) && OpenPublication(w.tables, id)
    requires w.tables.publications[id].cursor == i
    requires Storable(plan[i].kind, r)
    ensures Conclude(plan, id, w, i, r, x).Committed? <==> (MovesPackage(plan, i, r, x) ==> MayMove(id, w, x.now))
  {
    if x.now < w.tables.publications[id].startedAt {
      return;
    }
    if NeedsRegistry(plan[i].kind, r) && x.registryMisses {
      HaltIsTaken(plan, id, w, RegistryReason(plan[i].kind), Some(i), x.now);
    } else if r.verdict.StepDone? {
    } else if r.verdict.StepUnknown? {
    } else {
      HaltIsTaken(plan, id, w, if Present(r.outcomeCode) then r.outcomeCode.value else "step_failed", Some(i), x.now);
    }
  }

  // ---------------------------------------------------------------------------
  // Stuck on a step that is done
  // ---------------------------------------------------------------------------

  /** The step the cursor stands at is already done. */
  predicate Stuck(id: Id, w: World) {
    id in w.tables.publications && DoneAt(w.tables.steps, id, w.tables.publications[id].cursor)
  }

  /** The steps and the cursor are as they were. */
  ghost predicate Stands(id: Id, w: World, w': World) {
    && w'.tables.steps == w.tables.steps
    && (id in w.tables.publications ==>
          id in w'.tables.publications && w'.tables.publications[id].cursor == w.tables.publications[id].cursor)
  }

  lemma StuckStep(plan: Plan, id: Id, w: World, e: Event)
    requires Kept(plan, id, w) && Stuck(id, w)
    ensures Stands(id, w, After(plan, id, w, e))
  {
    if e.WorkerCycle? {
      CycleMoves(plan, id, w, e.cycle);
      var i := w.tables.publications[id].cursor;
      if 0 <= i < |plan| {
        SendFacts(w, Key(id, i), plan[i], e.cycle);
      }
    } else {
      OthersDoNotMove(plan, id, w, e);
    }
  }

  /** A publication whose next step is already done never gets past it, whatever is retried, resumed,
      cancelled or edited: every cycle that reaches the step is rolled back. */
  lemma {:induction false} StuckForever(plan: Plan, id: Id, w: World, events: seq<Event>)
    requires Kept(plan, id, w) && Stuck(id, w)
    ensures var w' := RunFrom(plan, id, w, events);
            && Kept(plan, id, w') && Stuck(id, w') && w'.tables.steps == w.tables.steps
            && w'.tables.publications[id].cursor == w.tables.publications[id].cursor < |plan|
            && !w'.package.Published?
  {
    assert Key(id, w.tables.publications[id].cursor) in w.tables.steps;
    if events != [] {
      var before := RunFrom(plan, id, w, events[..|events| - 1]);
      StuckForever(plan, id, w, events[..|events| - 1]);
      StuckStep(plan, id, before, events[|events| - 1]);
      RunKeeps(plan, id, w, events);
    }
  }

  /** The platform confirmed the step, and the registry of entities then did not find what it was to
      update. */
  predicate MissesRegistry(plan: Plan, id: Id, w: World, x: Cycle) {
    && CallsExecutor(plan, id, w, x) && !x.interrupted && InProgress(Begin(w).package)
    && var i := w.tables.publications[id].cursor;
    && var k, p := Key(id, i), plan[i];
    && !TurnsDown(w, k, p, x) && Storable(p.kind, Heard(w, k, p, x))
    && NeedsRegistry(p.kind, Heard(w, k, p, x)) && x.registryMisses
  }

  lemma ConcludeSticks(plan: Plan, id: Id, w: World, i: nat, r: Report, x: Cycle)
    requires AtStep(plan, id, w) && OpenPublication(w.tables, id) && w.tables.publications[id].cursor == i
    requires x.now >= w.tables.publications[id].startedAt
    requires r.verdict.StepDone? <==> DoneAt(w.tables.steps, id, i)
    ensures var a := Conclude(plan, id, w, i, r, x);
            (a.Committed? && Stuck(id, a.world)) <==>
            (NeedsRegistry(plan[i].kind, r) && x.registryMisses && InProgress(w.package))
  {
    if NeedsRegistry(plan[i].kind, r) && x.registryMisses {
      HaltIsTaken(plan, id, w, RegistryReason(plan[i].kind), Some(i), x.now);
    } else if r.verdict.StepDone? {
      assert Key(id, i + 1) !in w.tables.steps;
    } else if r.verdict.StepUnknown? {
    } else {
      HaltMoves(plan, id, w, if Present(r.outcomeCode) then r.outcomeCode.value else "step_failed", Some(i), x.now);
    }
  }

  /** The step is sent exactly when nothing turns it down, and is then at the cursor as before. */
  lemma SentAtStep(plan: Plan, id: Id, w: World, i: nat, x: Cycle)
    requires Signed(plan) && AtStep(plan, id, w) && RowsChecked(w.tables) && w.tables.publications[id].cursor == i
    requires WellFormed(plan[i]) && !DoneAt(w.tables.steps, id, i)
    ensures var k, p := Key(id, i), plan[i];
            var sent := Send(w, k, p, x);
            && (sent.Some? <==> !TurnsDown(w, k, p, x) && Storable(p.kind, Heard(w, k, p, x)))
            && (sent.Some? ==>
                  && AtStep(plan, id, sent.value) && sent.value.tables.publications == w.tables.publications
                  && sent.value.package == w.package
                  && (Heard(w, k, p, x).verdict.StepDone? <==> DoneAt(sent.value.tables.steps, id, i)))
  {
    SendIsTaken(plan, id, w, i, x);
    SendKeeps(plan, id, w, i, x);
  }

  lemma SendSticks(plan: Plan, id: Id, w: World, i: nat, x: Cycle)
    requires Signed(plan) && AtStep(plan, id, w) && RowsChecked(w.tables) && w.tables.publications[id].cursor == i
    requires WellFormed(plan[i]) && !DoneAt(w.tables.steps, id, i) && OpenPublication(w.tables, id)
    requires x.now >= w.tables.publications[id].startedAt
    ensures var k, p := Key(id, i), plan[i];
            var a := Call(plan, id, w, i, x);
            (a.Committed? && Stuck(id, a.world)) <==>
            (!TurnsDown(w, k, p, x) && Storable(p.kind, Heard(w, k, p, x))
             && NeedsRegistry(p.kind, Heard(w, k, p, x)) && x.registryMisses && InProgress(w.package))
  {
    SentAtStep(plan, id, w, i, x);
    var sent := Send(w, Key(id, i), plan[i], x);
    if sent.Some? {
      ConcludeSticks(plan, id, sent.value, i, Heard(w, Key(id, i), plan[i], x), x);
    }
  }

  lemma BeginChangesNothingElse(w: World, k: Key, p: Template, x: Cycle)
    ensures TurnsDown(Begin(w), k, p, x) == TurnsDown(w, k, p, x) && Heard(Begin(w), k, p, x) == Heard(w, k, p, x)
    ensures Begin(w).tables == w.tables && Begin(w).claims == w.claims
  {
  }

  lemma CallSticks(plan: Plan, id: Id, w: World, x: Cycle)
    requires Signed(plan) && Kept(plan, id, w) && RowsChecked(w.tables) && Sane(plan, id, w, x) && !Stuck(id, w)
    requires CallsExecutor(plan, id, w, x) && !x.interrupted
    ensures var a := Execute(plan, id, w, x); (a.Committed? && Stuck(id, a.world)) <==> MissesRegistry(plan, id, w, x)
  {
    var i := w.tables.publications[id].cursor;
    CallIsExecuted(plan, id, w, x);
    BeginChangesNothingElse(w, Key(id, i), plan[i], x);
    SendSticks(plan, id, Begin(w), i, x);
  }

  /** A cycle gets a publication stuck on a done step exactly when the registry misses a step the
      platform confirmed: the step is on record as done, the cursor still stands at it, and the retry
      that the halt promises can only repeat it. */
  lemma GetsStuckExactlyByAMiss(plan: Plan, id: Id, w: World, x: Cycle)
    requires Signed(plan) && Kept(plan, id, w) && RowsChecked(w.tables) && Sane(plan, id, w, x) && !Stuck(id, w)
    ensures Stuck(id, AfterCycle(plan, id, w, x)) <==> MissesRegistry(plan, id, w, x)
  {
    if !Execute(plan, id, w, x).Committed? {
      CutMoves(plan, id, w, x);
    } else if !CallsExecutor(plan, id, w, x) {
      NoCallMoves(plan, id, w, x);
    }
    if CallsExecutor(plan, id, w, x) && !x.interrupted {
      CallSticks(plan, id, w, x);
    }
  }

  /** Such a cycle right after an approval: the campaign is created and confirmed, its account is not
      found in the registry. */
  lemma StuckIsReachable(plan: Plan, id: Id, w: World, x: Cycle)
    requires Signed(plan) && Fresh(id, w) && RowsChecked(w.tables) && Sane(plan, id, w, x)
    requires plan[0].kind.CreateCampaign? && plan[0].dependsOn == [] && WellFormed(plan[0])
    requires x.now >= w.tables.publications[id].startedAt + UNDO_GRACE && x.preflight.None? && x.denial.None?
    requires Authorizes(w.tables, Key(id, 0), x) && Storable(plan[0].kind, x.report)
    requires x.report.verdict.StepDone? && Present(x.report.createdEntityRef) && Present(x.report.confirmedStateHash)
    requires x.registryMisses && !x.interrupted
    ensures var w' := After(plan, id, w, WorkerCycle(x)); Stuck(id, w') && Kept(plan, id, w')
  {
    FreshIsKept(plan, id, w);
    GetsStuckExactlyByAMiss(plan, id, w, x);
    CycleKeeps(plan, id, w, x);
  }

  // ---------------------------------------------------------------------------
  // Stuck on a proposal that was lost
  // ---------------------------------------------------------------------------

  /** The next step has an execution, and its row does not know of the proposal. */
  predicate Orphaned(id: Id, w: World) {
    && id in w.tables.publications
    && var i := w.tables.publications[id].cursor;
    && i >= 0 && Key(id, i) in w.claims && KnownProposal(w.tables, Key(id, i)).None?
  }

  /** The executor's report, its row and the package let the cycle commit to its end. */
  predicate Concludes(plan: Plan, id: Id, w: World, x: Cycle)
    requires CallsExecutor(plan, id, w, x)
  {
    var i := w.tables.publications[id].cursor;
    var k, p := Key(id, i), plan[i];
    var r := Heard(w, k, p, x);
    && !TurnsDown(w, k, p, x) && Storable(p.kind, r)
    && (MovesPackage(plan, i, r, x) ==> MayMove(id, Begin(w), x.now))
  }

  lemma SendCommits(plan: Plan, id: Id, w: World, i: nat, x: Cycle)
    requires Signed(plan) && AtStep(plan, id, w) && RowsChecked(w.tables) && w.tables.publications[id].cursor == i
    requires WellFormed(plan[i]) && !DoneAt(w.tables.steps, id, i) && OpenPublication(w.tables, id)
    ensures var k, p := Key(id, i), plan[i];
            Call(plan, id, w, i, x).Committed? <==>
            (!TurnsDown(w, k, p, x) && Storable(p.kind, Heard(w, k, p, x))
             && (MovesPackage(plan, i, Heard(w, k, p, x), x) ==> MayMove(id, w, x.now)))
  {
    SentAtStep(plan, id, w, i, x);
    var sent := Send(w, Key(id, i), plan[i], x);
    if sent.Some? {
      ConcludeIsTaken(plan, id, sent.value, i, Heard(w, Key(id, i), plan[i], x), x);
    }
  }

  lemma CallCommits(plan: Plan, id: Id, w: World, x: Cycle)
    requires Signed(plan) && Kept(plan, id, w) && RowsChecked(w.tables)
    requires CallsExecutor(plan, id, w, x) && !x.interrupted && !Stuck(id, w)
    requires WellFormed(plan[w.tables.publications[id].cursor])
    ensures Execute(plan, id, w, x).Committed? <==> Concludes(plan, id, w, x)
  {
    var i := w.tables.publications[id].cursor;
    CallIsExecuted(plan, id, w, x);
    BeginChangesNothingElse(w, Key(id, i), plan[i], x);
    SendCommits(plan, id, Begin(w), i, x);
  }

  /** The cycle does not commit to its end: by an error, by a report that its row cannot take, or by a
      package that refuses to move on. */
  predicate LosesTail(plan: Plan, id: Id, w: World, x: Cycle)
    requires CallsExecutor(plan, id, w, x)
  {
    x.interrupted || !Concludes(plan, id, w, x)
  }

  /** The step is proposed and authorized and the chokepoint commits, then the tail of the cycle is
      lost. */
  predicate LosesProposal(plan: Plan, id: Id, w: World, x: Cycle) {
    && CallsExecutor(plan, id, w, x) && !x.reach.Uncommitted?
    && var k, p := Key(id, w.tables.publications[id].cursor), plan[w.tables.publications[id].cursor];
    && Proposes(w.tables, k, p, x) && Authorizes(w.tables, k, x) && LosesTail(plan, id, w, x)
  }

  lemma ReportLeavesNoOrphan(plan: Plan, id: Id, w: World, w': World, x: Cycle)
    requires Kept(plan, id, w) && !Orphaned(id, w) && StepReported(plan, id, w, w', x)
    ensures !Orphaned(id, w')
  {
    var i, i' := w.tables.publications[id].cursor, w'.tables.publications[id].cursor;
    var k := Key(id, i);
    SendFacts(w, k, plan[i], x);
    if i' > i {
      assert Key(id, i') !in w.claims;
    } else {
      assert ClaimsKept(id, w.tables.steps, w.claims);
    }
  }

  lemma WholeCyclesLeaveNoOrphan(plan: Plan, id: Id, w: World, x: Cycle)
    requires Kept(plan, id, w) && !Orphaned(id, w) && Execute(plan, id, w, x).Committed?
    ensures !Orphaned(id, AfterCycle(plan, id, w, x))
  {
    if CallsExecutor(plan, id, w, x) {
      CallMoves(plan, id, w, x);
      ReportLeavesNoOrphan(plan, id, w, AfterCycle(plan, id, w, x), x);
    } else {
      NoCallMoves(plan, id, w, x);
    }
  }

  lemma CutCyclesOrphan(plan: Plan, id: Id, w: World, x: Cycle)
    requires Kept(plan, id, w) && !Orphaned(id, w) && !Execute(plan, id, w, x).Committed?
    ensures Orphaned(id, AfterCycle(plan, id, w, x)) <==>
            CommitsOnTheWay(plan, id, w, x) && KnownProposal(w.tables, Key(id, w.tables.publications[id].cursor)).None?
  {
    CutMoves(plan, id, w, x);
    if CommitsOnTheWay(plan, id, w, x) {
      var i := w.tables.publications[id].cursor;
      OpenFacts(w.tables, Key(id, i), plan[i]);
    }
  }

  lemma NewProposalIsNoRepeat(plan: Plan, id: Id, w: World, x: Cycle)
    requires Signed(plan) && Kept(plan, id, w) && RowsChecked(w.tables) && Sane(plan, id, w, x) && !Orphaned(id, w)
    requires CallsExecutor(plan, id, w, x)
    ensures var i := w.tables.publications[id].cursor;
            var k, p := Key(id, i), plan[i];
            && (Proposes(w.tables, k, p, x) ==> !Stuck(id, w) && k !in w.claims)
            && (CommitsOnTheWay(plan, id, w, x) && KnownProposal(w.tables, k).None? <==>
                  !x.reach.Uncommitted? && Proposes(w.tables, k, p, x) && Authorizes(w.tables, k, x))
  {
    SendIsTaken(plan, id, Begin(w), w.tables.publications[id].cursor, x);
  }

  /** A cycle orphans the next step exactly when it loses the proposal. */
  lemma OrphanedExactlyByALostTail(plan: Plan, id: Id, w: World, x: Cycle)
    requires Signed(plan) && Kept(plan, id, w) && RowsChecked(w.tables) && Sane(plan, id, w, x) && !Orphaned(id, w)
    ensures Orphaned(id, AfterCycle(plan, id, w, x)) <==> LosesProposal(plan, id, w, x)
  {
    if CallsExecutor(plan, id, w, x) {
      NewProposalIsNoRepeat(plan, id, w, x);
      if !x.interrupted && !Stuck(id, w) {
        CallCommits(plan, id, w, x);
      }
    }
    if Execute(plan, id, w, x).Committed? {
      WholeCyclesLeaveNoOrphan(plan, id, w, x);
    } else {
      CutCyclesOrphan(plan, id, w, x);
    }
  }

  lemma DeniedOrphanStands(plan: Plan, id: Id, w: World, x: Cycle)
    requires Kept(plan, id, w) && Orphaned(id, w) && CallsExecutor(plan, id, w, x) && Execute(plan, id, w, x).Committed?
    ensures x.denial.Some?
    ensures var w' := AfterCycle(plan, id, w, x);
            && Orphaned(id, w') && w'.claims == w.claims
            && w'.tables.publications[id].cursor == w.tables.publications[id].cursor
  {
    var i := w.tables.publications[id].cursor;
    var k, p := Key(id, i), plan[i];
    CallMoves(plan, id, w, x);
    SendFacts(w, k, p, x);
  }

  /** What an orphaned step's cycles come to: one that proposes it again is undone whole, as the
      execution would meet the unique idempotency key if nothing turned the proposal down before, and
      the others leave the execution and the cursor where they are. */
  lemma OrphanStep(plan: Plan, id: Id, w: World, e: Event)
    requires Kept(plan, id, w) && Orphaned(id, w)
    ensures var w' := After(plan, id, w, e);
            && Orphaned(id, w') && w'.claims == w.claims
            && w'.tables.publications[id].cursor == w.tables.publications[id].cursor
    ensures e.WorkerCycle? && CallsExecutor(plan, id, w, e.cycle) && e.cycle.denial.None? ==> After(plan, id, w, e) == w
  {
    if !e.WorkerCycle? {
      OthersDoNotMove(plan, id, w, e);
    } else if !Execute(plan, id, w, e.cycle).Committed? {
      CutMoves(plan, id, w, e.cycle);
    } else if CallsExecutor(plan, id, w, e.cycle) {
      DeniedOrphanStands(plan, id, w, e.cycle);
    } else {
      NoCallMoves(plan, id, w, e.cycle);
    }
  }

  /** A publication whose next step lost its proposal never gets past it either: it is proposed again
      in every cycle that gets that far, always in vain, and never published. */
  lemma {:induction false} OrphanedForever(plan: Plan, id: Id, w: World, events: seq<Event>)
    requires Kept(plan, id, w) && Orphaned(id, w)
    ensures var w' := RunFrom(plan, id, w, events);
            && Kept(plan, id, w') && Orphaned(id, w') && w'.claims == w.claims
            && w'.tables.publications[id].cursor == w.tables.publications[id].cursor < |plan|
            && !w'.package.Published?
  {
    assert Key(id, w.tables.publications[id].cursor) in w.tables.steps;
    if events != [] {
      var before := RunFrom(plan, id, w, events[..|events| - 1]);
      OrphanedForever(plan, id, w, events[..|events| - 1]);
      OrphanStep(plan, id, before, events[|events| - 1]);
      RunKeeps(plan, id, w, events);
    }
  }

  /** What the rows and the plan promise. */
  ghost predicate Orderly(plan: Plan, id: Id, w: World) {
    Signed(plan) && AllWellFormed(plan) && Kept(plan, id, w) && RowsChecked(w.tables)
  }

  // ---------------------------------------------------------------------------
  // Stuck on an execution that is over
  // ---------------------------------------------------------------------------

  /** The next step's row knows its proposal, and the proposal's execution is over with anything but a
      confirmation that the row can take. */
  predicate OverInVain(plan: Plan, id: Id, w: World) {
    && id in w.tables.publications
    && var i := w.tables.publications[id].cursor;
    && 0 <= i < |plan|
    && var k := Key(id, i);
    && KnownProposal(w.tables, k).Some? && IsOver(w.claims, k)
    && !(w.claims[k].status.report.verdict.StepDone? && Storable(plan[i].kind, w.claims[k].status.report))
  }

  lemma OverIsReadAgain(plan: Plan, id: Id, w: World, x: Cycle)
    requires Kept(plan, id, w) && OverInVain(plan, id, w)
    requires CallsExecutor(plan, id, w, x) && Execute(plan, id, w, x).Committed?
    ensures var w' := AfterCycle(plan, id, w, x);
            && OverInVain(plan, id, w') && w'.claims == w.claims
            && w'.tables.publications[id].cursor == w.tables.publications[id].cursor
  {
    var i := w.tables.publications[id].cursor;
    var b, k, p := Begin(w), Key(id, i), plan[i];
    assert ClaimMatches(w.tables.steps[k], ClaimAt(w.claims, k)) && Follows(w.tables.steps[k], p);
    CallIsExecuted(plan, id, w, x);
    SendFacts(b, k, p, x);
    HaltMoves(plan, id, Send(b, k, p, x).value,
              if Present(Heard(b, k, p, x).outcomeCode) then Heard(b, k, p, x).outcomeCode.value else "step_failed",
              Some(i), x.now);
  }

  lemma OverStep(plan: Plan, id: Id, w: World, e: Event)
    requires Kept(plan, id, w) && OverInVain(plan, id, w)
    ensures var w' := After(plan, id, w, e);
            && OverInVain(plan, id, w') && w'.claims == w.claims
            && w'.tables.publications[id].cursor == w.tables.publications[id].cursor
  {
    if !e.WorkerCycle? {
      OthersDoNotMove(plan, id, w, e);
    } else if !Execute(plan, id, w, e.cycle).Committed? {
      CutMoves(plan, id, w, e.cycle);
    } else if CallsExecutor(plan, id, w, e.cycle) {
      OverIsReadAgain(plan, id, w, e.cycle);
    } else {
      NoCallMoves(plan, id, w, e.cycle);
    }
  }

  /** A step whose execution ended without the write never gets another: every retry and every resume
      only reads the same end again. */
  lemma {:induction false} OverForever(plan: Plan, id: Id, w: World, events: seq<Event>)
    requires Kept(plan, id, w) && OverInVain(plan, id, w)
    ensures var w' := RunFrom(plan, id, w, events);
            && Kept(plan, id, w') && OverInVain(plan, id, w') && w'.claims == w.claims
            && w'.tables.publications[id].cursor == w.tables.publications[id].cursor < |plan|
            && !w'.package.Published?
  {
    if events != [] {
      var before := RunFrom(plan, id, w, events[..|events| - 1]);
      OverForever(plan, id, w, events[..|events| - 1]);
      OverStep(plan, id, before, events[|events| - 1]);
      RunKeeps(plan, id, w, events);
    }
  }

  /** The chokepoint takes the step up and reports that it was not written, and the cycle commits; or it
      commits a confirmation of a known proposal that the row cannot take. */
  predicate EndsInVain(plan: Plan, id: Id, w: World, x: Cycle) {
    && CallsExecutor(plan, id, w, x)
    && var k, p := Key(id, w.tables.publications[id].cursor), plan[w.tables.publications[id].cursor];
    && TakesUp(w, k, p, x)
    && (((x.report.verdict.StepFailed? || x.report.verdict.StepBlocked?) && !LosesTail(plan, id, w, x))
        || (KnownProposal(w.tables, k).Some? && x.reach.Settled? && x.report.verdict.StepDone?
            && !Storable(p.kind, x.report)))
  }

  /** Only a done step moves the cursor. */
  lemma ReportMovesOn(plan: Plan, id: Id, w: World, i: nat, r: Report, x: Cycle)
    requires id in w.tables.publications && w.tables.publications[id].cursor == i < |plan|
    ensures var a := Conclude(plan, id, w, i, r, x);
            a.Committed? ==>
              && a.world.tables.steps == w.tables.steps && Advances(id, w, a.world)
              && (a.world.tables.publications[id].cursor == i
                  || (r.verdict.StepDone? && a.world.tables.publications[id].cursor == i + 1))
  {
    ConcludeMoves(plan, id, w, i, r, x);
  }

  lemma SentInVain(plan: Plan, id: Id, w: World, i: nat, x: Cycle)
    requires Kept(plan, id, w) && w.tables.publications[id].cursor == i < |plan| && !OverInVain(plan, id, w)
    ensures var k, p := Key(id, i), plan[i];
            var sent := Send(w, k, p, x);
            sent.Some? ==>
              (OverInVain(plan, id, sent.value) <==>
               TakesUp(w, k, p, x) && (x.report.verdict.StepFailed? || x.report.verdict.StepBlocked?))
  {
    SendFacts(w, Key(id, i), plan[i], x);
  }

  lemma ConcludedInVain(plan: Plan, id: Id, w: World, i: nat, r: Report, x: Cycle)
    requires id in w.tables.publications && w.tables.publications[id].cursor == i < |plan|
    requires Key(id, i + 1) !in w.claims && (OverInVain(plan, id, w) ==> !r.verdict.StepDone?)
    ensures var a := Conclude(plan, id, w, i, r, x);
            a.Committed? ==> (OverInVain(plan, id, a.world) <==> OverInVain(plan, id, w))
  {
    ReportMovesOn(plan, id, w, i, r, x);
  }

  lemma ReportedInVain(plan: Plan, id: Id, w: World, x: Cycle)
    requires Kept(plan, id, w) && CallsExecutor(plan, id, w, x) && Execute(plan, id, w, x).Committed?
    requires !OverInVain(plan, id, w)
    ensures var k, p := Key(id, w.tables.publications[id].cursor), plan[w.tables.publications[id].cursor];
            OverInVain(plan, id, AfterCycle(plan, id, w, x)) <==>
            TakesUp(w, k, p, x) && (x.report.verdict.StepFailed? || x.report.verdict.StepBlocked?)
  {
    var i := w.tables.publications[id].cursor;
    var b, k, p := Begin(w), Key(id, i), plan[i];
    CallIsExecuted(plan, id, w, x);
    SentInVain(plan, id, w, i, x);
    BeginSends(w, k, p, x);
    BeginChangesNothingElse(w, k, p, x);
    SendFacts(w, k, p, x);
    assert Key(id, i + 1) !in w.claims;
    ConcludedInVain(plan, id, Send(b, k, p, x).value, i, Heard(w, k, p, x), x);
  }

  lemma CutInVain(plan: Plan, id: Id, w: World, x: Cycle)
    requires Kept(plan, id, w) && !Execute(plan, id, w, x).Committed? && !OverInVain(plan, id, w)
    ensures OverInVain(plan, id, AfterCycle(plan, id, w, x)) <==>
            CommitsOnTheWay(plan, id, w, x)
            && var i := w.tables.publications[id].cursor;
               KnownProposal(w.tables, Key(id, i)).Some? && !Storable(plan[i].kind, x.report)
  {
    CutMoves(plan, id, w, x);
    if CommitsOnTheWay(plan, id, w, x) {
      var i := w.tables.publications[id].cursor;
      OpenFacts(w.tables, Key(id, i), plan[i]);
    }
  }

  lemma KnownRowIsOpened(plan: Plan, id: Id, w: World, x: Cycle)
    requires CallsExecutor(plan, id, w, x)
    ensures var k, p := Key(id, w.tables.publications[id].cursor), plan[w.tables.publications[id].cursor];
            KnownProposal(w.tables, k).Some? ==>
              && (CommitsOnTheWay(plan, id, w, x) <==>
                    TakesUp(w, k, p, x) && x.reach.Settled? && x.report.verdict.StepDone?)
              && (TakesUp(w, k, p, x) ==> Heard(w, k, p, x) == x.report)
  {
  }

  /** A cycle leaves the next step with an execution over in vain exactly when it ends in vain. */
  lemma OverExactlyWhenEndedInVain(plan: Plan, id: Id, w: World, x: Cycle)
    requires Orderly(plan, id, w) && !OverInVain(plan, id, w) && !Stuck(id, w)
    ensures OverInVain(plan, id, AfterCycle(plan, id, w, x)) <==> EndsInVain(plan, id, w, x)
  {
    if !CallsExecutor(plan, id, w, x) {
      if Execute(plan, id, w, x).Committed? {
        NoCallMoves(plan, id, w, x);
      } else {
        CutInVain(plan, id, w, x);
      }
    } else {
      if !x.interrupted {
        CallCommits(plan, id, w, x);
      }
      KnownRowIsOpened(plan, id, w, x);
      if Execute(plan, id, w, x).Committed? {
        ReportedInVain(plan, id, w, x);
      } else {
        CutInVain(plan, id, w, x);
      }
    }
  }

  // ---------------------------------------------------------------------------
  // Proposals
  // ---------------------------------------------------------------------------

  lemma ProposalStep(plan: Plan, id: Id, w: World, e: Event, k: Key)
    requires Kept(plan, id, w)
    ensures var w' := After(plan, id, w, e);
            && (k in w.tables.steps && w.tables.steps[k].proposalId.Some? ==>
                  k in w'.tables.steps && w'.tables.steps[k].proposalId == w.tables.steps[k].proposalId)
            && (k in w.claims ==> k in w'.claims && w'.claims[k].proposalId == w.claims[k].proposalId)
  {
    if e.WorkerCycle? {
      CycleMoves(plan, id, w, e.cycle);
      var i := w.tables.publications[id].cursor;
      if CallsExecutor(plan, id, w, e.cycle) {
        var n, p := Key(id, i), plan[i];
        SendFacts(w, n, p, e.cycle);
        OpenFacts(w.tables, n, p);
      }
    } else {
      OthersDoNotMove(plan, id, w, e);
    }
  }

  /** A step is executed for one proposal only, whatever is retried and wherever cycles break off; and
      once its row knows the proposal, it keeps it. */
  lemma {:induction false} ProposalsAreKept(plan: Plan, id: Id, w: World, events: seq<Event>, k: Key)
    requires Kept(plan, id, w)
    ensures var w' := RunFrom(plan, id, w, events);
            && (k in w.tables.steps && w.tables.steps[k].proposalId.Some? ==>
                  k in w'.tables.steps && w'.tables.steps[k].proposalId == w.tables.steps[k].proposalId)
            && (k in w.claims ==> k in w'.claims && w'.claims[k].proposalId == w.claims[k].proposalId)
  {
    if events != [] {
      ProposalsAreKept(plan, id, w, events[..|events| - 1], k);
      RunKeeps(plan, id, w, events[..|events| - 1]);
      ProposalStep(plan, id, RunFrom(plan, id, w, events[..|events| - 1]), events[|events| - 1], k);
    }
  }

  // ---------------------------------------------------------------------------
  // Doubt
  // ---------------------------------------------------------------------------

  /** For all that the executions tell, the platform may have applied the step. */
  predicate MayExist(claims: map<Key, Claim>, k: Key) {
    && k in claims
    && (claims[k].status.Called? || (claims[k].status.Ended? && claims[k].status.report.verdict.StepDone?))
  }

  /** The platform may have applied the next step, and its row does not say so: the answer is not
      known, or the call was made and the row lost. */
  predicate InDoubt(id: Id, w: World) {
    && id in w.tables.publications
    && var i := w.tables.publications[id].cursor;
    && i >= 0
    && var k := Key(id, i);
    && (CurrentState(w.tables, k).Unknown? || (MayExist(w.claims, k) && !CurrentState(w.tables, k).Done?))
  }

  /** A package that is declared failed is one of which nothing was created: nothing visible is done
      and no step is in doubt. While one is, the package is not in a state from which it may fail. */
  ghost predicate FailsHonestly(plan: Plan, id: Id, w: World) {
    && (w.package.Failed? ==> !VisibleDone(plan, id, w.tables.steps))
    && (InDoubt(id, w) ==> !w.package.Failed? && !w.package.Publishing? && !w.package.Approved?)
    && (w.package.Failed? ==> !OpenPublication(w.tables, id))
  }

  /** Someone presses on while a step is in doubt. */
  predicate ResumesInDoubt(id: Id, w: World, e: Event) {
    e.Resume? && InDoubt(id, w) && w.package.PartiallyPublished? && Resumable(w, id)
  }

  /** The platform is called and the tail of the cycle is lost, while the package is publishing. */
  predicate LosesCall(plan: Plan, id: Id, w: World, e: Event) {
    && e.WorkerCycle? && CommitsOnTheWay(plan, id, w, e.cycle) && (e.cycle.reach.Dispatched? || e.cycle.reach.Settled?)
    && LosesTail(plan, id, w, e.cycle) && Begin(w).package.Publishing? && !Stuck(id, w)
  }

  lemma HaltIsHonest(plan: Plan, id: Id, w: World, reason: string, failed: Option<int>, now: int)
    requires id in w.tables.publications && (InDoubt(id, w) ==> !w.package.Publishing?)
    ensures var a := Halt(plan, id, w, reason, failed, now); a.Committed? ==> FailsHonestly(plan, id, a.world)
  {
  }

  lemma ConcludeIsHonest(plan: Plan, id: Id, w: World, i: nat, r: Report, x: Cycle)
    requires AtStep(plan, id, w) && w.tables.publications[id].cursor == i && !w.package.Failed? && !w.package.Approved?
    requires InDoubt(id, w) ==> r.verdict.StepUnknown? || !w.package.Publishing?
    ensures var a := Conclude(plan, id, w, i, r, x); a.Committed? ==> FailsHonestly(plan, id, a.world)
  {
    if NeedsRegistry(plan[i].kind, r) && x.registryMisses {
      HaltIsHonest(plan, id, w, RegistryReason(plan[i].kind), Some(i), x.now);
    } else if r.verdict.StepDone? {
      assert Key(id, i + 1) !in w.tables.steps;
    } else if r.verdict.StepUnknown? {
    } else {
      HaltIsHonest(plan, id, w, if Present(r.outcomeCode) then r.outcomeCode.value else "step_failed", Some(i), x.now);
    }
  }

  lemma CallIsHonest(plan: Plan, id: Id, w: World, i: nat, x: Cycle)
    requires AtStep(plan, id, w) && w.tables.publications[id].cursor == i && !w.package.Failed? && !w.package.Approved?
    requires InDoubt(id, w) ==> !w.package.Publishing?
    ensures var a := Call(plan, id, w, i, x); a.Committed? ==> FailsHonestly(plan, id, a.world)
  {
    SendFacts(w, Key(id, i), plan[i], x);
    SendKeeps(plan, id, w, i, x);
    var sent := Send(w, Key(id, i), plan[i], x);
    if sent.Some? {
      ConcludeIsHonest(plan, id, sent.value, i, Heard(w, Key(id, i), plan[i], x), x);
    }
  }

  lemma ExecuteIsHonest(plan: Plan, id: Id, w: World, x: Cycle)
    requires Kept(plan, id, w) && FailsHonestly(plan, id, w)
    ensures var a := Execute(plan, id, w, x); a.Committed? ==> FailsHonestly(plan, id, a.world)
  {
    if x.interrupted || !OpenPublication(w.tables, id) || InGrace(w, id, x.now) {
    } else if x.preflight.Some? {
      HaltIsHonest(plan, id, Begin(w), x.preflight.value, None, x.now);
    } else {
      var b, i := Begin(w), w.tables.publications[id].cursor;
      if !StructureReady(plan, id, w.tables.steps, i, x.adRefs) {
        HaltIsHonest(plan, id, b, "structure_incomplete_before_activation", Some(i), x.now);
      } else if !OneParent(plan, i) {
      } else if !ParentReady(plan, id, w.tables.steps, i) || !SourcesReady(plan, id, w.tables.steps, i) {
        HaltIsHonest(plan, id, b, "package_parent_unconfirmed", Some(i), x.now);
      } else {
        CallIsHonest(plan, id, b, i, x);
      }
    }
  }

  lemma InternalErrorIsHonest(plan: Plan, id: Id, w: World, now: int)
    requires id in w.tables.publications && (w.package.Failed? ==> !OpenPublication(w.tables, id))
    ensures FailsHonestly(plan, id, AfterInternalError(id, w, now)) <==> FailsHonestly(plan, id, w)
  {
    InternalErrorMoves(id, w, now);
  }

  /** What a commit on the way does to the doubt. */
  lemma SavedInDoubt(plan: Plan, id: Id, w: World, x: Cycle)
    requires Kept(plan, id, w) && CommitsOnTheWay(plan, id, w, x)
    ensures var w' := Saved(plan, id, w, x);
            && Kept(plan, id, w') && w'.package == Begin(w).package && w'.tables.publications == w.tables.publications
            && (VisibleDone(plan, id, w'.tables.steps) <==> VisibleDone(plan, id, w.tables.steps))
            && (InDoubt(id, w') <==>
                  (CurrentState(w.tables, Key(id, w.tables.publications[id].cursor)).Unknown?
                   || ((x.reach.Dispatched? || x.reach.Settled?) && !Stuck(id, w))))
  {
    var i := w.tables.publications[id].cursor;
    SavedKeeps(plan, id, w, x);
    OpenFacts(w.tables, Key(id, i), plan[i]);
    assert forall j :: DoneAt(Saved(plan, id, w, x).tables.steps, id, j) <==> DoneAt(w.tables.steps, id, j);
  }

  lemma CutIsHonest(plan: Plan, id: Id, w: World, x: Cycle)
    requires Kept(plan, id, w) && FailsHonestly(plan, id, w) && !Execute(plan, id, w, x).Committed?
    ensures FailsHonestly(plan, id, AfterCycle(plan, id, w, x)) <==>
            !(CommitsOnTheWay(plan, id, w, x) && (x.reach.Dispatched? || x.reach.Settled?)
              && Begin(w).package.Publishing? && !Stuck(id, w))
  {
    if CommitsOnTheWay(plan, id, w, x) {
      SavedInDoubt(plan, id, w, x);
      InternalErrorIsHonest(plan, id, Saved(plan, id, w, x), x.now);
    } else {
      InternalErrorIsHonest(plan, id, w, x.now);
    }
  }

  lemma LosesTailExactly(plan: Plan, id: Id, w: World, x: Cycle)
    requires Orderly(plan, id, w) && CommitsOnTheWay(plan, id, w, x) && !Stuck(id, w)
    ensures LosesTail(plan, id, w, x) <==> !Execute(plan, id, w, x).Committed?
  {
    if !x.interrupted {
      CallCommits(plan, id, w, x);
    }
  }

  lemma CycleIsHonest(plan: Plan, id: Id, w: World, x: Cycle)
    requires Orderly(plan, id, w) && FailsHonestly(plan, id, w)
    ensures FailsHonestly(plan, id, AfterCycle(plan, id, w, x)) <==> !LosesCall(plan, id, w, WorkerCycle(x))
  {
    if CommitsOnTheWay(plan, id, w, x) && !Stuck(id, w) {
      LosesTailExactly(plan, id, w, x);
    }
    if Execute(plan, id, w, x).Committed? {
      ExecuteIsHonest(plan, id, w, x);
    } else {
      CutIsHonest(plan, id, w, x);
    }
  }

  lemma OtherEventIsHonest(plan: Plan, id: Id, w: World, e: Event)
    requires Kept(plan, id, w) && FailsHonestly(plan, id, w) && !e.WorkerCycle?
    ensures FailsHonestly(plan, id, After(plan, id, w, e)) <==> !ResumesInDoubt(id, w, e)
  {
  }

  /** The events that put an honest failure at risk. */
  predicate PutsAtRisk(plan: Plan, id: Id, w: World, e: Event) {
    ResumesInDoubt(id, w, e) || LosesCall(plan, id, w, e)
  }

  lemma HonestStep(plan: Plan, id: Id, w: World, e: Event)
    requires Orderly(plan, id, w) && FailsHonestly(plan, id, w)
    ensures FailsHonestly(plan, id, After(plan, id, w, e)) <==> !PutsAtRisk(plan, id, w, e)
  {
    if e.WorkerCycle? {
      CycleIsHonest(plan, id, w, e.cycle);
    } else {
      OtherEventIsHonest(plan, id, w, e);
    }
  }

  lemma UptoNext(plan: Plan, id: Id, w: World, events: seq<Event>, n: nat)
    requires n < |events| && Orderly(plan, id, w)
    ensures RunFrom(plan, id, w, events[..n + 1]) == After(plan, id, RunFrom(plan, id, w, events[..n]), events[n])
    ensures Orderly(plan, id, RunFrom(plan, id, w, events[..n]))
  {
    assert events[..n + 1][..n] == events[..n];
    RunKeeps(plan, id, w, events[..n]);
    RunIsChecked(plan, id, w, events[..n]);
  }

  lemma FreshIsHonest(plan: Plan, id: Id, w: World)
    requires Signed(plan) && AllWellFormed(plan) && Fresh(id, w) && RowsChecked(w.tables)
    ensures Orderly(plan, id, w) && FailsHonestly(plan, id, w)
  {
    FreshIsKept(plan, id, w);
  }

  lemma {:induction false} HonestUpto(plan: Plan, id: Id, w: World, events: seq<Event>, n: nat)
    requires Orderly(plan, id, w) && FailsHonestly(plan, id, w) && n <= |events|
    requires forall m :: 0 <= m < n ==> !PutsAtRisk(plan, id, RunFrom(plan, id, w, events[..m]), events[m])
    ensures FailsHonestly(plan, id, RunFrom(plan, id, w, events[..n]))
  {
    if n > 0 {
      HonestUpto(plan, id, w, events, n - 1);
      UptoNext(plan, id, w, events, n - 1);
      HonestStep(plan, id, RunFrom(plan, id, w, events[..n - 1]), events[n - 1]);
    }
  }

  /** At every moment of a run from an approval a package declared failed has nothing on the platform,
      nor anything that might be, and none in doubt can still be declared so: if and only if nobody
      resumes while a step is in doubt and no cycle loses its tail after calling the platform for a
      package that is publishing. */
  lemma FailedMeansNothingCreated(plan: Plan, id: Id, w: World, events: seq<Event>)
    requires Signed(plan) && AllWellFormed(plan) && Fresh(id, w) && RowsChecked(w.tables)
    ensures (forall n :: 0 <= n <= |events| ==> FailsHonestly(plan, id, RunFrom(plan, id, w, events[..n])))
       <==> (forall m :: 0 <= m < |events| ==> !PutsAtRisk(plan, id, RunFrom(plan, id, w, events[..m]), events[m]))
  {
    FreshIsHonest(plan, id, w);
    if forall m :: 0 <= m < |events| ==> !PutsAtRisk(plan, id, RunFrom(plan, id, w, events[..m]), events[m]) {
      forall n | 0 <= n <= |events| ensures FailsHonestly(plan, id, RunFrom(plan, id, w, events[..n])) {
        HonestUpto(plan, id, w, events, n);
      }
    }
    if forall n :: 0 <= n <= |events| ==> FailsHonestly(plan, id, RunFrom(plan, id, w, events[..n])) {
      forall m | 0 <= m < |events| ensures !PutsAtRisk(plan, id, RunFrom(plan, id, w, events[..m]), events[m]) {
        UptoNext(plan, id, w, events, m);
        assert FailsHonestly(plan, id, RunFrom(plan, id, w, events[..m + 1]));
        HonestStep(plan, id, RunFrom(plan, id, w, events[..m]), events[m]);
      }
    }
  }

  /** The cycle stops the publication before the platform is called. */
  predicate StopsBeforeTheCall(plan: Plan, id: Id, w: World, x: Cycle) {
    && !x.interrupted && OpenPublication(w.tables, id) && !InGrace(w, id, x.now)
    && var i := w.tables.publications[id].cursor;
    && 0 <= i < |plan|
    && (x.preflight.Some? || !StructureReady(plan, id, w.tables.steps, i, x.adRefs)
        || (OneParent(plan, i)
            && !(ParentReady(plan, id, w.tables.steps, i) && SourcesReady(plan, id, w.tables.steps, i))))
  }

  /** The executor turns the step down, and the code it gives has room. */
  predicate IsDenied(plan: Plan, id: Id, w: World, x: Cycle) {
    && !x.interrupted && CallsExecutor(plan, id, w, x)
    && var i := w.tables.publications[id].cursor;
    && Denies(w.tables, Key(id, i), plan[i], x) && Length(Some(x.denial.value.code), 64)
  }

  lemma StopInDoubt(plan: Plan, id: Id, w: World, x: Cycle)
    requires Kept(plan, id, w) && Sane(plan, id, w, x) && InDoubt(id, w) && StopsBeforeTheCall(plan, id, w, x)
    requires InProgress(w.package)
    ensures var w' := AfterCycle(plan, id, w, x);
            && InDoubt(id, w') && Unmoved(id, w, w') && w'.tables.publications[id].state.PubHalted?
            && w'.package == HaltedPackage(plan, id, w)
            && w'.tables.publications[id].startedAt == w.tables.publications[id].startedAt
  {
    var i := w.tables.publications[id].cursor;
    if x.preflight.Some? {
      HaltIsTaken(plan, id, w, x.preflight.value, None, x.now);
    } else if !StructureReady(plan, id, w.tables.steps, i, x.adRefs) {
      HaltIsTaken(plan, id, w, "structure_incomplete_before_activation", Some(i), x.now);
    } else {
      HaltIsTaken(plan, id, w, "package_parent_unconfirmed", Some(i), x.now);
    }
  }

  /** Rewriting a row that was not done, as not done, leaves what is visible. */
  lemma VisibleIsDone(plan: Plan, id: Id, steps: map<Key, Step>, steps': map<Key, Step>, k: Key)
    requires k in steps' && steps' == steps[k := steps'[k]] && !steps'[k].state.Done?
    requires k in steps ==> !steps[k].state.Done?
    ensures VisibleDone(plan, id, steps) <==> VisibleDone(plan, id, steps')
  {
    assert forall j :: DoneAt(steps, id, j) <==> DoneAt(steps', id, j);
  }

  /** A denial is recorded on the row and changes nothing of the doubt. */
  lemma DenialIsRecorded(plan: Plan, id: Id, w: World, x: Cycle)
    requires Signed(plan) && Kept(plan, id, w) && RowsChecked(w.tables) && Sane(plan, id, w, x)
    requires InDoubt(id, w) && InProgress(w.package) && IsDenied(plan, id, w, x)
    ensures var i := w.tables.publications[id].cursor;
            var sent := Send(w, Key(id, i), plan[i], x);
            && sent.Some? && sent.value.package == w.package && sent.value.claims == w.claims
            && AtStep(plan, id, sent.value) && sent.value.tables.publications == w.tables.publications
            && !DoneAt(sent.value.tables.steps, id, i)
            && (VisibleDone(plan, id, w.tables.steps) <==> VisibleDone(plan, id, sent.value.tables.steps))
  {
    var i := w.tables.publications[id].cursor;
    var k, p := Key(id, i), plan[i];
    SendIsTaken(plan, id, w, i, x);
    SendFacts(w, k, p, x);
    SendKeeps(plan, id, w, i, x);
    VisibleIsDone(plan, id, w.tables.steps, Send(w, k, p, x).value.tables.steps, k);
  }

  /** A step in doubt that was denied is one that lost its proposal. */
  lemma DeniedRowsHaveClaims(plan: Plan, id: Id, w: World, x: Cycle)
    requires Kept(plan, id, w) && InDoubt(id, w) && IsDenied(plan, id, w, x)
    ensures var k := Key(id, w.tables.publications[id].cursor); MayExist(w.claims, k)
  {
  }

  lemma DenialInDoubt(plan: Plan, id: Id, w: World, x: Cycle)
    requires Signed(plan) && Kept(plan, id, w) && RowsChecked(w.tables) && Sane(plan, id, w, x)
    requires InDoubt(id, w) && InProgress(w.package) && IsDenied(plan, id, w, x)
    ensures var a := Execute(plan, id, w, x);
            && a.Committed? && InDoubt(id, a.world)
            && a.world.package == HaltedPackage(plan, id, w)
  {
    var i := w.tables.publications[id].cursor;
    DenialIsRecorded(plan, id, w, x);
    CallIsExecuted(plan, id, w, x);
    DeniedRowsHaveClaims(plan, id, w, x);
    HaltIsTaken(plan, id, Send(w, Key(id, i), plan[i], x).value, x.denial.value.code, Some(i), x.now);
  }

  lemma AnswerInDoubt(plan: Plan, id: Id, w: World, x: Cycle)
    requires Kept(plan, id, w) && InDoubt(id, w) && !w.package.Failed? && !w.package.Approved?
    requires CallsExecutor(plan, id, w, x) && Execute(plan, id, w, x).Committed?
    requires var i := w.tables.publications[id].cursor; !Denies(w.tables, Key(id, i), plan[i], x)
    ensures FailsHonestly(plan, id, AfterCycle(plan, id, w, x))
  {
    var i := w.tables.publications[id].cursor;
    var k, p := Key(id, i), plan[i];
    CallIsExecuted(plan, id, w, x);
    SendFacts(w, k, p, x);
    SendKeeps(plan, id, w, i, x);
    ConcludeIsHonest(plan, id, Send(w, k, p, x).value, i, Heard(w, k, p, x), x);
  }

  lemma OnlyDenialsThatFitAreTaken(plan: Plan, id: Id, w: World, x: Cycle)
    requires CallsExecutor(plan, id, w, x) && Execute(plan, id, w, x).Committed?
    ensures var i := w.tables.publications[id].cursor;
            Denies(w.tables, Key(id, i), plan[i], x) ==> IsDenied(plan, id, w, x)
  {
    var i := w.tables.publications[id].cursor;
    CallIsExecuted(plan, id, w, x);
    SendFacts(Begin(w), Key(id, i), plan[i], x);
  }

  lemma OtherwiseHonest(plan: Plan, id: Id, w: World, x: Cycle)
    requires Kept(plan, id, w) && InDoubt(id, w) && !w.package.Failed? && !w.package.Approved?
    requires Execute(plan, id, w, x).Committed?
    requires !(InProgress(w.package) && (StopsBeforeTheCall(plan, id, w, x) || IsDenied(plan, id, w, x)))
    ensures var w' := Execute(plan, id, w, x).world; !(w'.package.Failed? && InDoubt(id, w'))
  {
    if CallsExecutor(plan, id, w, x) {
      OnlyDenialsThatFitAreTaken(plan, id, w, x);
      AnswerInDoubt(plan, id, w, x);
    }
  }

  lemma CutIsNotFailed(plan: Plan, id: Id, w: World, x: Cycle)
    requires id in w.tables.publications && !w.package.Failed? && !Execute(plan, id, w, x).Committed?
    ensures !AfterCycle(plan, id, w, x).package.Failed?
  {
    CutMoves(plan, id, w, x);
  }

  /** The exact way in which a package is declared failed over a step in doubt: it is publishing, as
      only resuming or losing a call leaves it, nothing visible is done, and the cycle stops before
      asking the platform. */
  lemma FailsInDoubtExactly(plan: Plan, id: Id, w: World, x: Cycle)
    requires Signed(plan) && Kept(plan, id, w) && RowsChecked(w.tables) && Sane(plan, id, w, x)
    requires InDoubt(id, w) && !w.package.Failed? && !w.package.Approved?
    ensures (AfterCycle(plan, id, w, x).package.Failed? && InDoubt(id, AfterCycle(plan, id, w, x))) <==>
            (w.package.Publishing? && !VisibleDone(plan, id, w.tables.steps)
             && (StopsBeforeTheCall(plan, id, w, x) || IsDenied(plan, id, w, x)))
  {
    if StopsBeforeTheCall(plan, id, w, x) && InProgress(w.package) {
      StopInDoubt(plan, id, w, x);
    } else if IsDenied(plan, id, w, x) && InProgress(w.package) {
      DenialInDoubt(plan, id, w, x);
    } else if Execute(plan, id, w, x).Committed? {
      OtherwiseHonest(plan, id, w, x);
    } else {
      CutIsNotFailed(plan, id, w, x);
    }
  }

  /** A publication in doubt, nothing visible done, of a package in the given state. */
  ghost predicate Doubtful(plan: Plan, id: Id, w: World, package: P.PackageState, state: PublicationState,
                           startedAt: int)
  {
    && Kept(plan, id, w) && InDoubt(id, w) && !VisibleDone(plan, id, w.tables.steps)
    && w.package == package && w.tables.publications[id].state == state
    && w.tables.publications[id].startedAt == startedAt
  }

  /** A cycle that a check stops. */
  predicate Stops(x: Cycle, startedAt: int) {
    x.preflight.Some? && Length(x.preflight, 200) && x.now >= startedAt && !x.interrupted
  }

  lemma StopDoubtful(plan: Plan, id: Id, w: World, x: Cycle, package: P.PackageState, state: PublicationState,
                     startedAt: int)
    requires Doubtful(plan, id, w, package, state, startedAt) && Stops(x, startedAt)
    requires (state.PubPending? || state.PubRunning?) && (package.Publishing? || package.Verifying?)
    ensures Doubtful(plan, id, After(plan, id, w, WorkerCycle(x)),
                     if package.Verifying? then P.PartiallyPublished else P.Failed, PubHalted, startedAt)
  {
    HaltIsTaken(plan, id, w, x.preflight.value, None, x.now);
    CycleKeeps(plan, id, w, x);
  }

  lemma ResumeDoubtful(plan: Plan, id: Id, w: World, startedAt: int)
    requires Doubtful(plan, id, w, P.PartiallyPublished, PubHalted, startedAt)
    ensures Doubtful(plan, id, After(plan, id, w, Resume), P.Publishing, PubRunning, startedAt)
  {
    OtherEventsKeep(plan, id, w, Resume);
  }

  /** The first cycle after an approval: the campaign is sent. */
  ghost predicate SendsFirst(plan: Plan, id: Id, w: World, x: Cycle) {
    && Signed(plan) && Fresh(id, w) && RowsChecked(w.tables) && Sane(plan, id, w, x)
    && plan[0].kind.CreateCampaign? && plan[0].dependsOn == [] && WellFormed(plan[0])
    && x.now >= w.tables.publications[id].startedAt + UNDO_GRACE && x.preflight.None? && x.denial.None?
    && Authorizes(w.tables, Key(id, 0), x)
  }

  lemma FirstCallInDoubt(plan: Plan, id: Id, w: World, x: Cycle)
    requires SendsFirst(plan, id, w, x)
    requires x.report.verdict.StepUnknown? && Storable(plan[0].kind, x.report) && !x.interrupted
    ensures var w' := After(plan, id, w, WorkerCycle(x));
            && Doubtful(plan, id, w', P.Verifying, PubRunning, w.tables.publications[id].startedAt)
            && w'.tables.publications[id].cursor == 0
            && KnownProposal(w'.tables, Key(id, 0)).Some? && !IsOver(w'.claims, Key(id, 0))
  {
    FreshIsKept(plan, id, w);
    CycleKeeps(plan, id, w, x);
    var b, k, p := Begin(w), Key(id, 0), plan[0];
    CallIsExecuted(plan, id, w, x);
    SendIsTaken(plan, id, b, 0, x);
    SendFacts(b, k, p, x);
    assert Execute(plan, id, w, x) == Stay(id, Send(b, k, p, x).value);
  }

  /** Such a run from an approval: the first step's outcome stays unknown, a check stops the
      publication, it is resumed, and the check stops it again. The package then reads as failed, and
      cannot be resumed, while its campaign may exist. */
  lemma FailedInDoubtIsReachable(plan: Plan, id: Id, w: World, unknown: Cycle, stop: Cycle)
    requires SendsFirst(plan, id, w, unknown) && Stops(stop, w.tables.publications[id].startedAt)
    requires unknown.report.verdict.StepUnknown? && Storable(plan[0].kind, unknown.report) && !unknown.interrupted
    ensures var w1 := After(plan, id, w, WorkerCycle(unknown));
            var w2 := After(plan, id, w1, WorkerCycle(stop));
            var w3 := After(plan, id, w2, Resume);
            var w4 := After(plan, id, w3, WorkerCycle(stop));
            w4.package.Failed? && InDoubt(id, w4) && !Resumable(w4, id)
  {
    var startedAt := w.tables.publications[id].startedAt;
    FirstCallInDoubt(plan, id, w, unknown);
    var w1 := After(plan, id, w, WorkerCycle(unknown));
    StopDoubtful(plan, id, w1, stop, P.Verifying, PubRunning, startedAt);
    var w2 := After(plan, id, w1, WorkerCycle(stop));
    ResumeDoubtful(plan, id, w2, startedAt);
    StopDoubtful(plan, id, After(plan, id, w2, Resume), stop, P.Publishing, PubRunning, startedAt);
  }

  /** The first step of a publication in progress is read as failed. */
  ghost predicate ReadsFailure(plan: Plan, id: Id, w: World, x: Cycle) {
    && Orderly(plan, id, w) && w.package.Verifying? && OpenPublication(w.tables, id)
    && w.tables.publications[id].cursor == 0 && plan[0].kind.CreateCampaign? && plan[0].dependsOn == []
    && KnownProposal(w.tables, Key(id, 0)).Some? && !IsOver(w.claims, Key(id, 0)) && !Stuck(id, w)
    && x.preflight.None? && x.now >= w.tables.publications[id].startedAt && !x.interrupted
    && x.report.verdict.StepFailed? && Storable(plan[0].kind, x.report)
  }

  lemma ReadFailureEndsInVain(plan: Plan, id: Id, w: World, x: Cycle)
    requires ReadsFailure(plan, id, w, x)
    ensures EndsInVain(plan, id, w, x) && !OverInVain(plan, id, w) && !LosesTail(plan, id, w, x)
  {
    assert CallsExecutor(plan, id, w, x);
  }

  lemma ReadFailureIsResumable(plan: Plan, id: Id, w: World, x: Cycle)
    requires ReadsFailure(plan, id, w, x)
    ensures Resumable(After(plan, id, w, WorkerCycle(x)), id)
  {
    var k, p := Key(id, 0), plan[0];
    CallIsExecuted(plan, id, w, x);
    SentAtStep(plan, id, w, 0, x);
    HaltIsTaken(plan, id, Send(w, k, p, x).value,
                if Present(x.report.outcomeCode) then x.report.outcomeCode.value else "step_failed", Some(0), x.now);
  }

  lemma ReadFailureIsOver(plan: Plan, id: Id, w: World, x: Cycle)
    requires ReadsFailure(plan, id, w, x)
    ensures var w' := After(plan, id, w, WorkerCycle(x));
            Orderly(plan, id, w') && OverInVain(plan, id, w') && Resumable(w', id)
  {
    ReadFailureEndsInVain(plan, id, w, x);
    OverExactlyWhenEndedInVain(plan, id, w, x);
    ReadFailureIsResumable(plan, id, w, x);
    EventIsChecked(plan, id, w, WorkerCycle(x));
    CycleKeeps(plan, id, w, x);
  }

  /** Such an end from an approval: the first step's outcome stays unknown, and is then read as failed. The
      package may be resumed, for ever in vain. */
  lemma OverIsReachable(plan: Plan, id: Id, w: World, unknown: Cycle, failed: Cycle)
    requires AllWellFormed(plan) && SendsFirst(plan, id, w, unknown)
    requires unknown.report.verdict.StepUnknown? && Storable(plan[0].kind, unknown.report) && !unknown.interrupted
    requires failed.report.verdict.StepFailed? && Storable(plan[0].kind, failed.report) && !failed.interrupted
    requires failed.preflight.None? && failed.now >= w.tables.publications[id].startedAt
    ensures var w1 := After(plan, id, w, WorkerCycle(unknown));
            var w2 := After(plan, id, w1, WorkerCycle(failed));
            Orderly(plan, id, w2) && OverInVain(plan, id, w2) && Resumable(w2, id)
  {
    FirstCallInDoubt(plan, id, w, unknown);
    EventIsChecked(plan, id, w, WorkerCycle(unknown));
    ReadFailureIsOver(plan, id, After(plan, id, w, WorkerCycle(unknown)), failed);
  }

  lemma FirstCallIsLost(plan: Plan, id: Id, w: World, x: Cycle)
    requires SendsFirst(plan, id, w, x) && x.reach.Dispatched? && (x.interrupted || !Storable(plan[0].kind, x.report))
    ensures var w' := After(plan, id, w, WorkerCycle(x));
            Orphaned(id, w') && Doubtful(plan, id, w', P.Publishing, PubPending, w.tables.publications[id].startedAt)
  {
    FreshIsKept(plan, id, w);
    CycleKeeps(plan, id, w, x);
    OrphanedExactlyByALostTail(plan, id, w, x);
    SendIsTaken(plan, id, Begin(w), 0, x);
    OpenFacts(w.tables, Key(id, 0), plan[0]);
    assert Execute(plan, id, w, x).Rejected?;
  }

  /** And one in which nobody resumes: the platform is called for the first step, the tail of the cycle
      is lost, and a check stops the next one. The package reads as failed while its campaign may
      exist, and the step has lost its proposal. */
  lemma FailedAfterALostCallIsReachable(plan: Plan, id: Id, w: World, cut: Cycle, stop: Cycle)
    requires SendsFirst(plan, id, w, cut) && Stops(stop, w.tables.publications[id].startedAt)
    requires cut.reach.Dispatched? && (cut.interrupted || !Storable(plan[0].kind, cut.report))
    ensures var w1 := After(plan, id, w, WorkerCycle(cut));
            var w2 := After(plan, id, w1, WorkerCycle(stop));
            && Orphaned(id, w1) && InDoubt(id, w1) && Kept(plan, id, w1)
            && w2.package.Failed? && InDoubt(id, w2) && Orphaned(id, w2) && !Resumable(w2, id)
  {
    var startedAt := w.tables.publications[id].startedAt;
    FirstCallIsLost(plan, id, w, cut);
    var w1 := After(plan, id, w, WorkerCycle(cut));
    StopDoubtful(plan, id, w1, stop, P.Publishing, PubPending, startedAt);
    OrphanStep(plan, id, w1, WorkerCycle(stop));
  }
}
