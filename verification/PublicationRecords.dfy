/** What the worker puts on record, whoever reads it later: a step's row only once the step has what it
    needs, what was reported in it, and at the end a reason that the rows bear out. */
module PublicationRecords {
  import opened Wrappers
  import opened PublicationSaga
  import opened PublicationWorker
  import P = CampaignPackages

  // ---------------------------------------------------------------------------
  // What a step needs and leaves
  // ---------------------------------------------------------------------------

  /** The step is done, and the platform named what it created. */
  predicate HasReceipt(steps: map<Key, Step>, id: Id, j: nat) {
    && Key(id, j) in steps && steps[Key(id, j)].state.Done?
    && steps[Key(id, j)].createdEntityRef.Some? && steps[Key(id, j)].createdEntityRef.value != ""
  }

  /** The step's parent is no step before it with a receipt. */
  predicate LacksParent(plan: Plan, id: Id, steps: map<Key, Step>, i: nat)
    requires i < |plan|
  {
    plan[i].parentLocalRef.Some?
    && forall j :: 0 <= j < i && plan[j].localRef == plan[i].parentLocalRef.value ==> !HasReceipt(steps, id, j)
  }

  /** Of something the step leans on, the first step of that name has no receipt. */
  predicate LacksSource(plan: Plan, id: Id, steps: map<Key, Step>, i: nat)
    requires i < |plan|
  {
    exists r :: r in plan[i].dependsOn
      && forall j: nat :: j < |plan| && plan[j].localRef == r && HasReceipt(steps, id, j) ==>
           exists m: nat :: m < j && plan[m].localRef == r
  }

  lemma ParentIsReadyExactly(plan: Plan, id: Id, steps: map<Key, Step>, i: nat)
    requires i < |plan|
    ensures ParentReady(plan, id, steps, i) <==> !LacksParent(plan, id, steps, i)
  {
    if plan[i].parentLocalRef.Some? {
      assert forall j :: 0 <= j < i ==> (ReceiptAt(steps, id, j) <==> HasReceipt(steps, id, j));
      assert forall j :: 0 <= j < i ==>
          (IsParent(plan, i, j) <==> plan[j].localRef == plan[i].parentLocalRef.value);
    }
  }

  lemma SourcesAreReadyExactly(plan: Plan, id: Id, steps: map<Key, Step>, i: nat)
    requires i < |plan|
    ensures SourcesReady(plan, id, steps, i) <==> !LacksSource(plan, id, steps, i)
  {
    forall r | r in plan[i].dependsOn
      ensures (exists j :: 0 <= j < |plan| && FirstWith(plan, r, j) && ReceiptAt(steps, id, j))
         <==> exists j: nat :: j < |plan| && plan[j].localRef == r && HasReceipt(steps, id, j)
                && forall m: nat :: m < j ==> plan[m].localRef != r
    {
      if j: nat :| j < |plan| && plan[j].localRef == r && HasReceipt(steps, id, j)
                   && forall m: nat :: m < j ==> plan[m].localRef != r {
        assert FirstWith(plan, r, j) && ReceiptAt(steps, id, j);
      }
      if j :| 0 <= j < |plan| && FirstWith(plan, r, j) && ReceiptAt(steps, id, j) {
        assert HasReceipt(steps, id, j);
      }
    }
  }

  /** The executor is called for a step if and only if its one parent has a receipt, all it leans on has one,
      and before an activation as many of the package's ads are done as were signed. */
  lemma StepIsCalledExactly(plan: Plan, id: Id, steps: map<Key, Step>, i: nat, adRefs: set<string>)
    requires i < |plan|
    ensures Calls(plan, id, steps, i, adRefs) <==>
            && !LacksParent(plan, id, steps, i) && !LacksSource(plan, id, steps, i)
            && (forall j, m :: 0 <= j < m < i && plan[i].parentLocalRef.Some?
                               && plan[j].localRef == plan[i].parentLocalRef.value ==>
                  plan[m].localRef != plan[j].localRef)
            && (plan[i].kind.ActivateCampaign? ==>
                  && plan[i].expectedDone.Some? && plan[i].expectedDone.value > 0
                  && |set j: nat | j < |plan| && plan[j].localRef in adRefs
                                   && Key(id, j) in steps && steps[Key(id, j)].state.Done?|
                     == plan[i].expectedDone.value)
  {
    ParentIsReadyExactly(plan, id, steps, i);
    SourcesAreReadyExactly(plan, id, steps, i);
    assert AdsDone(plan, id, steps, adRefs)
        == set j: nat | j < |plan| && plan[j].localRef in adRefs
                        && Key(id, j) in steps && steps[Key(id, j)].state.Done?;
    if plan[i].parentLocalRef.Some? {
      assert forall j :: 0 <= j < i ==>
          (IsParent(plan, i, j) <==> plan[j].localRef == plan[i].parentLocalRef.value);
    }
  }

  /** The rows after are those before, or one more or another at `k`, which was not done. */
  ghost predicate OnlyAt(steps: map<Key, Step>, steps': map<Key, Step>, k: Key) {
    k in steps' && steps' == steps[k := steps'[k]] && (k in steps ==> !steps[k].state.Done?)
  }

  lemma ConcludeWritesNone(plan: Plan, id: Id, w: World, i: nat, r: Report, x: Cycle)
    requires id in w.tables.publications && i < |plan|
    ensures var a := Conclude(plan, id, w, i, r, x);
            a.Committed? ==> id in a.world.tables.publications && a.world.tables.steps == w.tables.steps
  {
  }

  lemma CallWritesOne(plan: Plan, id: Id, w: World, i: nat, x: Cycle)
    requires id in w.tables.publications && i < |plan|
    ensures var a := Call(plan, id, w, i, x);
            a.Committed? ==>
              id in a.world.tables.publications && OnlyAt(w.tables.steps, a.world.tables.steps, Key(id, i))
  {
    var k, p := Key(id, i), plan[i];
    SendFacts(w, k, p, x);
    var sent := Send(w, k, p, x);
    if sent.Some? {
      ConcludeWritesNone(plan, id, sent.value, i, Heard(w, k, p, x), x);
    }
  }

  lemma StepWritesOne(plan: Plan, id: Id, w: World, x: Cycle)
    requires id in w.tables.publications
    ensures var a, i := ExecuteStep(plan, id, w, x), w.tables.publications[id].cursor;
            a.Committed? ==>
              && id in a.world.tables.publications
              && (a.world.tables.steps == w.tables.steps
                  || (0 <= i < |plan| && Calls(plan, id, w.tables.steps, i, x.adRefs)
                      && OnlyAt(w.tables.steps, a.world.tables.steps, Key(id, i))))
  {
    var i := w.tables.publications[id].cursor;
    if 0 <= i < |plan| && Calls(plan, id, w.tables.steps, i, x.adRefs) {
      CallWritesOne(plan, id, w, i, x);
    }
  }

  lemma SavedWritesOne(plan: Plan, id: Id, w: World, x: Cycle)
    requires id in w.tables.publications
    ensures var saved, i := Saved(plan, id, w, x), w.tables.publications[id].cursor;
            && saved.tables.publications == w.tables.publications
            && (saved.tables.steps == w.tables.steps
                || (0 <= i < |plan| && Calls(plan, id, w.tables.steps, i, x.adRefs)
                    && OnlyAt(w.tables.steps, saved.tables.steps, Key(id, i))))
  {
    if CommitsOnTheWay(plan, id, w, x) {
      var i := w.tables.publications[id].cursor;
      OpenFacts(w.tables, Key(id, i), plan[i]);
    }
  }

  lemma ExecuteWritesOne(plan: Plan, id: Id, w: World, x: Cycle)
    requires id in w.tables.publications
    ensures var a, i := Execute(plan, id, w, x), w.tables.publications[id].cursor;
            a.Committed? ==>
              && id in a.world.tables.publications
              && (a.world.tables.steps == w.tables.steps
                  || (0 <= i < |plan| && Calls(plan, id, w.tables.steps, i, x.adRefs)
                      && OnlyAt(w.tables.steps, a.world.tables.steps, Key(id, i))))
  {
    if !x.interrupted && OpenPublication(w.tables, id) && !InGrace(w, id, x.now) && x.preflight.None? {
      StepWritesOne(plan, id, Begin(w), x);
    }
  }

  /** A cycle writes no step but the one at the cursor, and that only once it has what it needs and before it
      is done. */
  lemma CycleWritesOne(plan: Plan, id: Id, w: World, x: Cycle)
    requires id in w.tables.publications
    ensures var t', i := AfterCycle(plan, id, w, x).tables, w.tables.publications[id].cursor;
            && id in t'.publications
            && (t'.steps == w.tables.steps
                || (0 <= i < |plan| && Calls(plan, id, w.tables.steps, i, x.adRefs)
                    && OnlyAt(w.tables.steps, t'.steps, Key(id, i))))
  {
    SavedWritesOne(plan, id, w, x);
    ExecuteWritesOne(plan, id, w, x);
  }

  /** Every step with a row had its parent's receipt and those of all it leans on. */
  ghost predicate Grounded(plan: Plan, id: Id, w: World) {
    && id in w.tables.publications
    && forall k :: k in w.tables.steps && k.publication == id ==>
         && k.index < |plan| && !LacksParent(plan, id, w.tables.steps, k.index)
         && !LacksSource(plan, id, w.tables.steps, k.index)
  }

  lemma NeedsStayMet(plan: Plan, id: Id, steps: map<Key, Step>, steps': map<Key, Step>, i: nat)
    requires i < |plan| && !LacksParent(plan, id, steps, i) && !LacksSource(plan, id, steps, i)
    requires forall j: nat :: HasReceipt(steps, id, j) ==> HasReceipt(steps', id, j)
    ensures !LacksParent(plan, id, steps', i) && !LacksSource(plan, id, steps', i)
  {
    forall r | r in plan[i].dependsOn
      ensures exists j: nat :: j < |plan| && plan[j].localRef == r && HasReceipt(steps', id, j)
                && forall m: nat :: m < j ==> plan[m].localRef != r
    {
      var j: nat :| j < |plan| && plan[j].localRef == r && HasReceipt(steps, id, j)
                    && forall m: nat :: m < j ==> plan[m].localRef != r;
      assert HasReceipt(steps', id, j);
    }
  }

  lemma CycleStaysGrounded(plan: Plan, id: Id, w: World, x: Cycle)
    requires Grounded(plan, id, w)
    ensures Grounded(plan, id, AfterCycle(plan, id, w, x))
  {
    var steps, steps' := w.tables.steps, AfterCycle(plan, id, w, x).tables.steps;
    CycleWritesOne(plan, id, w, x);
    if steps' != steps {
      assert forall j: nat :: HasReceipt(steps, id, j) ==> HasReceipt(steps', id, j);
      forall k | k in steps' && k.publication == id
        ensures k.index < |plan| && !LacksParent(plan, id, steps', k.index) && !LacksSource(plan, id, steps', k.index)
      {
        if k !in steps {
          StepIsCalledExactly(plan, id, steps, k.index, x.adRefs);
        }
        NeedsStayMet(plan, id, steps, steps', k.index);
      }
    }
  }

  lemma EventStaysGrounded(plan: Plan, id: Id, w: World, e: Event)
    requires Grounded(plan, id, w)
    ensures Grounded(plan, id, After(plan, id, w, e))
  {
    if e.WorkerCycle? {
      CycleStaysGrounded(plan, id, w, e.cycle);
    } else {
      assert After(plan, id, w, e).tables.steps == w.tables.steps;
    }
  }

  /** In every run from an approval no step is put on record, so none is proposed or sent either, before its
      parent and all it leans on are done with a receipt. */
  lemma {:induction false} NothingIsSentUngrounded(plan: Plan, id: Id, w: World, events: seq<Event>)
    requires Fresh(id, w)
    ensures Grounded(plan, id, RunFrom(plan, id, w, events))
  {
    if events != [] {
      var init, e := events[..|events| - 1], events[|events| - 1];
      NothingIsSentUngrounded(plan, id, w, init);
      EventStaysGrounded(plan, id, RunFrom(plan, id, w, init), e);
    }
  }

  // ---------------------------------------------------------------------------
  // What a publication says of its end
  // ---------------------------------------------------------------------------

  function CodeOf(row: Step): string {
    if row.outcomeCode.Some? && row.outcomeCode.value != "" then row.outcomeCode.value else "step_failed"
  }

  /** The reason is the one for which a publication is halted at a step: its structure or what it leans on
      is missing, it failed or was blocked with that code, or it was done and the registry missed it. */
  predicate StepSays(plan: Plan, id: Id, steps: map<Key, Step>, i: nat, reason: string)
    requires i < |plan|
  {
    var activates := plan[i].kind.ActivateCampaign?;
    || (activates && reason == "structure_incomplete_before_activation")
    || ((LacksParent(plan, id, steps, i) || LacksSource(plan, id, steps, i)) && reason == "package_parent_unconfirmed")
    || (Key(id, i) in steps
        && var row := steps[Key(id, i)];
        match row.state
        case Done =>
          && row.confirmedStateHash.Some? && row.confirmedStateHash.value != ""
          && (activates || (!plan[i].kind.UploadCreative? && HasReceipt(steps, id, i)))
          && reason == (if activates then "package_entity_activation_refresh_missing"
                        else "package_entity_registration_parent_missing")
        case Failed => reason == CodeOf(row)
        case Blocked => reason == CodeOf(row)
        case _ => false)
  }

  /** It has an end exactly when it is halted or completed; and a step it names is the one at its cursor,
      whose row bears out the reason. */
  ghost predicate Explained(plan: Plan, id: Id, t: Tables) {
    && id in t.publications
    && var p := t.publications[id];
    && (p.finishedAt.Some? <==> p.state.PubHalted? || p.state.PubCompleted?)
    && (p.failedStepIndex.Some? ==>
          && p.state.PubHalted? && p.haltReason.Some?
          && p.failedStepIndex.value == p.cursor && 0 <= p.cursor < |plan|
          && StepSays(plan, id, t.steps, p.cursor, p.haltReason.value))
  }

  lemma HaltExplains(plan: Plan, id: Id, w: World, reason: string, failed: Option<int>, now: int)
    requires id in w.tables.publications
    requires failed.Some? ==>
               var i := w.tables.publications[id].cursor;
               failed == Some(i) && 0 <= i < |plan| && StepSays(plan, id, w.tables.steps, i, reason)
    ensures var a := Halt(plan, id, w, reason, failed, now); a.Committed? ==> Explained(plan, id, a.world.tables)
  {
  }

  /** The row that archives a report is the step's, with what was reported and the proposal first made for it;
      and its state is the verdict, save that what failed before and is now blocked stays failed. */
  lemma OutcomeIsArchived(t: Tables, k: Key, p: Template, r: Report, sent: Option<Id>)
    ensures var t' := Persist(t, k, p, r, sent);
            t'.Some? ==>
              && k in t'.value.steps
              && var row, known := t'.value.steps[k], k in t.steps;
              && (row.kind, row.localRef, row.parentLocalRef) ==
                 (if known then (t.steps[k].kind, t.steps[k].localRef, t.steps[k].parentLocalRef)
                  else (p.kind, p.localRef, p.parentLocalRef))
              && (row.createdEntityRef, row.outcomeCode, row.confirmedStateHash) ==
                 (r.createdEntityRef, r.outcomeCode, r.confirmedStateHash)
              && row.proposalId == (if known && t.steps[k].proposalId.Some? then t.steps[k].proposalId else sent)
              && match r.verdict
                 case StepDone => row.state.Done?
                 case StepUnknown => row.state.Unknown?
                 case StepFailed => row.state.Failed?
                 case StepBlocked => if known && t.steps[k].state.Failed? then row.state.Failed? else row.state.Blocked?
  {
    PersistFacts(t, k, p, r, sent);
    var t0 := Open(t, k, p);
    if t0.Some? {
      var running := Record(p, StepState.Running, ProposalOf(t, k, sent));
      var t1 := if PassesThroughRunning(t, k, r) then Upsert(t0.value, k, running) else t0;
      if t1.Some? {
        UpsertFacts(t1.value, k, Outcome(t, k, p, r, sent));
      }
    }
  }

  /** A step that is turned down before anything is proposed for it is blocked or failed with that code, and
      nothing is taken up. */
  lemma DenialIsArchived(w: World, k: Key, p: Template, x: Cycle)
    requires !p.kind.UploadCreative? && x.denial.Some?
    requires k in w.tables.steps ==> w.tables.steps[k].proposalId.None?
    ensures var w' := Send(w, k, p, x);
            w'.Some? ==>
              && w'.value.claims == w.claims && k in w'.value.tables.steps
              && var row := w'.value.tables.steps[k];
              && row.outcomeCode == Some(x.denial.value.code) && row.createdEntityRef.None? && row.proposalId.None?
              && if x.denial.value.blocked && !(k in w.tables.steps && w.tables.steps[k].state.Failed?)
                 then row.state.Blocked? else row.state.Failed?
  {
    OutcomeIsArchived(w.tables, k, p, Heard(w, k, p, x), None);
  }

  /** A step whose execution is over is archived with how that ended, whatever else is reported, and nothing
      is taken up again. */
  lemma EndedIsReadAgain(w: World, k: Key, p: Template, x: Cycle)
    requires !p.kind.UploadCreative? && k in w.tables.steps && w.tables.steps[k].proposalId.Some?
    requires k in w.claims && w.claims[k].status.Ended?
    ensures var w' := Send(w, k, p, x);
            w'.Some? ==>
              && w'.value.claims == w.claims && k in w'.value.tables.steps
              && var row, end := w'.value.tables.steps[k], w.claims[k].status.report;
              && row.outcomeCode == end.outcomeCode && row.createdEntityRef == end.createdEntityRef
              && row.confirmedStateHash == end.confirmedStateHash
              && row.proposalId == w.tables.steps[k].proposalId
  {
    OutcomeIsArchived(w.tables, k, p, Heard(w, k, p, x), Sent(w.tables, k, p, x));
  }

  lemma ConcludeExplains(plan: Plan, id: Id, w: World, i: nat, r: Report, x: Cycle)
    requires id in w.tables.publications && i < |plan| && w.tables.publications[id].cursor == i
    requires Key(id, i) in w.tables.steps
    requires var row := w.tables.steps[Key(id, i)];
             && row.outcomeCode == r.outcomeCode && row.confirmedStateHash == r.confirmedStateHash
             && row.createdEntityRef == r.createdEntityRef
             && match r.verdict
                case StepDone => row.state.Done?
                case StepUnknown => row.state.Unknown?
                case _ => row.state.Failed? || row.state.Blocked?
    ensures var a := Conclude(plan, id, w, i, r, x); a.Committed? ==> Explained(plan, id, a.world.tables)
  {
    if NeedsRegistry(plan[i].kind, r) && x.registryMisses {
      HaltExplains(plan, id, w, RegistryReason(plan[i].kind), Some(i), x.now);
    } else if r.verdict.StepFailed? || r.verdict.StepBlocked? {
      HaltExplains(plan, id, w, if Present(r.outcomeCode) then r.outcomeCode.value else "step_failed", Some(i), x.now);
    }
  }

  lemma StepExplains(plan: Plan, id: Id, w: World, x: Cycle)
    requires id in w.tables.publications
    ensures var a := ExecuteStep(plan, id, w, x); a.Committed? ==> Explained(plan, id, a.world.tables)
  {
    var i := w.tables.publications[id].cursor;
    if 0 <= i < |plan| {
      if Calls(plan, id, w.tables.steps, i, x.adRefs) {
        var k, p := Key(id, i), plan[i];
        var sent := Send(w, k, p, x);
        if sent.Some? {
          OutcomeIsArchived(w.tables, k, p, Heard(w, k, p, x), Sent(w.tables, k, p, x));
          ConcludeExplains(plan, id, sent.value, i, Heard(w, k, p, x), x);
        }
      } else if !StructureReady(plan, id, w.tables.steps, i, x.adRefs) {
        HaltExplains(plan, id, w, "structure_incomplete_before_activation", Some(i), x.now);
      } else {
        ParentIsReadyExactly(plan, id, w.tables.steps, i);
        SourcesAreReadyExactly(plan, id, w.tables.steps, i);
        if OneParent(plan, i) {
          HaltExplains(plan, id, w, "package_parent_unconfirmed", Some(i), x.now);
        }
      }
    }
  }

  lemma SavedExplains(plan: Plan, id: Id, w: World, x: Cycle)
    requires Explained(plan, id, w.tables)
    ensures Explained(plan, id, Saved(plan, id, w, x).tables)
  {
  }

  lemma CycleExplains(plan: Plan, id: Id, w: World, x: Cycle)
    requires Explained(plan, id, w.tables)
    ensures Explained(plan, id, AfterCycle(plan, id, w, x).tables)
  {
    SavedExplains(plan, id, w, x);
    if !x.interrupted && OpenPublication(w.tables, id) && !InGrace(w, id, x.now) {
      if x.preflight.Some? {
        HaltExplains(plan, id, Begin(w), x.preflight.value, None, x.now);
      } else {
        StepExplains(plan, id, Begin(w), x);
      }
    }
  }

  /** In every run from an approval a publication that names a failed step has stopped at it, for the reason
      that its row gives; and it has an end exactly when it is halted or completed. */
  lemma {:induction false} WhatIsSaidIsSo(plan: Plan, id: Id, w: World, events: seq<Event>)
    requires Fresh(id, w) && RowsChecked(w.tables)
    ensures Explained(plan, id, RunFrom(plan, id, w, events).tables)
  {
    if events == [] {
      assert PublicationChecks(w.tables.publications[id]);
    } else {
      var init, e := events[..|events| - 1], events[|events| - 1];
      WhatIsSaidIsSo(plan, id, w, init);
      if e.WorkerCycle? {
        CycleExplains(plan, id, RunFrom(plan, id, w, init), e.cycle);
      }
    }
  }

  /** From `p` to `p'`: the cursor stays or moves one on, an end is dated `now`, and one at no step has one of
      the reasons. */
  predicate Dated(p: Publication, p': Publication, now: int, reasons: set<string>) {
    && (p'.cursor == p.cursor || p'.cursor == p.cursor + 1)
    && (p'.state.PubHalted? || p'.state.PubCompleted? ==> p'.finishedAt == Some(now))
    && (p'.state.PubHalted? && p'.failedStepIndex.None? ==> p'.haltReason.Some? && p'.haltReason.value in reasons)
  }

  lemma ConcludeIsDated(plan: Plan, id: Id, w: World, i: nat, r: Report, x: Cycle)
    requires id in w.tables.publications && i < |plan| && w.tables.publications[id].cursor == i
    ensures var a := Conclude(plan, id, w, i, r, x);
            a.Committed? ==>
              && id in a.world.tables.publications
              && Dated(w.tables.publications[id], a.world.tables.publications[id], x.now, {})
  {
  }

  lemma StepIsDated(plan: Plan, id: Id, w: World, x: Cycle)
    requires id in w.tables.publications
    ensures var a := ExecuteStep(plan, id, w, x);
            a.Committed? ==>
              && id in a.world.tables.publications
              && Dated(w.tables.publications[id], a.world.tables.publications[id], x.now, {})
  {
    var i := w.tables.publications[id].cursor;
    if 0 <= i < |plan| && Calls(plan, id, w.tables.steps, i, x.adRefs) {
      var k, p := Key(id, i), plan[i];
      var sent := Send(w, k, p, x);
      if sent.Some? {
        ConcludeIsDated(plan, id, sent.value, i, Heard(w, k, p, x), x);
      }
    }
  }

  /** A cycle that changes a publication leaves its cursor or moves it one on, and an end it comes to is of
      that moment; one that names no step is for the reason found before any step, or an internal error. */
  lemma EndsAreDated(plan: Plan, id: Id, w: World, x: Cycle)
    requires id in w.tables.publications
    ensures var p, t' := w.tables.publications[id], AfterCycle(plan, id, w, x).tables;
            && id in t'.publications
            && (t'.publications[id] == p
                || Dated(p, t'.publications[id], x.now,
                         {"package_publication_internal_error"}
                         + if x.preflight.Some? then {x.preflight.value} else {}))
  {
    var saved := Saved(plan, id, w, x);
    assert saved.tables.publications == w.tables.publications;
    if !x.interrupted && OpenPublication(w.tables, id) && !InGrace(w, id, x.now) && x.preflight.None? {
      StepIsDated(plan, id, Begin(w), x);
    }
  }

  /** Something the owner would see on the platform is done. */
  predicate AnythingVisible(plan: Plan, id: Id, steps: map<Key, Step>) {
    exists j: nat :: j < |plan| && plan[j].kind in {CreateCampaign, CreateAdSet, CreateAd, ActivateCampaign}
      && Key(id, j) in steps && steps[Key(id, j)].state.Done?
  }

  lemma HaltIsPartialExactly(plan: Plan, id: Id, w: World, reason: string, failed: Option<int>, now: int)
    requires id in w.tables.publications
    ensures var a := Halt(plan, id, w, reason, failed, now);
            a.Committed? ==>
              && a.world.tables.steps == w.tables.steps
              && a.world.package == (if w.package.Verifying? || AnythingVisible(plan, id, w.tables.steps)
                                     then P.PartiallyPublished else P.Failed)
  {
    if VisibleDone(plan, id, w.tables.steps) {
      var j :| 0 <= j < |plan| && !plan[j].kind.UploadCreative? && DoneAt(w.tables.steps, id, j);
      assert Key(id, j) in w.tables.steps && plan[j].kind in {CreateCampaign, CreateAdSet, CreateAd, ActivateCampaign};
    }
    if AnythingVisible(plan, id, w.tables.steps) {
      var j: nat :| j < |plan| && plan[j].kind in {CreateCampaign, CreateAdSet, CreateAd, ActivateCampaign}
                    && Key(id, j) in w.tables.steps && w.tables.steps[Key(id, j)].state.Done?;
      assert DoneAt(w.tables.steps, id, j);
    }
  }

  lemma ConcludeIsPartialExactly(plan: Plan, id: Id, w: World, i: nat, r: Report, x: Cycle)
    requires id in w.tables.publications && i < |plan|
    ensures var a := Conclude(plan, id, w, i, r, x);
            a.Committed? && id in a.world.tables.publications && a.world.tables.publications[id].state.PubHalted? ==>
              a.world.package == (if w.package.Verifying? || AnythingVisible(plan, id, a.world.tables.steps)
                                  then P.PartiallyPublished else P.Failed)
  {
    if NeedsRegistry(plan[i].kind, r) && x.registryMisses {
      HaltIsPartialExactly(plan, id, w, RegistryReason(plan[i].kind), Some(i), x.now);
    } else if r.verdict.StepFailed? || r.verdict.StepBlocked? {
      HaltIsPartialExactly(plan, id, w, if Present(r.outcomeCode) then r.outcomeCode.value else "step_failed", Some(i),
                           x.now);
    }
  }

  lemma StepIsPartialExactly(plan: Plan, id: Id, w: World, x: Cycle)
    requires id in w.tables.publications
    ensures var a := ExecuteStep(plan, id, w, x);
            a.Committed? && id in a.world.tables.publications && a.world.tables.publications[id].state.PubHalted? ==>
              a.world.package == (if w.package.Verifying? || AnythingVisible(plan, id, a.world.tables.steps)
                                  then P.PartiallyPublished else P.Failed)
  {
    var i := w.tables.publications[id].cursor;
    if 0 <= i < |plan| {
      if Calls(plan, id, w.tables.steps, i, x.adRefs) {
        var k, p := Key(id, i), plan[i];
        var sent := Send(w, k, p, x);
        if sent.Some? {
          ConcludeIsPartialExactly(plan, id, sent.value, i, Heard(w, k, p, x), x);
        }
      } else if !StructureReady(plan, id, w.tables.steps, i, x.adRefs) {
        HaltIsPartialExactly(plan, id, w, "structure_incomplete_before_activation", Some(i), x.now);
      } else {
        HaltIsPartialExactly(plan, id, w, "package_parent_unconfirmed", Some(i), x.now);
      }
    }
  }

  /** A cycle that comes to its end and halts the publication leaves the package partially published if it was
      being verified or something visible is done, and failed if not. */
  lemma HaltsPartiallyExactly(plan: Plan, id: Id, w: World, x: Cycle)
    requires id in w.tables.publications && !w.tables.publications[id].state.PubHalted?
    ensures var a := Execute(plan, id, w, x);
            a.Committed? && id in a.world.tables.publications && a.world.tables.publications[id].state.PubHalted? ==>
              a.world.package == (if w.package.Verifying? || AnythingVisible(plan, id, a.world.tables.steps)
                                  then P.PartiallyPublished else P.Failed)
  {
    if !x.interrupted && OpenPublication(w.tables, id) && !InGrace(w, id, x.now) {
      if x.preflight.Some? {
        HaltIsPartialExactly(plan, id, Begin(w), x.preflight.value, None, x.now);
      } else {
        StepIsPartialExactly(plan, id, Begin(w), x);
      }
    }
  }

  /** The registry of entities is asked about a done step that has a state hash and is an activation or created
      something. */
  predicate Registers(p: Template, row: Step) {
    && row.confirmedStateHash.Some? && row.confirmedStateHash.value != ""
    && (p.kind.ActivateCampaign?
        || (p.kind in {CreateCampaign, CreateAdSet, CreateAd}
            && row.createdEntityRef.Some? && row.createdEntityRef.value != ""))
  }

  lemma CallHaltsExactly(plan: Plan, id: Id, w: World, i: nat, x: Cycle)
    requires id in w.tables.publications && i < |plan|
    ensures var a, k := Call(plan, id, w, i, x), Key(id, i);
            a.Committed? && k in a.world.tables.steps && a.world.tables.steps[k].state.Done? ==>
              && id in a.world.tables.publications
              && (a.world.tables.publications[id].state.PubHalted? <==>
                  x.registryMisses && Registers(plan[i], a.world.tables.steps[k]))
  {
    var k, p := Key(id, i), plan[i];
    var sent := Send(w, k, p, x);
    if sent.Some? {
      OutcomeIsArchived(w.tables, k, p, Heard(w, k, p, x), Sent(w.tables, k, p, x));
      ConcludeWritesNone(plan, id, sent.value, i, Heard(w, k, p, x), x);
    }
  }

  /** A cycle that gets a step done halts the publication if and only if the registry is asked about it and
      misses it. */
  lemma DoneStepsHaltExactly(plan: Plan, id: Id, w: World, x: Cycle)
    requires id in w.tables.publications && !w.tables.publications[id].state.PubHalted?
    ensures var a, i := Execute(plan, id, w, x), w.tables.publications[id].cursor;
            a.Committed? && 0 <= i < |plan| && !DoneAt(w.tables.steps, id, i) && DoneAt(a.world.tables.steps, id, i) ==>
              && id in a.world.tables.publications
              && (a.world.tables.publications[id].state.PubHalted? <==>
                  x.registryMisses && Registers(plan[i], a.world.tables.steps[Key(id, i)]))
  {
    var i := w.tables.publications[id].cursor;
    if !x.interrupted && OpenPublication(w.tables, id) && !InGrace(w, id, x.now) && x.preflight.None? {
      if 0 <= i < |plan| && Calls(plan, id, w.tables.steps, i, x.adRefs) {
        CallHaltsExactly(plan, id, Begin(w), i, x);
      } else {
        StepWritesOne(plan, id, Begin(w), x);
      }
    } else if !x.interrupted && x.preflight.Some? {
      HaltIsPartialExactly(plan, id, Begin(w), x.preflight.value, None, x.now);
    }
  }
}
