/** The worker as it runs: statement by statement on one database session, with the loops over the
    plan, the chokepoint that commits the session on its way, and the rollback to the last commit when
    a write is rejected, the package refuses or the cycle is interrupted. */
module PublicationWorkerInPlace {
  import opened Wrappers
  import opened PublicationSaga
  import opened PublicationWorker
  import P = CampaignPackages

  /** How a cycle ended before any rollback. */
  datatype Ending = Finished | WriteRejected | PackageRefused

  /** The ending and the state that an attempt prescribes. Before the rollback of a failed attempt the
      state does not matter. */
  ghost predicate EndsAs(ending: Ending, w: World, a: Attempt) {
    match a
    case Committed(w') => ending.Finished? && w == w'
    case Rejected => ending.WriteRejected?
    case Broken => ending.PackageRefused?
  }

  function Below(places: set<nat>, n: nat): set<nat> {
    set j | j in places && j < n
  }

  /** Places counted one by one. */
  lemma CountOneMore(places: set<nat>, n: nat)
    ensures |Below(places, n + 1)| == |Below(places, n)| + (if n in places then 1 else 0)
  {
    assert Below(places, n + 1) == if n in places then Below(places, n) + {n} else Below(places, n);
  }

  /** What a commit on the way leaves in the database. */
  ghost function AfterCommit(w: World, k: Key, p: Template, x: Cycle, saved: World): World {
    if Commits(w, k, p, x) then CommitPoint(w, k, p, x) else saved
  }

  class Worker {
    const plan: Plan
    const id: Id
    // What the session sees.
    var tables: Tables
    var package: P.PackageState
    var claims: map<Key, Claim>
    // What was last committed.
    var saved: World

    function Value(): World
      reads this
    {
      World(tables, package, claims)
    }

    constructor (plan: Plan, id: Id, w: World)
      ensures this.plan == plan && this.id == id && Value() == w && saved == w
    {
      this.plan, this.id, tables, package, claims, saved := plan, id, w.tables, w.package, w.claims, w;
    }

    method Commit()
      modifies this`saved
      ensures saved == Value()
    {
      saved := World(tables, package, claims);
    }

    method Rollback()
      modifies this`tables, this`package, this`claims
      ensures Value() == saved
    {
      tables, package, claims := saved.tables, saved.package, saved.claims;
    }

    // -------------------------------------------------------------------------
    // Loops over the plan
    // -------------------------------------------------------------------------

    method CountAdsDone(adRefs: set<string>) returns (n: nat)
      ensures n == |AdsDone(plan, id, tables.steps, adRefs)|
    {
      n := 0;
      ghost var ads := AdsDone(plan, id, tables.steps, adRefs);
      for i := 0 to |plan|
        invariant n == |Below(ads, i)|
      {
        if plan[i].localRef in adRefs && DoneAt(tables.steps, id, i) {
          n := n + 1;
        }
        CountOneMore(ads, i);
      }
      assert Below(ads, |plan|) == ads;
    }

    method CountVisibleDone() returns (n: nat)
      ensures n == |set j: nat | j < |plan| && !plan[j].kind.UploadCreative? && DoneAt(tables.steps, id, j)|
      ensures n > 0 <==> VisibleDone(plan, id, tables.steps)
    {
      n := 0;
      ghost var visible := set j: nat | j < |plan| && !plan[j].kind.UploadCreative? && DoneAt(tables.steps, id, j);
      for i := 0 to |plan|
        invariant n == |Below(visible, i)|
      {
        if !plan[i].kind.UploadCreative? && DoneAt(tables.steps, id, i) {
          n := n + 1;
        }
        CountOneMore(visible, i);
      }
      assert Below(visible, |plan|) == visible;
      if VisibleDone(plan, id, tables.steps) {
        ghost var j :| 0 <= j < |plan| && !plan[j].kind.UploadCreative? && DoneAt(tables.steps, id, j);
        assert j in visible;
      }
      if n > 0 {
        ghost var j :| j in visible;
      }
    }

    /** The one step before `i` that creates its parent, if there is exactly one. */
    method FindParent(i: nat) returns (parent: Option<nat>)
      requires i < |plan| && plan[i].parentLocalRef.Some?
      ensures parent.Some? <==> OneParent(plan, i)
      ensures parent.Some? ==> parent.value < i && IsParent(plan, i, parent.value)
    {
      var candidates: seq<nat> := [];
      for j := 0 to i
        invariant forall a :: 0 <= a < |candidates| ==> candidates[a] < j && IsParent(plan, i, candidates[a])
        invariant forall m: nat :: m < j && IsParent(plan, i, m) ==> m in candidates
        invariant forall a, b :: 0 <= a < b < |candidates| ==> candidates[a] < candidates[b]
      {
        if plan[j].localRef == plan[i].parentLocalRef.value {
          candidates := candidates + [j];
        }
      }
      if |candidates| != 1 {
        if |candidates| > 1 {
          assert IsParent(plan, i, candidates[0]) && IsParent(plan, i, candidates[1]);
        }
        return None;
      }
      assert forall m: nat :: m < i && IsParent(plan, i, m) ==> m == candidates[0];
      assert IsParent(plan, i, candidates[0]);
      return Some(candidates[0]);
    }

    method FindByLocalRef(localRef: string) returns (index: Option<nat>)
      ensures index.Some? ==> index.value < |plan| && FirstWith(plan, localRef, index.value)
      ensures index.None? ==> forall j :: 0 <= j < |plan| ==> plan[j].localRef != localRef
    {
      for j := 0 to |plan|
        invariant forall m :: 0 <= m < j ==> plan[m].localRef != localRef
      {
        if plan[j].localRef == localRef {
          return Some(j);
        }
      }
      return None;
    }

    /** Every image the step depends on was uploaded and left its handle. */
    method ResolveSources(i: nat) returns (ready: bool)
      requires i < |plan|
      ensures ready == SourcesReady(plan, id, tables.steps, i)
    {
      var refs := plan[i].dependsOn;
      for n := 0 to |refs|
        invariant forall m :: 0 <= m < n ==>
                    exists j :: 0 <= j < |plan| && FirstWith(plan, refs[m], j) && ReceiptAt(tables.steps, id, j)
      {
        var index := FindByLocalRef(refs[n]);
        if index.None? || !ReceiptAt(tables.steps, id, index.value) {
          assert refs[n] in plan[i].dependsOn;
          return false;
        }
      }
      return true;
    }

    // -------------------------------------------------------------------------
    // Writes
    // -------------------------------------------------------------------------

    method Issue(e: Statement) returns (ok: bool)
      modifies this`tables
      ensures var t := Write(old(tables), e);
              ok == t.Some? && tables == if ok then t.value else old(tables)
    {
      ok := Accepts(tables, e);
      if ok {
        tables := Apply(tables, e);
      }
    }

    method UpsertRow(k: Key, s: Step) returns (ok: bool)
      modifies this`tables
      ensures var t := Upsert(old(tables), k, s);
              ok == t.Some? && tables == if ok then t.value else old(tables)
    {
      if k in tables.steps {
        var row := tables.steps[k];
        ok := Issue(UpdateStep(k, s.(
          kind := row.kind, localRef := row.localRef, parentLocalRef := row.parentLocalRef)));
      } else {
        ok := Issue(InsertStep(k, s));
      }
    }

    method AdvanceRow(cursor: int, state: PublicationState, haltReason: Option<string>,
                      failedStepIndex: Option<int>, finishedAt: Option<int>) returns (ok: bool)
      requires id in tables.publications
      modifies this`tables
      ensures var t := Advance(old(tables), id, cursor, state, haltReason, failedStepIndex, finishedAt);
              ok == t.Some? && tables == if ok then t.value else old(tables)
    {
      var row := tables.publications[id];
      ok := Issue(UpdatePublication(id, row.(
        cursor := cursor, state := state, haltReason := haltReason, failedStepIndex := failedStepIndex,
        finishedAt := finishedAt)));
    }

    method OpenRow(k: Key, p: Template) returns (ok: bool)
      modifies this`tables
      ensures var t := Open(old(tables), k, p);
              ok == t.Some? && tables == if ok then t.value else old(tables)
    {
      ok := true;
      if k !in tables.steps {
        ok := UpsertRow(k, Record(p, Pending, None));
      }
    }

    /** On top of the opened row; `before` are the tables without it. */
    method PersistOutcome(i: nat, current: StepState, known: Option<Id>, r: Report, sent: Option<Id>,
                          ghost before: Tables)
      returns (ok: bool)
      requires i < |plan| && Open(before, Key(id, i), plan[i]) == Some(tables)
      requires current == CurrentState(before, Key(id, i)) && known == KnownProposal(before, Key(id, i))
      modifies this`tables
      ensures var t := Persist(before, Key(id, i), plan[i], r, sent);
              ok == t.Some? && (ok ==> tables == t.value)
    {
      var k, p := Key(id, i), plan[i];
      var proposal := if known.Some? then known else sent;
      var last := Step(p.kind, p.localRef, p.parentLocalRef, Target(current, r.verdict), r.createdEntityRef,
                       proposal, None, r.outcomeCode, r.confirmedStateHash);
      ok := true;
      if (r.verdict.StepDone? || r.verdict.StepUnknown?) && !current.Unknown? {
        ok := UpsertRow(k, Record(p, StepState.Running, proposal));
      }
      if ok {
        ok := UpsertRow(k, last);
      }
    }

    // -------------------------------------------------------------------------
    // The step executor
    // -------------------------------------------------------------------------

    /** The chokepoint takes up the execution of a proposal. Of a new one it commits the session once its
        gates are passed, before it calls the platform, and when the platform confirmed the write; of a
        known one only that confirmation. Then it records how the call went. */
    method RunChokepoint(k: Key, proposalId: Id, isNew: bool, x: Cycle)
      modifies this`claims, this`saved
      ensures claims == old(claims)[k := Claim(proposalId, StatusHeard(x.report))]
      ensures saved == if (if isNew then !x.reach.Uncommitted? else x.reach.Settled? && x.report.verdict.StepDone?)
                       then World(tables, package, old(claims)[k := Claim(proposalId, StatusReached(x))])
                       else old(saved)
    {
      if isNew && !x.reach.Uncommitted? {
        claims := claims[k := Claim(proposalId, Held)];
        Commit();
        if !x.reach.Reserved? {
          claims := claims[k := Claim(proposalId, Called)];
          Commit();
        }
      }
      if x.reach.Settled? && x.report.verdict.StepDone? {
        claims := claims[k := Claim(proposalId, Ended(x.report))];
        Commit();
      }
      claims := claims[k := Claim(proposalId, StatusHeard(x.report))];
    }

    /** The executor's report with the step's proposal, or nothing if no approval of it is taken or the
        execution meets an earlier one's idempotency key. */
    method ExecuteStepOf(i: nat, known: Option<Id>, x: Cycle, ghost before: Tables)
      returns (report: Option<Report>, sent: Option<Id>)
      requires i < |plan| && Open(before, Key(id, i), plan[i]) == Some(tables)
      requires known == KnownProposal(before, Key(id, i))
      modifies this`claims, this`saved
      ensures var k, p := Key(id, i), plan[i];
              var w := World(before, package, old(claims));
              && saved == AfterCommit(w, k, p, x, old(saved))
              && (report.None? <==> TurnsDown(w, k, p, x))
              && (report.Some? ==>
                    && report.value == Heard(w, k, p, x) && sent == Sent(before, k, p, x)
                    && claims == ClaimsHeard(w, k, p, x))
    {
      var k := Key(id, i);
      if plan[i].kind.UploadCreative? {
        return Some(x.report), None;
      }
      if known.Some? {
        if IsOver(claims, k) {
          return Some(claims[k].status.report), known;
        }
        RunChokepoint(k, known.value, false, x);
        return Some(x.report), known;
      }
      if x.denial.Some? {
        var verdict := if x.denial.value.blocked then StepBlocked else StepFailed;
        return Some(Report(verdict, None, Some(x.denial.value.code), None)), None;
      }
      if !Authorizes(tables, k, x) || k in claims {
        return None, None;
      }
      RunChokepoint(k, x.proposalId, true, x);
      return Some(x.report), Some(x.proposalId);
    }

    // -------------------------------------------------------------------------
    // Endings
    // -------------------------------------------------------------------------

    method HaltHere(reason: string, failed: Option<int>, now: int) returns (ending: Ending)
      requires id in tables.publications
      modifies this`tables, this`package
      ensures EndsAs(ending, Value(), Halt(plan, id, old(Value()), reason, failed, now))
    {
      var ok := AdvanceRow(tables.publications[id].cursor, PubHalted, Some(reason), failed, Some(now));
      if !ok {
        return WriteRejected;
      }
      var created := CountVisibleDone();
      if !package.Publishing? && !package.Verifying? {
        return PackageRefused;
      }
      if created > 0 || package.Verifying? {
        package := P.PartiallyPublished;
      } else {
        package := P.Failed;
      }
      return Finished;
    }

    method ProceedFrom(i: nat, now: int) returns (ending: Ending)
      requires id in tables.publications
      modifies this`tables, this`package
      ensures EndsAs(ending, Value(), Proceed(plan, id, old(Value()), i, now))
    {
      var last := i + 1 >= |plan|;
      var ok := AdvanceRow(i + 1, if last then PubCompleted else PubRunning, None, None,
                           if last then Some(now) else None);
      if !ok {
        return WriteRejected;
      }
      if last {
        if !package.Publishing? && !package.Verifying? {
          return PackageRefused;
        }
        package := P.Published;
      }
      return Finished;
    }

    method StayHere() returns (ending: Ending)
      requires id in tables.publications
      modifies this`tables, this`package
      ensures EndsAs(ending, Value(), Stay(id, old(Value())))
    {
      var ok := AdvanceRow(tables.publications[id].cursor, PubRunning, None, None, None);
      if !ok {
        return WriteRejected;
      }
      if package.Publishing? {
        package := P.Verifying;
      }
      return Finished;
    }

    method ConcludeStep(i: nat, r: Report, x: Cycle) returns (ending: Ending)
      requires id in tables.publications && i < |plan|
      modifies this`tables, this`package
      ensures EndsAs(ending, Value(), Conclude(plan, id, old(Value()), i, r, x))
    {
      if NeedsRegistry(plan[i].kind, r) && x.registryMisses {
        ending := HaltHere(RegistryReason(plan[i].kind), Some(i), x.now);
      } else if r.verdict.StepDone? {
        ending := ProceedFrom(i, x.now);
      } else if r.verdict.StepUnknown? {
        ending := StayHere();
      } else {
        ending := HaltHere(if Present(r.outcomeCode) then r.outcomeCode.value else "step_failed", Some(i), x.now);
      }
    }

    method CallStep(i: nat, x: Cycle) returns (ending: Ending)
      requires id in tables.publications && i < |plan|
      modifies this
      ensures EndsAs(ending, Value(), Call(plan, id, old(Value()), i, x))
      ensures saved == AfterCommit(old(Value()), Key(id, i), plan[i], x, old(saved))
    {
      var k, p := Key(id, i), plan[i];
      ghost var before := tables;
      var current := if k in tables.steps then tables.steps[k].state else Pending;
      var known := if k in tables.steps then tables.steps[k].proposalId else None;
      var ok := OpenRow(k, p);
      if !ok {
        return WriteRejected;
      }
      var report, sent := ExecuteStepOf(i, known, x, before);
      if report.None? {
        return WriteRejected;
      }
      ok := PersistOutcome(i, current, known, report.value, sent, before);
      if !ok {
        return WriteRejected;
      }
      ending := ConcludeStep(i, report.value, x);
    }

    method RunStep(x: Cycle) returns (ending: Ending)
      requires id in tables.publications
      modifies this
      ensures EndsAs(ending, Value(), ExecuteStep(plan, id, old(Value()), x))
      ensures var w, i := old(Value()), old(tables).publications[id].cursor;
              saved == if 0 <= i < |plan| && Calls(plan, id, w.tables.steps, i, x.adRefs)
                       then AfterCommit(w, Key(id, i), plan[i], x, old(saved)) else old(saved)
    {
      var i := tables.publications[id].cursor;
      if !(0 <= i < |plan|) {
        return WriteRejected;
      }
      var p := plan[i];
      if p.kind.ActivateCampaign? {
        var done := CountAdsDone(x.adRefs);
        if p.expectedDone.None? || p.expectedDone.value <= 0 || done != p.expectedDone.value {
          ending := HaltHere("structure_incomplete_before_activation", Some(i), x.now);
          return;
        }
      }
      var confirmed := true;
      if p.parentLocalRef.Some? {
        var parent := FindParent(i);
        if parent.None? {
          return PackageRefused;
        }
        confirmed := ReceiptAt(tables.steps, id, parent.value);
        assert confirmed == ParentReady(plan, id, tables.steps, i);
      }
      if confirmed {
        confirmed := ResolveSources(i);
      }
      if !confirmed {
        ending := HaltHere("package_parent_unconfirmed", Some(i), x.now);
        return;
      }
      ending := CallStep(i, x);
    }

    method RunUntilEnd(x: Cycle) returns (ending: Ending)
      requires saved == Value()
      modifies this
      ensures EndsAs(ending, Value(), ExecuteToEnd(plan, id, old(Value()), x))
      ensures saved == Saved(plan, id, old(Value()), x)
    {
      if id !in tables.publications {
        return Finished;
      }
      var pub := tables.publications[id];
      if pub.state.PubCompleted? || pub.state.PubHalted? {
        return Finished;
      }
      if package.Approved? {
        if x.now < pub.startedAt + UNDO_GRACE {
          return Finished;
        }
        package := P.Publishing;
      }
      if x.preflight.Some? {
        ending := HaltHere(x.preflight.value, None, x.now);
      } else {
        ending := RunStep(x);
      }
    }

    /** One cycle on a session with nothing uncommitted. When it ends, what it wrote is committed; when
        it does not, the session goes back to the chokepoint's last commit, or to where it began if
        there was none, and the publication is halted if it was the package that refused. */
    method RunCycle(x: Cycle)
      requires saved == Value()
      modifies this
      ensures Value() == AfterCycle(plan, id, old(Value()), x) && saved == Value()
    {
      var ending := RunUntilEnd(x);
      if ending.Finished? && !x.interrupted {
        Commit();
        return;
      }
      Rollback();
      if ending.PackageRefused? && !x.interrupted && id in tables.publications {
        var _ := AdvanceRow(tables.publications[id].cursor, PubHalted, Some("package_publication_internal_error"),
                            None, Some(x.now));
        Commit();
      }
    }
  }
}
