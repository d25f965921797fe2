/** A package while its publication runs: the grace in which it can be undone, and that every state the
    worker puts it in is one its own table takes. */
module PublicationLifecycle {
  import opened Wrappers
  import opened PublicationSaga
  import opened PublicationWorker
  import opened PublicationRuns
  import opened PublicationProgress
  import P = CampaignPackages
  import SC = SignedContext

  // ---------------------------------------------------------------------------
  // The grace
  // ---------------------------------------------------------------------------

  /** For 45 seconds after an approval a cycle leaves everything as it is. */
  lemma GraceHolds(plan: Plan, id: Id, w: World, x: Cycle)
    requires w.package.Approved? && id in w.tables.publications
    requires x.now < w.tables.publications[id].startedAt + 45
    ensures AfterCycle(plan, id, w, x) == w
  {
  }

  /** Undoing in that time invalidates the package and halts its publication, with nothing else changed;
      from then on undoing changes nothing, nor does it of a package in any other state. */
  lemma UndoneInGraceExactly(plan: Plan, id: Id, w: World, now: int)
    requires id in w.tables.publications && PublicationChecks(w.tables.publications[id])
    requires OpenPublication(w.tables, id) && w.tables.publications[id].startedAt <= now
    ensures var pub, w' := w.tables.publications[id], After(plan, id, w, Cancel(now));
            if w.package.Approved? && now < pub.startedAt + 45 then
              && w'.package.Invalidated? && w'.claims == w.claims && w'.tables.steps == w.tables.steps
              && w'.tables.publications == w.tables.publications[id := pub.(
                   state := PubHalted, haltReason := Some("cancelled_by_owner"), failedStepIndex := None,
                   finishedAt := Some(now))]
            else w' == w
  {
  }

  /** A publication resumes if and only if it was halted and its package is partially published or being
      verified, or it is running under a package being verified: it then runs, with nothing said of an end,
      and a partially published package is being published again. Otherwise resuming changes nothing. */
  lemma ResumesExactly(plan: Plan, id: Id, w: World)
    requires id in w.tables.publications && PublicationChecks(w.tables.publications[id])
    ensures var pub, w' := w.tables.publications[id], After(plan, id, w, Resume);
            if (w.package.PartiallyPublished? && pub.state.PubHalted?)
               || (w.package.Verifying? && (pub.state.PubHalted? || pub.state.PubRunning?)) then
              && w'.claims == w.claims && w'.tables.steps == w.tables.steps
              && w'.package == (if w.package.PartiallyPublished? then P.Publishing else w.package)
              && w'.tables.publications == w.tables.publications[id := pub.(
                   state := PubRunning, haltReason := None, failedStepIndex := None, finishedAt := None)]
            else w' == w
  {
  }

  /** No step of the publication is on record and none was taken up. */
  ghost predicate NothingSent(id: Id, w: World) {
    && (forall k :: k in w.tables.steps ==> k.publication != id)
    && (forall k :: k in w.claims ==> k.publication != id)
  }

  /** Not begun: approved, undone or edited. */
  ghost predicate Untouched(plan: Plan, id: Id, w: World, startedAt: int) {
    && Orderly(plan, id, w) && NothingSent(id, w) && (w.package.Approved? || w.package.Invalidated?)
    && w.tables.publications[id].cursor == 0 && w.tables.publications[id].startedAt == startedAt
  }

  /** A cycle gets past the checks although the package was invalidated, and what it does for the step
      outlives it. */
  predicate ActsOnInvalidated(plan: Plan, id: Id, w: World, e: Event) {
    && e.WorkerCycle? && w.package.Invalidated? && CallsExecutor(plan, id, w, e.cycle)
    && (CommitsOnTheWay(plan, id, w, e.cycle) || (!e.cycle.interrupted && Concludes(plan, id, w, e.cycle)))
  }

  predicate InTime(e: Event, startedAt: int) {
    e.WorkerCycle? ==> e.cycle.now < startedAt + 45
  }

  lemma InvalidatedCallActs(plan: Plan, id: Id, w: World, startedAt: int, x: Cycle)
    requires Untouched(plan, id, w, startedAt) && w.package.Invalidated? && CallsExecutor(plan, id, w, x)
    ensures NothingSent(id, AfterCycle(plan, id, w, x)) <==> !ActsOnInvalidated(plan, id, w, WorkerCycle(x))
  {
    var k := Key(id, 0);
    assert !Stuck(id, w);
    if !x.interrupted {
      CallCommits(plan, id, w, x);
    }
    if Execute(plan, id, w, x).Committed? {
      CallMoves(plan, id, w, x);
      SendFacts(w, k, plan[0], x);
      assert k in AfterCycle(plan, id, w, x).tables.steps;
    } else {
      CutMoves(plan, id, w, x);
      if CommitsOnTheWay(plan, id, w, x) {
        assert k in AfterCycle(plan, id, w, x).claims;
      }
    }
  }

  /** What the table keeps of a publication that has not begun. */
  predicate HasNotBegun(id: Id, w: World, startedAt: int) {
    && w.package.Invalidated? && id in w.tables.publications && w.tables.publications[id].cursor == 0
    && w.tables.publications[id].startedAt == startedAt
  }

  lemma HaltHasNotBegun(id: Id, w: World, startedAt: int, now: int)
    requires HasNotBegun(id, w, startedAt)
    ensures HasNotBegun(id, AfterInternalError(id, w, now), startedAt)
  {
  }

  lemma UncalledHasNotBegun(plan: Plan, id: Id, w: World, startedAt: int, x: Cycle)
    requires HasNotBegun(id, w, startedAt) && !CallsExecutor(plan, id, w, x)
    ensures HasNotBegun(id, AfterCycle(plan, id, w, x), startedAt)
  {
    HaltHasNotBegun(id, w, startedAt, x.now);
  }

  lemma UnsentHasNotBegun(plan: Plan, id: Id, w: World, startedAt: int, x: Cycle)
    requires Untouched(plan, id, w, startedAt) && w.package.Invalidated?
    requires NothingSent(id, AfterCycle(plan, id, w, x))
    ensures HasNotBegun(id, AfterCycle(plan, id, w, x), startedAt)
  {
    if !CallsExecutor(plan, id, w, x) {
      UncalledHasNotBegun(plan, id, w, startedAt, x);
    } else if Execute(plan, id, w, x).Committed? {
      CallMoves(plan, id, w, x);
      SendFacts(w, Key(id, 0), plan[0], x);
    } else {
      CutMoves(plan, id, w, x);
      HaltHasNotBegun(id, Saved(plan, id, w, x), startedAt, x.now);
    }
  }

  lemma UnsentStaysUntouched(plan: Plan, id: Id, w: World, startedAt: int, x: Cycle)
    requires Untouched(plan, id, w, startedAt) && x.now < startedAt + 45
    requires NothingSent(id, AfterCycle(plan, id, w, x))
    ensures Untouched(plan, id, AfterCycle(plan, id, w, x), startedAt)
  {
    EventIsChecked(plan, id, w, WorkerCycle(x));
    CycleKeeps(plan, id, w, x);
    if w.package.Approved? {
      GraceHolds(plan, id, w, x);
    } else {
      UnsentHasNotBegun(plan, id, w, startedAt, x);
    }
  }

  /** In the grace, one event sends something precisely when it acts on an invalidated package. */
  lemma GraceStep(plan: Plan, id: Id, w: World, startedAt: int, e: Event)
    requires Untouched(plan, id, w, startedAt) && InTime(e, startedAt)
    ensures var w' := After(plan, id, w, e);
            && (NothingSent(id, w') <==> !ActsOnInvalidated(plan, id, w, e))
            && (NothingSent(id, w') ==> Untouched(plan, id, w', startedAt))
  {
    if !e.WorkerCycle? {
      OtherEventsKeep(plan, id, w, e);
      EventIsChecked(plan, id, w, e);
    } else {
      if w.package.Approved? {
        GraceHolds(plan, id, w, e.cycle);
      } else if CallsExecutor(plan, id, w, e.cycle) {
        InvalidatedCallActs(plan, id, w, startedAt, e.cycle);
      } else {
        CycleMoves(plan, id, w, e.cycle);
      }
      if NothingSent(id, AfterCycle(plan, id, w, e.cycle)) {
        UnsentStaysUntouched(plan, id, w, startedAt, e.cycle);
      }
    }
  }

  lemma UptoIsNext(plan: Plan, id: Id, w: World, events: seq<Event>, n: nat)
    requires n < |events|
    ensures RunFrom(plan, id, w, events[..n + 1]) == After(plan, id, RunFrom(plan, id, w, events[..n]), events[n])
  {
    assert events[..n + 1][..n] == events[..n];
  }

  lemma FreshIsUntouched(plan: Plan, id: Id, w: World)
    requires Signed(plan) && AllWellFormed(plan) && Fresh(id, w) && RowsChecked(w.tables)
    ensures Untouched(plan, id, w, w.tables.publications[id].startedAt)
  {
    FreshIsKept(plan, id, w);
  }

  /** The `m`th event of a run is such a cycle. */
  predicate ActsAt(plan: Plan, id: Id, w: World, events: seq<Event>, m: int)
    requires 0 <= m < |events|
  {
    ActsOnInvalidated(plan, id, RunFrom(plan, id, w, events[..m]), events[m])
  }

  lemma {:induction false} FirstActing(plan: Plan, id: Id, w: World, events: seq<Event>, n: nat) returns (first: nat)
    requires n < |events| && ActsAt(plan, id, w, events, n)
    ensures first <= n && ActsAt(plan, id, w, events, first)
    ensures forall m :: 0 <= m < first ==> !ActsAt(plan, id, w, events, m)
  {
    if m: nat :| m < n && ActsAt(plan, id, w, events, m) {
      first := FirstActing(plan, id, w, events, m);
    } else {
      first := n;
    }
  }

  lemma NextIsUntouched(plan: Plan, id: Id, w: World, startedAt: int, events: seq<Event>, n: nat)
    requires n < |events| && InTime(events[n], startedAt)
    requires Untouched(plan, id, RunFrom(plan, id, w, events[..n]), startedAt)
    ensures var next := RunFrom(plan, id, w, events[..n + 1]);
            && (NothingSent(id, next) <==> !ActsAt(plan, id, w, events, n))
            && (NothingSent(id, next) ==> Untouched(plan, id, next, startedAt))
  {
    UptoIsNext(plan, id, w, events, n);
    GraceStep(plan, id, RunFrom(plan, id, w, events[..n]), startedAt, events[n]);
  }

  lemma {:induction false} UntouchedUpto(plan: Plan, id: Id, w: World, startedAt: int, events: seq<Event>, n: nat)
    requires Untouched(plan, id, w, startedAt) && n <= |events|
    requires forall e :: e in events ==> InTime(e, startedAt)
    requires forall m :: 0 <= m < n ==> !ActsAt(plan, id, w, events, m)
    ensures Untouched(plan, id, RunFrom(plan, id, w, events[..n]), startedAt)
  {
    if n > 0 {
      UntouchedUpto(plan, id, w, startedAt, events, n - 1);
      NextIsUntouched(plan, id, w, startedAt, events, n - 1);
    } else {
      assert events[..0] == [];
    }
  }

  /** From an approval, as long as cycles come within its 45 seconds, nothing of the publication is on
      record or taken up at any moment if and only if no cycle acts on the package once it is invalidated:
      which a cycle does of one that was edited into what it was, as the checks compare its content and
      not its state. */
  lemma NothingIsSentInGraceExactly(plan: Plan, id: Id, w: World, events: seq<Event>)
    requires Signed(plan) && AllWellFormed(plan) && Fresh(id, w) && RowsChecked(w.tables)
    requires forall e :: e in events ==> InTime(e, w.tables.publications[id].startedAt)
    ensures (forall n :: 0 <= n <= |events| ==> NothingSent(id, RunFrom(plan, id, w, events[..n])))
       <==> (forall m :: 0 <= m < |events| ==> !ActsAt(plan, id, w, events, m))
  {
    var startedAt := w.tables.publications[id].startedAt;
    FreshIsUntouched(plan, id, w);
    if forall m :: 0 <= m < |events| ==> !ActsAt(plan, id, w, events, m) {
      forall n | 0 <= n <= |events| ensures NothingSent(id, RunFrom(plan, id, w, events[..n])) {
        UntouchedUpto(plan, id, w, startedAt, events, n);
      }
    }
    if m :| 0 <= m < |events| && ActsAt(plan, id, w, events, m) {
      var first := FirstActing(plan, id, w, events, m);
      UntouchedUpto(plan, id, w, startedAt, events, first);
      NextIsUntouched(plan, id, w, startedAt, events, first);
      assert !NothingSent(id, RunFrom(plan, id, w, events[..first + 1]));
    }
  }

  /** As long as nobody edits it, the package waits, or was undone for good. */
  ghost predicate Waits(plan: Plan, id: Id, w: World, startedAt: int) {
    && Untouched(plan, id, w, startedAt)
    && (w.package.Invalidated? ==> w.tables.publications[id].state.PubHalted?)
  }

  lemma WaitingStep(plan: Plan, id: Id, w: World, startedAt: int, e: Event)
    requires Waits(plan, id, w, startedAt) && InTime(e, startedAt) && !e.EditCreative?
    ensures Waits(plan, id, After(plan, id, w, e), startedAt)
  {
    if e.WorkerCycle? {
      if w.package.Approved? {
        GraceHolds(plan, id, w, e.cycle);
      }
    } else {
      OtherEventsKeep(plan, id, w, e);
      EventIsChecked(plan, id, w, e);
    }
  }

  /** Without such an edit the grace is kept in every run: before a cycle 45 seconds or more after the
      approval, nothing of the publication is on record or taken up. */
  lemma {:induction false} NothingIsSentInGrace(plan: Plan, id: Id, w: World, events: seq<Event>)
    requires Signed(plan) && AllWellFormed(plan) && Fresh(id, w) && RowsChecked(w.tables)
    requires forall e :: e in events ==> InTime(e, w.tables.publications[id].startedAt) && !e.EditCreative?
    ensures Waits(plan, id, RunFrom(plan, id, w, events), w.tables.publications[id].startedAt)
  {
    FreshIsUntouched(plan, id, w);
    if events != [] {
      var init, last := events[..|events| - 1], events[|events| - 1];
      NothingIsSentInGrace(plan, id, w, init);
      WaitingStep(plan, id, RunFrom(plan, id, w, init), w.tables.publications[id].startedAt, last);
    }
  }

  /** A cycle within the grace, of an approval that would be signed. */
  function EarlyCycle(kind: Kind, adRefs: set<string>, start: Publication): Cycle {
    HelpfulCycle(kind, adRefs, start).(now := start.startedAt)
  }

  lemma EarlyIsAuthorized(kind: Kind, adRefs: set<string>, start: Publication)
    ensures AuthorizedBy(start.authorizationId, EarlyCycle(kind, adRefs, start))
  {
    var x := EarlyCycle(kind, adRefs, start);
    assert |x.signing.authorizationId| != |start.authorizationId|;
    SC.StepApprovalIsTakenExactly(
      x.signing.context, SC.WholeRow, x.signing.authorizationId, x.proposalId, start.authorizationId,
      x.signing.diffHash, x.now, x.signing.expiresAt);
  }

  lemma EarlyIsSent(plan: Plan, adRefs: set<string>, id: Id, w: World)
    requires Derived(plan, adRefs) && Fresh(id, w) && RowsChecked(w.tables)
    ensures var x := EarlyCycle(plan[0].kind, adRefs, w.tables.publications[id]);
            var edited := w.(package := P.Invalidated);
            && Kept(plan, id, edited) && CallsExecutor(plan, id, edited, x) && Concludes(plan, id, edited, x)
            && Heard(edited, Key(id, 0), plan[0], x).verdict.StepDone?
  {
    FreshIsKept(plan, id, w);
    EarlyIsAuthorized(plan[0].kind, adRefs, w.tables.publications[id]);
    FreshHasProgressed(plan, id, w);
    GoodStepIsCalled(plan, adRefs, id, w, 0, w.tables.publications[id]);
  }

  /** Such a run: at the very moment of an approval the package is edited into what it was, and in the next
      cycle, within the grace, its first step is carried out, although the package is invalidated and can
      no longer be undone. */
  lemma EditedInGraceIsSent(plan: Plan, adRefs: set<string>, id: Id, w: World)
    requires Derived(plan, adRefs) && Fresh(id, w) && RowsChecked(w.tables)
    ensures var x := EarlyCycle(plan[0].kind, adRefs, w.tables.publications[id]);
            var w' := After(plan, id, After(plan, id, w, EditCreative), WorkerCycle(x));
            && x.now == w.tables.publications[id].startedAt && w'.package.Invalidated?
            && DoneAt(w'.tables.steps, id, 0) && CursorOf(id, w') == 1
            && After(plan, id, w', Cancel(x.now)) == w'
  {
    var x := EarlyCycle(plan[0].kind, adRefs, w.tables.publications[id]);
    var edited := w.(package := P.Invalidated);
    EarlyIsSent(plan, adRefs, id, w);
    CallCommits(plan, id, edited, x);
    CallIsExecuted(plan, id, edited, x);
    SentAtStep(plan, id, edited, 0, x);
    assert After(plan, id, w, EditCreative) == edited;
  }

  // ---------------------------------------------------------------------------
  // The package's moves
  // ---------------------------------------------------------------------------

  /** Updates, one after the other, that the package table takes whatever else it holds, and that lead its
      row from where it is to another state. */
  ghost predicate TakesUpdates(t: P.Packages, id: P.Id, updates: seq<P.Package>, to: P.PackageState)
    requires id in t
  {
    if updates == [] then t[id].state == to
    else
      && P.Accepts(t, P.Update(id, updates[0]))
      && TakesUpdates(t[id := updates[0]], id, updates[1..], to)
  }

  /** Stays, or moves as packages do. */
  predicate MovesOnce(from: P.PackageState, to: P.PackageState) {
    from == to || (from in P.Before(to) && !to.Proposed?)
  }

  lemma ConcludeMovesOnce(plan: Plan, id: Id, w: World, i: nat, r: Report, x: Cycle)
    requires id in w.tables.publications && i < |plan|
    ensures var a := Conclude(plan, id, w, i, r, x); a.Committed? ==> MovesOnce(w.package, a.world.package)
  {
  }

  lemma StepMovesOnce(plan: Plan, id: Id, w: World, x: Cycle)
    requires id in w.tables.publications
    ensures var a := ExecuteStep(plan, id, w, x); a.Committed? ==> MovesOnce(w.package, a.world.package)
  {
    var i := w.tables.publications[id].cursor;
    if 0 <= i < |plan| && Calls(plan, id, w.tables.steps, i, x.adRefs) {
      var k, p := Key(id, i), plan[i];
      SendFacts(w, k, p, x);
      var sent := Send(w, k, p, x);
      if sent.Some? {
        ConcludeMovesOnce(plan, id, sent.value, i, Heard(w, k, p, x), x);
      }
    }
  }

  lemma ExecuteMovesOnce(plan: Plan, id: Id, w: World, x: Cycle)
    ensures var a := Execute(plan, id, w, x);
            a.Committed? ==> a.world.package == w.package || MovesOnce(Begin(w).package, a.world.package)
  {
    if x.interrupted || !OpenPublication(w.tables, id) || InGrace(w, id, x.now) {
    } else if x.preflight.None? {
      StepMovesOnce(plan, id, Begin(w), x);
    }
  }

  lemma EventMoves(plan: Plan, id: Id, w: World, e: Event)
    ensures var to := After(plan, id, w, e).package;
            MovesOnce(w.package, to) || (w.package.Approved? && P.Publishing in P.Before(to) && !to.Proposed?)
  {
    if e.WorkerCycle? {
      ExecuteMovesOnce(plan, id, w, e.cycle);
    }
  }

  lemma UpdateIsTaken(t: P.Packages, id: P.Id, to: P.PackageState)
    requires id in t && t[id].state in P.Before(to) && !to.Proposed?
    ensures P.Accepts(t, P.Update(id, t[id].(state := to)))
    ensures TakesUpdates(t, id, [t[id].(state := to)], to)
  {
    var p := t[id].(state := to);
    assert [p][1..] == [];
    assert TakesUpdates(t[id := p], id, [], to);
  }

  /** What a cycle, a resume, an undo or an edit does to the package in any run is nothing, or one or two
      updates that the package table takes. */
  lemma MovesAreTaken(plan: Plan, id: Id, w: World, e: Event, t: P.Packages, packageId: P.Id)
    returns (updates: seq<P.Package>)
    requires packageId in t && t[packageId].state == w.package
    ensures |updates| <= 2 && TakesUpdates(t, packageId, updates, After(plan, id, w, e).package)
  {
    var row, to := t[packageId], After(plan, id, w, e).package;
    EventMoves(plan, id, w, e);
    if to == w.package {
      updates := [];
    } else if MovesOnce(w.package, to) {
      updates := [row.(state := to)];
      UpdateIsTaken(t, packageId, to);
    } else {
      var begun := row.(state := P.Publishing);
      updates := [begun, row.(state := to)];
      UpdateIsTaken(t, packageId, P.Publishing);
      UpdateIsTaken(t[packageId := begun], packageId, to);
      assert updates[1..] == [row.(state := to)] && begun.(state := to) == row.(state := to);
    }
  }
}
