/** How far the publication worker gets: that good cycles complete, that nothing is published without
    the chain of approvals, and exactly when a publication can never move on. */
module PublicationProgress {
  import opened Wrappers
  import opened PublicationSaga
  import opened PublicationWorker
  import opened PublicationRuns
  import P = CampaignPackages
  import SC = SignedContext

  // ---------------------------------------------------------------------------
  // Completion
  // ---------------------------------------------------------------------------

  function Ads(plan: Plan, adRefs: set<string>): set<nat> {
    set j: nat | j < |plan| && plan[j].localRef in adRefs
  }

  /** A plan as it is derived from a package: every parent and every image comes from one earlier step,
      and the activation expects exactly the ads among the steps. */
  ghost predicate Derived(plan: Plan, adRefs: set<string>) {
    && Signed(plan)
    && (forall i :: 0 <= i < |plan| ==> WellFormed(plan[i]) && OneParent(plan, i))
    && (forall i, r :: 0 <= i < |plan| && r in plan[i].dependsOn ==> exists j :: 0 <= j < i && FirstWith(plan, r, j))
    && var last := plan[|plan| - 1];
    && last.localRef !in adRefs && last.expectedDone == Some(|Ads(plan, adRefs)|) && Ads(plan, adRefs) != {}
  }

  /** Nothing stands in the way, the platform confirms the step, and the registry follows. */
  ghost predicate Good(p: Template, adRefs: set<string>, start: Publication, x: Cycle) {
    && x.preflight.None? && x.now >= start.startedAt + UNDO_GRACE && x.adRefs == adRefs
    && x.report.verdict.StepDone? && Storable(p.kind, x.report) && !x.registryMisses
    && x.denial.None? && !x.interrupted
    && (!p.kind.UploadCreative? ==> AuthorizedBy(start.authorizationId, x))
    && (!p.kind.ActivateCampaign? ==> Present(x.report.createdEntityRef))
  }

  /** The steps on record are the first `n`, and all that create something left their receipt. */
  ghost predicate Receipts(plan: Plan, id: Id, steps: map<Key, Step>, n: nat) {
    && (forall j: nat {:trigger Key(id, j)} :: j < n && j < |plan| - 1 ==> ReceiptAt(steps, id, j))
    && (forall k :: k in steps && k.publication == id ==> k.index < n)
  }

  /** What a publication keeps from its approval on. */
  predicate SameStart(p: Publication, q: Publication) {
    p.startedAt == q.startedAt && p.authorizationId == q.authorizationId
  }

  /** `n` steps are done, each with its receipt, and nothing stopped the publication. */
  ghost predicate Progressed(plan: Plan, id: Id, w: World, n: nat, start: Publication) {
    && Kept(plan, id, w) && RowsChecked(w.tables)
    && w.tables.publications[id].cursor == n <= |plan| && SameStart(w.tables.publications[id], start)
    && (n < |plan| ==> OpenPublication(w.tables, id) && InProgress(Begin(w).package))
    && (w.tables.publications[id].state.PubPending? ==> n == 0)
    && Receipts(plan, id, w.tables.steps, n)
  }

  lemma GoodStepIsCalled(plan: Plan, adRefs: set<string>, id: Id, w: World, n: nat, start: Publication)
    requires Derived(plan, adRefs) && Progressed(plan, id, w, n, start) && n < |plan|
    ensures Calls(plan, id, w.tables.steps, n, adRefs)
  {
    var t := w.tables;
    if plan[n].parentLocalRef.Some? {
      var j :| 0 <= j < n && IsParent(plan, n, j);
      assert Key(id, j) in t.steps && ReceiptAt(t.steps, id, j);
    }
    forall r | r in plan[n].dependsOn
      ensures exists j :: 0 <= j < |plan| && FirstWith(plan, r, j) && ReceiptAt(t.steps, id, j)
    {
      var j :| 0 <= j < n && FirstWith(plan, r, j);
      assert Key(id, j) in t.steps && ReceiptAt(t.steps, id, j);
    }
    if plan[n].kind.ActivateCampaign? {
      assert n == |plan| - 1;
      forall j: nat | j < n ensures DoneAt(t.steps, id, j) {
        assert Key(id, j) in t.steps;
      }
      assert AdsDone(plan, id, t.steps, adRefs) == Ads(plan, adRefs);
    }
  }

  lemma ReceiptsGrow(plan: Plan, id: Id, steps: map<Key, Step>, steps': map<Key, Step>, n: nat)
    requires Receipts(plan, id, steps, n) && Key(id, n) in steps' && steps' == steps[Key(id, n) := steps'[Key(id, n)]]
    requires n < |plan| - 1 ==> ReceiptAt(steps', id, n)
    ensures Receipts(plan, id, steps', n + 1)
  {
    forall j: nat | j < n + 1 && j < |plan| - 1 ensures ReceiptAt(steps', id, j) {
      if j < n {
        assert Key(id, j) in steps' && ReceiptAt(steps, id, j);
      }
    }
  }

  lemma GoodReport(plan: Plan, adRefs: set<string>, id: Id, w: World, n: nat, start: Publication, x: Cycle)
    requires Signed(plan) && Progressed(plan, id, w, n, start) && n < |plan| && WellFormed(plan[n])
    requires Good(plan[n], adRefs, start, x)
    ensures var b, k, p := Begin(w), Key(id, n), plan[n];
            var sent := Send(b, k, p, x);
            && Heard(b, k, p, x) == x.report
            && sent.Some? && RowsChecked(sent.value.tables) && sent.value.tables.publications == w.tables.publications
            && sent.value.package == b.package && Receipts(plan, id, sent.value.tables.steps, n + 1)
  {
    var b, k, p := Begin(w), Key(id, n), plan[n];
    assert k !in w.tables.steps;
    SendIsTaken(plan, id, b, n, x);
    SendFacts(b, k, p, x);
    SendIsChecked(b, k, p, x);
    ReceiptsGrow(plan, id, w.tables.steps, Send(b, k, p, x).value.tables.steps, n);
  }

  lemma GoodOutcome(plan: Plan, id: Id, w: World, n: nat, start: Publication, now: int)
    requires n < |plan| && OpenPublication(w.tables, id) && w.tables.publications[id].cursor == n
    requires RowsChecked(w.tables)
    requires SameStart(w.tables.publications[id], start) && start.startedAt <= now && InProgress(w.package)
    requires |plan| >= 3
    requires w.tables.publications[id].state.PubPending? ==> n == 0
    requires Receipts(plan, id, w.tables.steps, n + 1)
    ensures var a := Proceed(plan, id, w, n, now);
            a.Committed? && (Kept(plan, id, a.world) ==> Progressed(plan, id, a.world, n + 1, start))
  {
    AdvanceIsChecked(w.tables, id, n + 1, if n + 1 >= |plan| then PubCompleted else PubRunning, None, None,
                     if n + 1 >= |plan| then Some(now) else None);
  }

  lemma GoodCycle(plan: Plan, adRefs: set<string>, id: Id, w: World, n: nat, start: Publication, e: Event)
    requires Derived(plan, adRefs) && Progressed(plan, id, w, n, start) && n < |plan|
    requires e.WorkerCycle? && Good(plan[n], adRefs, start, e.cycle)
    ensures Progressed(plan, id, After(plan, id, w, e), n + 1, start)
  {
    var b, x := Begin(w), e.cycle;
    GoodStepIsCalled(plan, adRefs, id, w, n, start);
    GoodReport(plan, adRefs, id, w, n, start, x);
    CallIsExecuted(plan, id, w, x);
    GoodOutcome(plan, id, Send(b, Key(id, n), plan[n], x).value, n, start, x.now);
    CycleKeeps(plan, id, w, x);
  }

  lemma FreshHasProgressed(plan: Plan, id: Id, w: World)
    requires Signed(plan) && Fresh(id, w) && RowsChecked(w.tables)
    ensures Progressed(plan, id, w, 0, w.tables.publications[id])
  {
    FreshIsKept(plan, id, w);
  }

  ghost predicate AllGood(plan: Plan, adRefs: set<string>, start: Publication, events: seq<Event>) {
    && |events| <= |plan|
    && forall n :: 0 <= n < |events| ==> events[n].WorkerCycle? && Good(plan[n], adRefs, start, events[n].cycle)
  }

  /** What holds at first and is kept by each event in turn holds after the run. */
  lemma {:induction false} HoldsAlong(
    plan: Plan, id: Id, w: World, events: seq<Event>, holds: (World, nat) -> bool)
    requires holds(w, 0)
    requires forall u, n: nat :: n < |events| && holds(u, n) ==> holds(After(plan, id, u, events[n]), n + 1)
    ensures holds(RunFrom(plan, id, w, events), |events|)
  {
    if events != [] {
      var n := |events| - 1;
      HoldsAlong(plan, id, w, events[..n], holds);
      assert holds(RunFrom(plan, id, w, events[..n]), n);
    }
  }

  lemma GoodEventsProgress(plan: Plan, adRefs: set<string>, id: Id, events: seq<Event>, start: Publication)
    requires Derived(plan, adRefs) && AllGood(plan, adRefs, start, events)
    ensures forall u, n: nat :: n < |events| && Progressed(plan, id, u, n, start) ==>
              Progressed(plan, id, After(plan, id, u, events[n]), n + 1, start)
  {
    forall u, n: nat | n < |events| && Progressed(plan, id, u, n, start)
      ensures Progressed(plan, id, After(plan, id, u, events[n]), n + 1, start)
    {
      GoodCycle(plan, adRefs, id, u, n, start, events[n]);
    }
  }

  lemma ProgressesAlong(plan: Plan, id: Id, w: World, events: seq<Event>, start: Publication)
    requires Progressed(plan, id, w, 0, start)
    requires forall u, n: nat :: n < |events| && Progressed(plan, id, u, n, start) ==>
               Progressed(plan, id, After(plan, id, u, events[n]), n + 1, start)
    ensures Progressed(plan, id, RunFrom(plan, id, w, events), |events|, start)
  {
    HoldsAlong(plan, id, w, events, (u: World, n: nat) => Progressed(plan, id, u, n, start));
  }

  /** From an approval, one good cycle per step of the plan publishes the package, each cycle moving
      the cursor by exactly one step. */
  lemma GoodCyclesProgress(plan: Plan, adRefs: set<string>, id: Id, w: World, events: seq<Event>)
    requires Derived(plan, adRefs) && Fresh(id, w) && RowsChecked(w.tables)
    requires AllGood(plan, adRefs, w.tables.publications[id], events)
    ensures Progressed(plan, id, RunFrom(plan, id, w, events), |events|, w.tables.publications[id])
  {
    FreshHasProgressed(plan, id, w);
    GoodEventsProgress(plan, adRefs, id, events, w.tables.publications[id]);
    ProgressesAlong(plan, id, w, events, w.tables.publications[id]);
  }

  lemma GoodCyclesComplete(plan: Plan, adRefs: set<string>, id: Id, w: World, events: seq<Event>)
    requires Derived(plan, adRefs) && Fresh(id, w) && RowsChecked(w.tables)
    requires AllGood(plan, adRefs, w.tables.publications[id], events) && |events| == |plan|
    ensures RunFrom(plan, id, w, events).package.Published?
  {
    GoodCyclesProgress(plan, adRefs, id, w, events);
  }

  // ---------------------------------------------------------------------------
  // Without the chain
  // ---------------------------------------------------------------------------

  ghost predicate Unclaimed(id: Id, w: World) {
    forall k :: k in w.claims ==> k.publication != id
  }

  /** The repository that writes the approvals of a cycle's steps. */
  predicate WritesWith(e: Event, r: SC.Repository) {
    e.WorkerCycle? ==> e.cycle.signing.repository == r
  }

  /** Without the chain no new step is ever authorized, whatever stands in the tables. */
  lemma NothingIsAuthorized(t: Tables, k: Key, x: Cycle)
    requires x.signing.repository.WithoutChain?
    ensures !Authorizes(t, k, x)
  {
    if k.publication in t.publications {
      SC.StepApprovalIsTakenExactly(
        x.signing.context, x.signing.repository, x.signing.authorizationId, x.proposalId,
        t.publications[k.publication].authorizationId, x.signing.diffHash, x.now, x.signing.expiresAt);
    }
  }

  /** So a cycle that proposes a step breaks off before anything is committed. */
  lemma ProposalsAreTurnedDown(plan: Plan, id: Id, w: World, x: Cycle)
    requires x.signing.repository.WithoutChain? && CallsExecutor(plan, id, w, x)
    requires Proposes(w.tables, Key(id, w.tables.publications[id].cursor), plan[w.tables.publications[id].cursor], x)
    ensures AfterCycle(plan, id, w, x) == w
  {
    NothingIsAuthorized(w.tables, Key(id, w.tables.publications[id].cursor), x);
    if !x.interrupted {
      CallIsExecuted(plan, id, w, x);
    }
  }

  lemma StaysUnclaimed(plan: Plan, id: Id, w: World, e: Event)
    requires Kept(plan, id, w) && Unclaimed(id, w) && WritesWith(e, SC.WithoutChain)
    ensures Unclaimed(id, After(plan, id, w, e))
  {
    if e.WorkerCycle? {
      CycleMoves(plan, id, w, e.cycle);
      if CallsExecutor(plan, id, w, e.cycle) {
        var k := Key(id, w.tables.publications[id].cursor);
        NothingIsAuthorized(w.tables, k, e.cycle);
        assert k in w.tables.steps ==> ClaimMatches(w.tables.steps[k], ClaimAt(w.claims, k));
      }
    } else {
      OthersDoNotMove(plan, id, w, e);
    }
  }

  lemma UnclaimedIsInvisible(plan: Plan, id: Id, w: World)
    requires Signed(plan) && Kept(plan, id, w) && Unclaimed(id, w)
    ensures !VisibleDone(plan, id, w.tables.steps) && !w.package.Published?
  {
    forall j: nat | j < |plan| && !plan[j].kind.UploadCreative? ensures !DoneAt(w.tables.steps, id, j) {
      if Key(id, j) in w.tables.steps {
        assert ClaimMatches(w.tables.steps[Key(id, j)], ClaimAt(w.claims, Key(id, j)));
      }
    }
    assert !DoneAt(w.tables.steps, id, |plan| - 1);
  }

  /** With a repository that does not write the chain, however long the worker runs nothing visible is
      ever done and the package is never published. */
  lemma {:induction false} NothingGetsThrough(plan: Plan, id: Id, w: World, events: seq<Event>)
    requires Signed(plan) && Fresh(id, w)
    requires forall e :: e in events ==> WritesWith(e, SC.WithoutChain)
    ensures var w' := RunFrom(plan, id, w, events);
            Unclaimed(id, w') && !VisibleDone(plan, id, w'.tables.steps) && !w'.package.Published?
  {
    FreshIsKept(plan, id, w);
    RunKeeps(plan, id, w, events);
    if events != [] {
      var init := events[..|events| - 1];
      NothingGetsThrough(plan, id, w, init);
      RunKeeps(plan, id, w, init);
      StaysUnclaimed(plan, id, RunFrom(plan, id, w, init), events[|events| - 1]);
    }
    UnclaimedIsInvisible(plan, id, RunFrom(plan, id, w, events));
  }

  // ---------------------------------------------------------------------------
  // With it
  // ---------------------------------------------------------------------------

  /** Proposals and approvals in which a step of a critical proposal is taken. */
  function HelpfulContext(proposalId: Id, human: Id): SC.Tables {
    var proposal := SC.Proposal("account", "new_campaign", "", "plan", "hash", SC.Critical, SC.Scheduled, None, Some(0),
                                None);
    SC.Tables(map[proposalId := proposal], map[human := SC.Marked(None, SC.Approves)], map[], map[])
  }

  /** A cycle in which the platform confirms a step and nothing stands in the way. */
  function HelpfulCycle(kind: Kind, adRefs: set<string>, start: Publication): Cycle {
    var now := start.startedAt + UNDO_GRACE;
    var context := HelpfulContext("proposal", start.authorizationId);
    var signing := Signing(SC.WholeRow, context, start.authorizationId + "'", "hash", now + 1);
    Cycle(now, None, adRefs, None, "proposal", signing,
          Report(StepDone, if kind.ActivateCampaign? then None else Some("entity"), None, None), false, Settled, false)
  }

  lemma HelpfulIsAuthorized(kind: Kind, adRefs: set<string>, start: Publication)
    ensures AuthorizedBy(start.authorizationId, HelpfulCycle(kind, adRefs, start))
  {
    var x := HelpfulCycle(kind, adRefs, start);
    assert |x.signing.authorizationId| != |start.authorizationId|;
    SC.StepApprovalIsTakenExactly(
      x.signing.context, SC.WholeRow, x.signing.authorizationId, x.proposalId, start.authorizationId,
      x.signing.diffHash, x.now, x.signing.expiresAt);
  }

  lemma HelpfulIsGood(p: Template, adRefs: set<string>, start: Publication)
    ensures Good(p, adRefs, start, HelpfulCycle(p.kind, adRefs, start))
  {
    HelpfulIsAuthorized(p.kind, adRefs, start);
  }

  /** A run in which the repository `r` writes every step's approval publishes the package. */
  ghost predicate Publishes(plan: Plan, id: Id, w: World, r: SC.Repository, events: seq<Event>) {
    (forall e :: e in events ==> WritesWith(e, r)) && RunFrom(plan, id, w, events).package.Published?
  }

  /** From an approval of a plan as derived, some run publishes the package if and only if the repository
      of authorizations writes the chain. */
  lemma PublishesExactlyWithTheChain(plan: Plan, adRefs: set<string>, id: Id, w: World, r: SC.Repository)
    requires Derived(plan, adRefs) && Fresh(id, w) && RowsChecked(w.tables)
    ensures (exists events :: Publishes(plan, id, w, r, events)) <==> r.WholeRow?
  {
    if r.WholeRow? {
      var start := w.tables.publications[id];
      var events := seq(|plan|, n requires 0 <= n < |plan| => WorkerCycle(HelpfulCycle(plan[n].kind, adRefs, start)));
      forall n | 0 <= n < |events| ensures events[n].WorkerCycle? && Good(plan[n], adRefs, start, events[n].cycle) {
        HelpfulIsGood(plan[n], adRefs, start);
      }
      GoodCyclesComplete(plan, adRefs, id, w, events);
      assert Publishes(plan, id, w, r, events);
    } else {
      forall events | Publishes(plan, id, w, r, events) ensures false {
        NothingGetsThrough(plan, id, w, events);
      }
    }
  }

  // ---------------------------------------------------------------------------
  // Stuck for ever
  // ---------------------------------------------------------------------------

  function CursorOf(id: Id, w: World): int {
    if id in w.tables.publications then w.tables.publications[id].cursor else 0
  }

  /** The package lets the publication go on, at once or resumed, and the next step has what it needs. */
  predicate CanGoOn(plan: Plan, id: Id, w: World, adRefs: set<string>) {
    && id in w.tables.publications
    && ((OpenPublication(w.tables, id) && InProgress(Begin(w).package)) || Resumable(w, id))
    && var i := w.tables.publications[id].cursor;
    && 0 <= i < |plan| && Calls(plan, id, w.tables.steps, i, adRefs)
  }

  /** The next step is done, has lost its proposal, or has an execution that is over in vain. */
  predicate StuckForGood(plan: Plan, id: Id, w: World) {
    Stuck(id, w) || Orphaned(id, w) || OverInVain(plan, id, w)
  }

  lemma HelpfulIsSent(plan: Plan, id: Id, w: World, i: nat, x: Cycle)
    requires Signed(plan) && AtStep(plan, id, w) && RowsChecked(w.tables) && w.tables.publications[id].cursor == i
    requires WellFormed(plan[i]) && !StuckForGood(plan, id, w)
    requires AuthorizedBy(w.tables.publications[id].authorizationId, x)
    requires x.denial.None? && x.report.verdict.StepDone? && Storable(plan[i].kind, x.report)
    ensures var k, p := Key(id, i), plan[i];
            && !TurnsDown(w, k, p, x) && Heard(w, k, p, x).verdict.StepDone? && Storable(p.kind, Heard(w, k, p, x))
  {
  }

  lemma ConfirmedMovesOn(plan: Plan, id: Id, w: World, i: nat, x: Cycle)
    requires Orderly(plan, id, w) && AtStep(plan, id, w) && w.tables.publications[id].cursor == i
    requires !StuckForGood(plan, id, w)
    requires OpenPublication(w.tables, id) && InProgress(w.package) && x.now >= w.tables.publications[id].startedAt
    requires AuthorizedBy(w.tables.publications[id].authorizationId, x) && !x.registryMisses
    requires x.denial.None? && x.report.verdict.StepDone? && Storable(plan[i].kind, x.report)
    ensures var a := Call(plan, id, w, i, x); a.Committed? && CursorOf(id, a.world) == i + 1
  {
    var k, p := Key(id, i), plan[i];
    HelpfulIsSent(plan, id, w, i, x);
    SentAtStep(plan, id, w, i, x);
    ConcludeIsTaken(plan, id, Send(w, k, p, x).value, i, Heard(w, k, p, x), x);
  }

  lemma BeginIsOrderly(plan: Plan, id: Id, w: World)
    requires Orderly(plan, id, w) && OpenPublication(w.tables, id) && InProgress(Begin(w).package)
    requires w.tables.publications[id].cursor < |plan|
    ensures Orderly(plan, id, Begin(w)) && AtStep(plan, id, Begin(w))
    ensures StuckForGood(plan, id, Begin(w)) == StuckForGood(plan, id, w)
  {
  }

  lemma OneMoreStep(plan: Plan, id: Id, w: World, adRefs: set<string>)
    requires Orderly(plan, id, w) && CanGoOn(plan, id, w, adRefs) && !StuckForGood(plan, id, w)
    requires OpenPublication(w.tables, id) && InProgress(Begin(w).package)
    ensures var i := w.tables.publications[id].cursor;
            var x := HelpfulCycle(plan[i].kind, adRefs, w.tables.publications[id]);
            CursorOf(id, After(plan, id, w, WorkerCycle(x))) == i + 1
  {
    var i := w.tables.publications[id].cursor;
    var x := HelpfulCycle(plan[i].kind, adRefs, w.tables.publications[id]);
    HelpfulIsAuthorized(plan[i].kind, adRefs, w.tables.publications[id]);
    CallIsExecuted(plan, id, w, x);
    BeginIsOrderly(plan, id, w);
    ConfirmedMovesOn(plan, id, Begin(w), i, x);
  }

  lemma ResumeIsTaken(plan: Plan, id: Id, w: World)
    requires Kept(plan, id, w) && Resumable(w, id)
    ensures var w' := After(plan, id, w, Resume);
            Unmoved(id, w, w') && OpenPublication(w'.tables, id) && InProgress(w'.package)
  {
  }

  lemma ResumedGoesOn(plan: Plan, id: Id, w: World, adRefs: set<string>)
    requires Orderly(plan, id, w) && CanGoOn(plan, id, w, adRefs) && Resumable(w, id) && !StuckForGood(plan, id, w)
    ensures var w' := After(plan, id, w, Resume);
            && Orderly(plan, id, w') && CanGoOn(plan, id, w', adRefs) && Unmoved(id, w, w')
            && OpenPublication(w'.tables, id) && InProgress(Begin(w').package) && !StuckForGood(plan, id, w')
  {
    OtherEventsKeep(plan, id, w, Resume);
    EventIsChecked(plan, id, w, Resume);
    ResumeIsTaken(plan, id, w);
  }

  lemma NeverMovesOn(plan: Plan, id: Id, w: World, events: seq<Event>)
    requires Kept(plan, id, w) && StuckForGood(plan, id, w)
    ensures CursorOf(id, RunFrom(plan, id, w, events)) == CursorOf(id, w)
  {
    if Stuck(id, w) {
      StuckForever(plan, id, w, events);
    } else if Orphaned(id, w) {
      OrphanedForever(plan, id, w, events);
    } else {
      OverForever(plan, id, w, events);
    }
  }

  lemma OneEvent(plan: Plan, id: Id, w: World, e: Event)
    ensures RunFrom(plan, id, w, [e]) == After(plan, id, w, e)
  {
    assert [e][..0] == [];
  }

  lemma TwoEvents(plan: Plan, id: Id, w: World, e: Event, f: Event)
    ensures RunFrom(plan, id, w, [e, f]) == After(plan, id, After(plan, id, w, e), f)
  {
    OneEvent(plan, id, w, e);
    assert [e, f][..1] == [e];
  }

  lemma SomeRunMovesOn(plan: Plan, id: Id, w: World, adRefs: set<string>) returns (events: seq<Event>)
    requires Orderly(plan, id, w) && CanGoOn(plan, id, w, adRefs) && !StuckForGood(plan, id, w)
    ensures CursorOf(id, RunFrom(plan, id, w, events)) == CursorOf(id, w) + 1
  {
    var kind := plan[w.tables.publications[id].cursor].kind;
    if OpenPublication(w.tables, id) && InProgress(Begin(w).package) {
      var e := WorkerCycle(HelpfulCycle(kind, adRefs, w.tables.publications[id]));
      OneMoreStep(plan, id, w, adRefs);
      OneEvent(plan, id, w, e);
      events := [e];
    } else {
      ResumedGoesOn(plan, id, w, adRefs);
      var w' := After(plan, id, w, Resume);
      var e := WorkerCycle(HelpfulCycle(kind, adRefs, w'.tables.publications[id]));
      OneMoreStep(plan, id, w', adRefs);
      TwoEvents(plan, id, w, Resume, e);
      events := [Resume, e];
    }
  }

  /** Where the package lets it go on and the step has what it needs, no run at all ever moves the
      publication past its step if and only if the step is done already, has lost its proposal, or has an
      execution that is over in vain. */
  lemma StuckExactly(plan: Plan, id: Id, w: World, adRefs: set<string>)
    requires Orderly(plan, id, w) && CanGoOn(plan, id, w, adRefs)
    ensures (forall events :: CursorOf(id, RunFrom(plan, id, w, events)) == CursorOf(id, w)) <==>
            StuckForGood(plan, id, w)
  {
    if StuckForGood(plan, id, w) {
      forall events ensures CursorOf(id, RunFrom(plan, id, w, events)) == CursorOf(id, w) {
        NeverMovesOn(plan, id, w, events);
      }
    } else {
      var events := SomeRunMovesOn(plan, id, w, adRefs);
    }
  }
}
