/** The publication saga as the database guards it: one row per publication of a campaign package
    and one per write step. Every INSERT, UPDATE and DELETE either passes the row triggers, CHECKs,
    keys and indexes, or changes nothing. Statements are atomic and serial.

    `Accepts` and `Apply` say what one statement does; `PublicationTables` is the tables with the
    triggers as the database runs them; the theorems are about `Run`, every sequence of statements. */
module PublicationSaga {
  import opened Wrappers

  type Id = string

  datatype PublicationState = PubPending | PubRunning | PubCompleted | PubHalted

  datatype Publication = Publication(
    packageId: Id, authorizationId: Id, state: PublicationState, cursor: int,
    haltReason: Option<string>, failedStepIndex: Option<int>, startedAt: int, finishedAt: Option<int>)

  datatype Kind = UploadCreative | CreateCampaign | CreateAdSet | CreateAd | ActivateCampaign

  datatype StepState = Pending | Running | Done | Failed | Unknown | Blocked

  datatype Step = Step(
    kind: Kind, localRef: string, parentLocalRef: Option<string>, state: StepState,
    createdEntityRef: Option<string>, proposalId: Option<Id>, executionId: Option<Id>,
    outcomeCode: Option<string>, confirmedStateHash: Option<string>)

  /** A step's primary key. */
  datatype Key = Key(publication: Id, index: nat)

  datatype Tables = Tables(publications: map<Id, Publication>, steps: map<Key, Step>)

  datatype Statement =
    | InsertPublication(id: Id, publication: Publication)
    | UpdatePublication(id: Id, publication: Publication)
    | DeletePublication(id: Id)
    | InsertStep(key: Key, step: Step)
    | UpdateStep(key: Key, step: Step)
    | DeleteStep(key: Key)

  const EMPTY := Tables(map[], map[])

  // ---------------------------------------------------------------------------
  // Transition tables and row CHECKs
  // ---------------------------------------------------------------------------

  predicate StepTransition(from: StepState, to: StepState) {
    match from
    case Pending => to.Running? || to.Blocked? || to.Failed?
    case Running => to.Done? || to.Failed? || to.Unknown?
    case Unknown => to.Done? || to.Failed? || to.Blocked?
    case Blocked => to.Running? || to.Failed?
    case Failed => to.Pending? || to.Running?
    case Done => false
  }

  predicate PublicationTransition(from: PublicationState, to: PublicationState) {
    match from
    case PubPending => to.PubRunning? || to.PubHalted?
    case PubRunning => to.PubCompleted? || to.PubHalted?
    case PubHalted => to.PubRunning?
    case PubCompleted => false
  }

  predicate Length(s: Option<string>, max: nat) {
    s.Some? ==> 1 <= |s.value| <= max
  }

  predicate HasParent(kind: Kind) {
    kind.CreateAdSet? || kind.CreateAd? || kind.ActivateCampaign?
  }

  predicate StepChecks(s: Step) {
    && 1 <= |s.localRef| <= 64 && Length(s.parentLocalRef, 64) && Length(s.outcomeCode, 64)
    && HasParent(s.kind) == s.parentLocalRef.Some?
    && (s.createdEntityRef.Some? ==> s.state.Done? && !s.kind.ActivateCampaign?)
    && (s.confirmedStateHash.Some? ==> s.state.Done? && !s.kind.UploadCreative?)
  }

  predicate PublicationChecks(p: Publication) {
    && p.cursor >= 0 && Length(p.haltReason, 200)
    && (p.failedStepIndex.Some? ==> p.failedStepIndex.value >= 0 && p.state.PubHalted?)
    && (p.state.PubHalted? <==> p.haltReason.Some?)
    && (p.finishedAt.Some? ==> (p.state.PubCompleted? || p.state.PubHalted?) && p.finishedAt.value >= p.startedAt)
  }

  // ---------------------------------------------------------------------------
  // What the triggers look up in other rows
  // ---------------------------------------------------------------------------

  predicate UnfinishedBefore(steps: map<Key, Step>, k: Key) {
    exists j :: j in steps && j.publication == k.publication && j.index < k.index && !steps[j].state.Done?
  }

  predicate AnyAfter(steps: map<Key, Step>, k: Key) {
    exists j :: j in steps && j.publication == k.publication && j.index > k.index
  }

  predicate ActivationBefore(steps: map<Key, Step>, k: Key) {
    exists j :: j in steps && j.publication == k.publication && j.index < k.index && steps[j].kind.ActivateCampaign?
  }

  predicate OtherRunning(steps: map<Key, Step>, k: Key) {
    exists j :: j in steps && j != k && j.publication == k.publication && steps[j].state.Running?
  }

  predicate PackageTaken(publications: map<Id, Publication>, id: Id, packageId: Id) {
    exists i :: i in publications && i != id && publications[i].packageId == packageId
  }

  /** The checks every new version of a step row goes through. */
  predicate InOrder(steps: map<Key, Step>, k: Key, s: Step) {
    && (s.state.Running? ==> !UnfinishedBefore(steps, k))
    && (s.kind.ActivateCampaign? ==> !AnyAfter(steps, k))
    && !ActivationBefore(steps, k)
    && StepChecks(s)
    && (s.state.Running? ==> !OtherRunning(steps, k))
  }

  predicate SamePlan(before: Step, after: Step) {
    before.kind == after.kind && before.localRef == after.localRef && before.parentLocalRef == after.parentLocalRef
  }

  predicate Accepts(t: Tables, e: Statement) {
    match e
    case InsertPublication(id, p) =>
      id !in t.publications && p.state.PubPending? && PublicationChecks(p)
        && !PackageTaken(t.publications, id, p.packageId)
    case UpdatePublication(id, p) =>
      && id in t.publications
      && var before := t.publications[id];
      && p.packageId == before.packageId && p.authorizationId == before.authorizationId
      && p.cursor >= before.cursor
      && (p.state != before.state ==> PublicationTransition(before.state, p.state))
      && PublicationChecks(p)
    case DeletePublication(id) => id in t.publications
    case InsertStep(k, s) =>
      k !in t.steps && k.publication in t.publications && s.state.Pending? && InOrder(t.steps, k, s)
    case UpdateStep(k, s) =>
      && k in t.steps
      && var before := t.steps[k];
      && SamePlan(before, s)
      && (before.createdEntityRef.Some? ==> s.createdEntityRef == before.createdEntityRef)
      && (s.state != before.state ==> StepTransition(before.state, s.state))
      && InOrder(t.steps, k, s)
    case DeleteStep(k) => k in t.steps
  }

  function Apply(t: Tables, e: Statement): Tables {
    if !Accepts(t, e) then t
    else
      match e
      case InsertPublication(id, p) => t.(publications := t.publications[id := p])
      case UpdatePublication(id, p) => t.(publications := t.publications[id := p])
      case DeletePublication(id) =>
        Tables(t.publications - {id}, map k | k in t.steps && k.publication != id :: t.steps[k])
      case InsertStep(k, s) => t.(steps := t.steps[k := s])
      case UpdateStep(k, s) => t.(steps := t.steps[k := s])
      case DeleteStep(k) => t.(steps := t.steps - {k})
  }

  function Run(t: Tables, statements: seq<Statement>): Tables {
    if statements == [] then t
    else Apply(Run(t, statements[..|statements| - 1]), statements[|statements| - 1])
  }

  // ---------------------------------------------------------------------------
  // From state to state
  // ---------------------------------------------------------------------------

  /** Where a step may have been right before it got to a state. */
  function StepBefore(to: StepState): set<StepState> {
    match to
    case Pending => {StepState.Failed}
    case Running => {Pending, Blocked, StepState.Failed}
    case Done => {StepState.Running, Unknown}
    case Failed => {Pending, StepState.Running, Unknown, Blocked}
    case Unknown => {StepState.Running}
    case Blocked => {Pending, Unknown}
  }

  /** Where a publication may have been right before it got to a state. */
  function PublicationBefore(to: PublicationState): set<PublicationState> {
    match to
    case PubPending => {}
    case PubRunning => {PubPending, PubHalted}
    case PubCompleted => {PubRunning}
    case PubHalted => {PubPending, PubRunning}
  }

  function WalkingPublication(s: PublicationState): Publication {
    Publication("package", "authorization", s, 0, if s.PubHalted? then Some("reason") else None, None, 0, None)
  }

  function WalkingStep(s: StepState): Step {
    Step(CreateCampaign, "campaign", None, s, None, None, None, None, None)
  }

  function WalkingTables(p: PublicationState, s: Option<StepState>): Tables {
    Tables(map["publication" := WalkingPublication(p)],
           if s.Some? then map[Key("publication", 0) := WalkingStep(s.value)] else map[])
  }

  ghost predicate IsStepWalk(states: seq<StepState>) {
    states != [] && states[0].Pending? && forall i :: 0 <= i < |states| - 1 ==> states[i] in StepBefore(states[i + 1])
  }

  ghost predicate IsPublicationWalk(states: seq<PublicationState>) {
    && states != [] && states[0].PubPending?
    && forall i :: 0 <= i < |states| - 1 ==> states[i] in PublicationBefore(states[i + 1])
  }

  /** A publication is inserted, and its only step goes through the states. */
  function StepWalk(states: seq<StepState>): (statements: seq<Statement>)
    ensures |statements| == |states| + 1
  {
    if states == [] then [InsertPublication("publication", WalkingPublication(PubPending))]
    else
      var last := |states| - 1;
      var k := Key("publication", 0);
      StepWalk(states[..last])
      + [if last == 0 then InsertStep(k, WalkingStep(states[0])) else UpdateStep(k, WalkingStep(states[last]))]
  }

  /** A publication goes through the states. */
  function PublicationWalk(states: seq<PublicationState>): (statements: seq<Statement>)
    ensures |statements| == |states|
  {
    if states == [] then []
    else
      var last := |states| - 1;
      PublicationWalk(states[..last])
      + [if last == 0 then InsertPublication("publication", WalkingPublication(states[0]))
         else UpdatePublication("publication", WalkingPublication(states[last]))]
  }

  lemma FirstStatements()
    ensures Apply(EMPTY, InsertPublication("publication", WalkingPublication(PubPending)))
         == WalkingTables(PubPending, None)
    ensures Apply(WalkingTables(PubPending, None), InsertStep(Key("publication", 0), WalkingStep(Pending)))
         == WalkingTables(PubPending, Some(Pending))
  {
    assert !PackageTaken(EMPTY.publications, "publication", "package");
  }

  lemma StepMoveIsAccepted(from: StepState, to: StepState)
    requires from in StepBefore(to)
    ensures Apply(WalkingTables(PubPending, Some(from)), UpdateStep(Key("publication", 0), WalkingStep(to)))
         == WalkingTables(PubPending, Some(to))
  {
    assert InOrder(WalkingTables(PubPending, Some(from)).steps, Key("publication", 0), WalkingStep(to));
  }

  lemma PublicationMoveIsAccepted(from: PublicationState, to: PublicationState)
    requires from in PublicationBefore(to)
    ensures Apply(WalkingTables(from, None), UpdatePublication("publication", WalkingPublication(to)))
         == WalkingTables(to, None)
  {
  }

  /** From empty tables a step is taken through any walk along those moves: every failure may be retried,
      every doubt resolved. */
  lemma {:induction false} StepWalksAreTaken(states: seq<StepState>)
    requires IsStepWalk(states)
    ensures Run(EMPTY, StepWalk(states)) == WalkingTables(PubPending, Some(states[|states| - 1]))
  {
    var last := |states| - 1;
    assert StepWalk(states)[..last + 1] == StepWalk(states[..last]);
    FirstStatements();
    if last > 0 {
      StepWalksAreTaken(states[..last]);
      StepMoveIsAccepted(states[last - 1], states[last]);
    } else {
      assert StepWalk([])[..0] == [];
      assert Run(EMPTY, []) == EMPTY;
    }
  }

  lemma {:induction false} PublicationWalksAreTaken(states: seq<PublicationState>)
    requires IsPublicationWalk(states)
    ensures Run(EMPTY, PublicationWalk(states)) == WalkingTables(states[|states| - 1], None)
  {
    var last := |states| - 1;
    assert PublicationWalk(states)[..last] == PublicationWalk(states[..last]);
    FirstStatements();
    if last > 0 {
      PublicationWalksAreTaken(states[..last]);
      PublicationMoveIsAccepted(states[last - 1], states[last]);
    } else {
      assert Run(EMPTY, []) == EMPTY;
    }
  }

  predicate StepIs(t: Tables, k: Key, s: StepState) {
    k in t.steps && t.steps[k].state == s
  }

  predicate PublicationIs(t: Tables, id: Id, s: PublicationState) {
    id in t.publications && t.publications[id].state == s
  }

  /** The last statement of the history takes the step from one state to another. */
  ghost predicate EndsWithStepMove(statements: seq<Statement>, k: Key, from: StepState, to: StepState) {
    && statements != []
    && StepIs(Run(EMPTY, statements[..|statements| - 1]), k, from) && StepIs(Run(EMPTY, statements), k, to)
  }

  ghost predicate EndsWithPublicationMove(
    statements: seq<Statement>, id: Id, from: PublicationState, to: PublicationState)
  {
    && statements != []
    && PublicationIs(Run(EMPTY, statements[..|statements| - 1]), id, from)
    && PublicationIs(Run(EMPTY, statements), id, to)
  }

  function WayToStep(s: StepState): seq<StepState> {
    match s
    case Pending => [Pending]
    case Running => [Pending, StepState.Running]
    case Done => []
    case Failed => [Pending, StepState.Failed]
    case Unknown => [Pending, StepState.Running, Unknown]
    case Blocked => [Pending, Blocked]
  }

  function WayToPublication(s: PublicationState): seq<PublicationState> {
    match s
    case PubPending => [PubPending]
    case PubRunning => [PubPending, PubRunning]
    case PubCompleted => []
    case PubHalted => [PubPending, PubHalted]
  }

  lemma StepWalkEndsWithMove(from: StepState, to: StepState)
    requires from in StepBefore(to)
    ensures EndsWithStepMove(StepWalk(WayToStep(from) + [to]), Key("publication", 0), from, to)
  {
    var way := WayToStep(from);
    assert IsStepWalk(way) && way[|way| - 1] == from;
    assert (way + [to])[..|way|] == way;
    assert StepWalk(way + [to])[..|way| + 1] == StepWalk(way);
    StepWalksAreTaken(way);
    StepWalksAreTaken(way + [to]);
  }

  lemma PublicationWalkEndsWithMove(from: PublicationState, to: PublicationState)
    requires from in PublicationBefore(to)
    ensures EndsWithPublicationMove(PublicationWalk(WayToPublication(from) + [to]), "publication", from, to)
  {
    var way := WayToPublication(from);
    assert IsPublicationWalk(way) && way[|way| - 1] == from;
    assert (way + [to])[..|way|] == way;
    assert PublicationWalk(way + [to])[..|way|] == PublicationWalk(way);
    PublicationWalksAreTaken(way);
    PublicationWalksAreTaken(way + [to]);
  }

  lemma MovesComeFromBefore(t: Tables, e: Statement)
    ensures forall k, from, to :: from != to && StepIs(t, k, from) && StepIs(Apply(t, e), k, to) ==>
              from in StepBefore(to)
    ensures forall id, from, to :: from != to && PublicationIs(t, id, from) && PublicationIs(Apply(t, e), id, to) ==>
              from in PublicationBefore(to)
  {
  }

  /** Which is exactly how steps move: from one state to another if and only if it is one of those right
      before. A step in doubt is not sent again, nor is one that is done. */
  lemma StepMovesExactly(from: StepState, to: StepState)
    requires from != to
    ensures (exists statements, k :: EndsWithStepMove(statements, k, from, to)) <==> from in StepBefore(to)
  {
    if from in StepBefore(to) {
      StepWalkEndsWithMove(from, to);
    }
    if statements, k :| EndsWithStepMove(statements, k, from, to) {
      MovesComeFromBefore(Run(EMPTY, statements[..|statements| - 1]), statements[|statements| - 1]);
    }
  }

  /** And publications: one that was halted runs again before it completes. */
  lemma PublicationMovesExactly(from: PublicationState, to: PublicationState)
    requires from != to
    ensures (exists statements, id :: EndsWithPublicationMove(statements, id, from, to))
       <==> from in PublicationBefore(to)
  {
    if from in PublicationBefore(to) {
      PublicationWalkEndsWithMove(from, to);
    }
    if statements, id :| EndsWithPublicationMove(statements, id, from, to) {
      MovesComeFromBefore(Run(EMPTY, statements[..|statements| - 1]), statements[|statements| - 1]);
    }
  }

  // ---------------------------------------------------------------------------
  // Order
  // ---------------------------------------------------------------------------

  /** The step has been sent to the platform. */
  predicate Started(s: StepState) {
    s.Running? || s.Unknown? || s.Done?
  }

  /** It was sent and what the platform made of it is not known yet. */
  predicate InFlight(s: StepState) {
    s.Running? || s.Unknown?
  }

  /** Below a step that was sent, everything is done. */
  ghost predicate Ordered(steps: map<Key, Step>) {
    forall j, k ::
      j in steps && k in steps && j.publication == k.publication && j.index < k.index && Started(steps[k].state) ==>
        steps[j].state.Done?
  }

  /** An insert the triggers accept although a later step was already sent. */
  ghost predicate InsertsBeneathStarted(t: Tables, e: Statement) {
    && e.InsertStep? && Accepts(t, e)
    && exists k :: k in t.steps && k.publication == e.key.publication && k.index > e.key.index
                   && Started(t.steps[k].state)
  }

  /** One statement keeps the order precisely when it is no insert beneath a sent step: that is the
      only hole the triggers leave. */
  lemma OrderedStep(t: Tables, e: Statement)
    requires Ordered(t.steps)
    ensures Ordered(Apply(t, e).steps) <==> !InsertsBeneathStarted(t, e)
  {
  }

  function Upto(statements: seq<Statement>, n: nat): Tables
    requires n <= |statements|
  {
    Run(EMPTY, statements[..n])
  }

  lemma UptoStep(statements: seq<Statement>, n: nat)
    requires n < |statements|
    ensures Upto(statements, n + 1) == Apply(Upto(statements, n), statements[n])
  {
    assert statements[..n + 1][..n] == statements[..n];
  }

  lemma {:induction false} OrderedUpto(statements: seq<Statement>, n: nat)
    requires n <= |statements|
    requires forall m: nat :: m < n ==> !InsertsBeneathStarted(Upto(statements, m), statements[m])
    ensures Ordered(Upto(statements, n).steps)
  {
    if n > 0 {
      OrderedUpto(statements, n - 1);
      UptoStep(statements, n - 1);
      OrderedStep(Upto(statements, n - 1), statements[n - 1]);
    }
  }

  /** The order holds at every moment of a history if and only if the history never inserts a step
      beneath one already sent. */
  lemma OrderedExactlyWhenDisciplined(statements: seq<Statement>)
    ensures (forall n: nat :: n <= |statements| ==> Ordered(Upto(statements, n).steps))
       <==> (forall n: nat :: n < |statements| ==> !InsertsBeneathStarted(Upto(statements, n), statements[n]))
  {
    if forall n: nat :: n < |statements| ==> !InsertsBeneathStarted(Upto(statements, n), statements[n]) {
      forall n: nat | n <= |statements| ensures Ordered(Upto(statements, n).steps) {
        OrderedUpto(statements, n);
      }
    }
    if forall n: nat :: n <= |statements| ==> Ordered(Upto(statements, n).steps) {
      forall n: nat | n < |statements| ensures !InsertsBeneathStarted(Upto(statements, n), statements[n]) {
        UptoStep(statements, n);
        assert Ordered(Upto(statements, n + 1).steps);
        OrderedStep(Upto(statements, n), statements[n]);
      }
    }
  }

  /** What the order means: a publication has at most one step in flight or in doubt, the done steps
      form an initial segment, and while a step is in doubt nothing after it was sent. */
  lemma OrderMeansOneAtATime(steps: map<Key, Step>, j: Key, k: Key)
    requires Ordered(steps) && j in steps && k in steps && j.publication == k.publication
    ensures InFlight(steps[j].state) && InFlight(steps[k].state) ==> j == k
    ensures steps[k].state.Done? && j.index <= k.index ==> steps[j].state.Done?
    ensures steps[j].state.Unknown? && j.index < k.index ==> !Started(steps[k].state)
  {
    assert j == Key(j.publication, j.index) && k == Key(k.publication, k.index);
  }

  // ---------------------------------------------------------------------------
  // Activation
  // ---------------------------------------------------------------------------

  /** Activating the campaign is the last step of its publication, hence the only such step. */
  ghost predicate ActivationLast(steps: map<Key, Step>) {
    forall j, k ::
      j in steps && k in steps && j.publication == k.publication && steps[j].kind.ActivateCampaign? ==>
        k.index <= j.index
  }

  lemma {:induction false} ActivationIsAlwaysLast(statements: seq<Statement>)
    ensures ActivationLast(Run(EMPTY, statements).steps)
  {
    if statements != [] {
      ActivationIsAlwaysLast(statements[..|statements| - 1]);
    }
  }

  /** In a disciplined history the campaign is activated only once every other step is done, by one
      step only. */
  lemma ActivationRunsAlone(statements: seq<Statement>, a: Key, k: Key)
    requires forall n: nat :: n < |statements| ==> !InsertsBeneathStarted(Upto(statements, n), statements[n])
    requires a in Run(EMPTY, statements).steps && k in Run(EMPTY, statements).steps
    requires a.publication == k.publication && a != k
    requires Run(EMPTY, statements).steps[a].kind.ActivateCampaign?
    ensures !Run(EMPTY, statements).steps[k].kind.ActivateCampaign? && k.index < a.index
    ensures Started(Run(EMPTY, statements).steps[a].state) ==> Run(EMPTY, statements).steps[k].state.Done?
  {
    ActivationIsAlwaysLast(statements);
    OrderedUpto(statements, |statements|);
    assert statements[..|statements|] == statements;
    assert a.index != k.index by {
      assert a == Key(a.publication, a.index) && k == Key(k.publication, k.index);
    }
  }

  // ---------------------------------------------------------------------------
  // Receipts
  // ---------------------------------------------------------------------------

  ghost predicate RowsChecked(t: Tables) {
    && (forall k :: k in t.steps ==> StepChecks(t.steps[k]) && k.publication in t.publications)
    && (forall id :: id in t.publications ==> PublicationChecks(t.publications[id]))
    && (forall i, j :: i in t.publications && j in t.publications && i != j ==>
          t.publications[i].packageId != t.publications[j].packageId)
  }

  lemma RowsCheckedStep(t: Tables, e: Statement)
    requires RowsChecked(t)
    ensures RowsChecked(Apply(t, e))
  {
  }

  lemma {:induction false} RowsAreChecked(statements: seq<Statement>)
    ensures RowsChecked(Run(EMPTY, statements))
  {
    if statements != [] {
      RowsAreChecked(statements[..|statements| - 1]);
      RowsCheckedStep(Run(EMPTY, statements[..|statements| - 1]), statements[|statements| - 1]);
    }
  }

  // ---------------------------------------------------------------------------
  // Which rows are taken
  // ---------------------------------------------------------------------------

  /** In every reachable state a step that waits, was blocked or failed is taken as running if and only if
      every step of its publication below it is done and no other one is running. */
  lemma TurnComesExactly(statements: seq<Statement>, k: Key)
    requires k in Run(EMPTY, statements).steps
    requires var state := Run(EMPTY, statements).steps[k].state; state.Pending? || state.Blocked? || state.Failed?
    ensures var t := Run(EMPTY, statements);
            Accepts(t, UpdateStep(k, t.steps[k].(state := StepState.Running))) <==>
            && (forall j :: j in t.steps && j.publication == k.publication && j.index < k.index ==>
                  t.steps[j].state.Done?)
            && (forall j :: j in t.steps && j.publication == k.publication && j != k ==> !t.steps[j].state.Running?)
  {
    var t := Run(EMPTY, statements);
    RowsAreChecked(statements);
    ActivationIsAlwaysLast(statements);
    assert StepChecks(t.steps[k]);
    assert !ActivationBefore(t.steps, k);
    assert t.steps[k].kind.ActivateCampaign? ==> !AnyAfter(t.steps, k);
  }

  /** And the outcome of a step under way, or in doubt, if and only if it moves on to done, failed, or (in
      doubt) unknown, or (out of doubt) blocked; keeps its plan; and has a receipt only if done, of an
      entity unless it activates, of a state unless it uploads, and a code of at most 64 characters. */
  lemma OutcomeIsTakenExactly(statements: seq<Statement>, k: Key, s: Step)
    requires k in Run(EMPTY, statements).steps && !s.state.Running?
    requires var state := Run(EMPTY, statements).steps[k].state; state.Running? || state.Unknown?
    ensures var t := Run(EMPTY, statements);
            var before := t.steps[k];
            Accepts(t, UpdateStep(k, s)) <==>
            && s.kind == before.kind && s.localRef == before.localRef && s.parentLocalRef == before.parentLocalRef
            && (s.state.Done? || s.state.Failed? || s.state.Unknown? || (s.state.Blocked? && before.state.Unknown?))
            && (s.createdEntityRef.Some? ==> s.state.Done? && !s.kind.ActivateCampaign?)
            && (s.confirmedStateHash.Some? ==> s.state.Done? && !s.kind.UploadCreative?)
            && (s.outcomeCode.Some? ==> 1 <= |s.outcomeCode.value| <= 64)
  {
    var t := Run(EMPTY, statements);
    RowsAreChecked(statements);
    ActivationIsAlwaysLast(statements);
    assert StepChecks(t.steps[k]);
    assert !ActivationBefore(t.steps, k);
    assert t.steps[k].kind.ActivateCampaign? ==> !AnyAfter(t.steps, k);
  }

  /** A step is taken into the plan if and only if its place is free, it waits without receipts, stands
      after no activation, before nothing if it is one, has a parent exactly if its kind has one, and
      references of 1 to 64 characters. */
  lemma StepIsAddedExactly(t: Tables, k: Key, s: Step)
    ensures Accepts(t, InsertStep(k, s)) <==>
            && k !in t.steps && k.publication in t.publications && s.state.Pending?
            && s.createdEntityRef.None? && s.confirmedStateHash.None?
            && (forall j :: j in t.steps && j.publication == k.publication && t.steps[j].kind.ActivateCampaign? ==>
                  j.index >= k.index)
            && (s.kind.ActivateCampaign? ==>
                  forall j :: j in t.steps && j.publication == k.publication ==> j.index <= k.index)
            && (s.parentLocalRef.Some? <==> s.kind.CreateAdSet? || s.kind.CreateAd? || s.kind.ActivateCampaign?)
            && 1 <= |s.localRef| <= 64 && (s.parentLocalRef.Some? ==> 1 <= |s.parentLocalRef.value| <= 64)
            && (s.outcomeCode.Some? ==> 1 <= |s.outcomeCode.value| <= 64)
  {
  }

  /** A publication is added if and only if it is pending, its package has none yet and it says nothing of
      how it went. */
  lemma PublicationIsAddedExactly(t: Tables, id: Id, p: Publication)
    ensures Accepts(t, InsertPublication(id, p)) <==>
            && id !in t.publications && p.state.PubPending? && 0 <= p.cursor
            && (forall i :: i in t.publications ==> t.publications[i].packageId != p.packageId)
            && p.haltReason.None? && p.failedStepIndex.None? && p.finishedAt.None?
  {
  }

  /** A publication's row is taken if and only if it keeps its package and authorization, its cursor does
      not go back, it moves as publications do, a reason stands exactly while it is halted, a failed step
      only then, and an end, not before its start, only once it is over. */
  lemma PublicationIsTakenExactly(t: Tables, id: Id, p: Publication)
    requires id in t.publications
    ensures var before := t.publications[id];
            Accepts(t, UpdatePublication(id, p)) <==>
            && p.packageId == before.packageId && p.authorizationId == before.authorizationId
            && 0 <= p.cursor && before.cursor <= p.cursor
            && (p.state == before.state || before.state in PublicationBefore(p.state))
            && (p.haltReason.Some? <==> p.state.PubHalted?)
            && (p.haltReason.Some? ==> 1 <= |p.haltReason.value| <= 200)
            && (p.failedStepIndex.Some? ==> p.state.PubHalted? && p.failedStepIndex.value >= 0)
            && (p.finishedAt.Some? ==>
                  (p.state.PubHalted? || p.state.PubCompleted?) && p.startedAt <= p.finishedAt.value)
  {
  }

  /** The statement removes the step, by itself or with its publication. */
  predicate Deletes(e: Statement, k: Key) {
    e == DeleteStep(k) || e == DeletePublication(k.publication)
  }

  /** For as long as a step's row exists, its place in the plan never changes, done stays done, and
      the entity confirmed as created stays the one confirmed. */
  lemma {:induction false} ReceiptsAreFinal(t: Tables, statements: seq<Statement>, k: Key)
    requires k in t.steps && forall n :: 0 <= n < |statements| ==> !Deletes(statements[n], k)
    ensures var t' := Run(t, statements);
            && k in t'.steps && SamePlan(t.steps[k], t'.steps[k])
            && (t.steps[k].state.Done? ==> t'.steps[k].state.Done?)
            && (t.steps[k].createdEntityRef.Some? ==> t'.steps[k].createdEntityRef == t.steps[k].createdEntityRef)
  {
    if statements != [] {
      var init := statements[..|statements| - 1];
      ReceiptsAreFinal(t, init, k);
    }
  }

  /** The state hash confirmed with the receipt is not protected likewise: a done step accepts any
      other hash. */
  lemma ConfirmedHashMayChange(t: Tables, k: Key, hash: string)
    requires RowsChecked(t) && ActivationLast(t.steps)
    requires k in t.steps && t.steps[k].state.Done? && !t.steps[k].kind.UploadCreative?
    ensures Accepts(t, UpdateStep(k, t.steps[k].(confirmedStateHash := Some(hash))))
  {
    var s := t.steps[k].(confirmedStateHash := Some(hash));
    assert s.kind.ActivateCampaign? ==> !AnyAfter(t.steps, k);
    assert StepChecks(t.steps[k]);
  }

  /** Once every step of a publication is done, its activation among them, no statement changes the
      state of any of its steps, and no step can be added above them. */
  lemma FinishedIsFinal(t: Tables, e: Statement, a: Key)
    requires ActivationLast(t.steps) && a in t.steps && t.steps[a].kind.ActivateCampaign?
    requires forall k :: k in t.steps && k.publication == a.publication ==> t.steps[k].state.Done?
    requires Accepts(t, e)
    ensures e.UpdateStep? && e.key.publication == a.publication ==> e.step.state == t.steps[e.key].state
    ensures e.InsertStep? && e.key.publication == a.publication ==> InsertsBeneathStarted(t, e)
  {
    if e.InsertStep? && e.key.publication == a.publication {
      assert e.key.index != a.index by {
        assert e.key == Key(e.key.publication, e.key.index) && a == Key(a.publication, a.index);
      }
    }
  }

  // ---------------------------------------------------------------------------
  // Publications
  // ---------------------------------------------------------------------------

  /** `b` is what `a` can become: same package and signature, a cursor no smaller, and completion
      final. */
  ghost predicate Evolves(a: Publication, b: Publication) {
    && a.packageId == b.packageId && a.authorizationId == b.authorizationId && a.cursor <= b.cursor
    && (a.state.PubCompleted? ==> b.state.PubCompleted?)
    && (b.state.PubPending? ==> a.state.PubPending?)
  }

  lemma {:induction false} PublicationsEvolve(t: Tables, statements: seq<Statement>, id: Id)
    requires id in t.publications
    requires forall n :: 0 <= n < |statements| ==> statements[n] != DeletePublication(id)
    ensures id in Run(t, statements).publications
         && Evolves(t.publications[id], Run(t, statements).publications[id])
  {
    if statements != [] {
      PublicationsEvolve(t, statements[..|statements| - 1], id);
    }
  }

  // ---------------------------------------------------------------------------
  // The hole
  // ---------------------------------------------------------------------------

  const UPLOAD_STEP := Step(UploadCreative, "image", None, Pending, None, None, None, None, None)

  /** Wherever a step was sent and a lower place is free, the triggers take a new step into it, and
      the sent step then runs above one that never started. Reachable already with one step: the
      upload at place 1, sent before place 0 is filled. */
  lemma LateInsertsAreAccepted(t: Tables, j: Key, k: Key)
    requires ActivationLast(t.steps)
    requires k in t.steps && Started(t.steps[k].state) && k.publication in t.publications
    requires j !in t.steps && j.publication == k.publication && j.index < k.index
    ensures InsertsBeneathStarted(t, InsertStep(j, UPLOAD_STEP))
    ensures !Ordered(Apply(t, InsertStep(j, UPLOAD_STEP)).steps)
  {
    assert !ActivationBefore(t.steps, j);
    var steps := Apply(t, InsertStep(j, UPLOAD_STEP)).steps;
    assert j in steps && k in steps && !steps[j].state.Done?;
  }

  lemma LateInsertIsReachable(publication: Publication)
    requires publication.state.PubPending? && PublicationChecks(publication)
    ensures var t := Run(EMPTY, [InsertPublication("p", publication), InsertStep(Key("p", 1), UPLOAD_STEP),
                                 UpdateStep(Key("p", 1), UPLOAD_STEP.(state := StepState.Running))]);
            && "p" in t.publications && Key("p", 0) !in t.steps
            && Key("p", 1) in t.steps && t.steps[Key("p", 1)].state.Running?
  {
    var e := [InsertPublication("p", publication), InsertStep(Key("p", 1), UPLOAD_STEP),
              UpdateStep(Key("p", 1), UPLOAD_STEP.(state := StepState.Running))];
    assert e[..2][..1] == e[..1] && e[..1][..0] == [];
    var t1 := Tables(map["p" := publication], map[]);
    assert Run(EMPTY, e[..1]) == t1;
    assert Run(EMPTY, e[..2]) == t1.(steps := map[Key("p", 1) := UPLOAD_STEP]);
  }

  // ---------------------------------------------------------------------------
  // The tables in place
  // ---------------------------------------------------------------------------

  /** The two tables and, per statement, the guards in the order in which the database runs them:
      row trigger, CHECKs, keys and indexes. */
  class PublicationTables {
    var publications: map<Id, Publication>
    var steps: map<Key, Step>

    function Value(): Tables
      reads this
    {
      Tables(publications, steps)
    }

    constructor ()
      ensures Value() == EMPTY
    {
      publications, steps := map[], map[];
    }

    method Insert(id: Id, p: Publication) returns (accepted: bool)
      modifies this
      ensures accepted == Accepts(old(Value()), InsertPublication(id, p))
      ensures Value() == Apply(old(Value()), InsertPublication(id, p))
    {
      if !p.state.PubPending? || !PublicationChecks(p) {
        return false;
      }
      if id in publications || PackageTaken(publications, id, p.packageId) {
        return false;
      }
      publications := publications[id := p];
      return true;
    }

    method Update(id: Id, p: Publication) returns (accepted: bool)
      modifies this
      ensures accepted == Accepts(old(Value()), UpdatePublication(id, p))
      ensures Value() == Apply(old(Value()), UpdatePublication(id, p))
    {
      if id !in publications {
        return false;
      }
      var before := publications[id];
      if p.packageId != before.packageId || p.authorizationId != before.authorizationId {
        return false;
      }
      if p.cursor < before.cursor {
        return false;
      }
      if p.state != before.state && !PublicationTransition(before.state, p.state) {
        return false;
      }
      if !PublicationChecks(p) {
        return false;
      }
      publications := publications[id := p];
      return true;
    }

    /** Deleting a publication takes its steps with it. */
    method Delete(id: Id) returns (accepted: bool)
      modifies this
      ensures accepted == Accepts(old(Value()), DeletePublication(id))
      ensures Value() == Apply(old(Value()), DeletePublication(id))
    {
      if id !in publications {
        return false;
      }
      steps := map k | k in steps && k.publication != id :: steps[k];
      publications := publications - {id};
      return true;
    }

    /** What inserts and updates of a step share: the order, activation last, the row's CHECKs and
        the index on running steps. */
    method Fits(k: Key, s: Step) returns (fits: bool)
      ensures fits == InOrder(steps, k, s)
    {
      if s.state.Running? && UnfinishedBefore(steps, k) {
        return false;
      }
      if s.kind.ActivateCampaign? && AnyAfter(steps, k) {
        return false;
      }
      if ActivationBefore(steps, k) {
        return false;
      }
      return StepChecks(s) && (s.state.Running? ==> !OtherRunning(steps, k));
    }

    method InsertStepRow(k: Key, s: Step) returns (accepted: bool)
      modifies this
      ensures accepted == Accepts(old(Value()), InsertStep(k, s))
      ensures Value() == Apply(old(Value()), InsertStep(k, s))
    {
      if !s.state.Pending? {
        return false;
      }
      var fits := Fits(k, s);
      if !fits || k in steps || k.publication !in publications {
        return false;
      }
      steps := steps[k := s];
      return true;
    }

    method UpdateStepRow(k: Key, s: Step) returns (accepted: bool)
      modifies this
      ensures accepted == Accepts(old(Value()), UpdateStep(k, s))
      ensures Value() == Apply(old(Value()), UpdateStep(k, s))
    {
      if k !in steps {
        return false;
      }
      var before := steps[k];
      if !SamePlan(before, s) {
        return false;
      }
      if before.createdEntityRef.Some? && s.createdEntityRef != before.createdEntityRef {
        return false;
      }
      if s.state != before.state && !StepTransition(before.state, s.state) {
        return false;
      }
      var fits := Fits(k, s);
      if !fits {
        return false;
      }
      steps := steps[k := s];
      return true;
    }

    method DeleteStepRow(k: Key) returns (accepted: bool)
      modifies this
      ensures accepted == Accepts(old(Value()), DeleteStep(k))
      ensures Value() == Apply(old(Value()), DeleteStep(k))
    {
      if k !in steps {
        return false;
      }
      steps := steps - {k};
      return true;
    }
  }
}
