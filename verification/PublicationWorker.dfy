/** The worker that runs an approved publication, one step at a time, on top of the guarded tables:
    what one cycle writes, what of it survives when its tail is lost, and what resuming, undoing and
    editing do to the same rows. The tables alone do not tie a publication's state to its steps, nor
    keep steps from being inserted out of order; the worker does both.

    A cycle is not one transaction. The chokepoint that carries out a step works on the cycle's own
    session and commits it, once its gates are passed and again before and after the platform is
    called, so that a rollback undoes only what came after the last of those commits.

    What the platform reports, the checks made before a step, the approvals and proposals that stand
    when a step is signed, the entity registry, the clock and the moment a cycle breaks off are inputs
    of each cycle. */
module PublicationWorker {
  import opened Wrappers
  import opened PublicationSaga
  import P = CampaignPackages
  import SC = SignedContext

  /** One entry of the signed plan. An upload has the checksum of what it uploads. */
  datatype Template = Template(
    kind: Kind, localRef: string, parentLocalRef: Option<string>, expectedDone: Option<int>, dependsOn: seq<string>,
    checksum: Option<string>)

  type Plan = seq<Template>

  datatype Verdict = StepDone | StepUnknown | StepFailed | StepBlocked

  /** What the step executor reads back once the platform was called. */
  datatype Report = Report(
    verdict: Verdict, createdEntityRef: Option<string>, outcomeCode: Option<string>,
    confirmedStateHash: Option<string>)

  /** What the executions say of a step's write: reserved at most, sent with its effect open, or over
      with what was reported. */
  datatype Status = Held | Called | Ended(report: Report)

  /** An execution under a step's idempotency key, and the proposal it carries out. */
  datatype Claim = Claim(proposalId: Id, status: Status)

  /** The rows one publication's worker reads and writes. Idempotency keys are one to one with step
      keys, and unique. */
  datatype World = World(tables: Tables, package: P.PackageState, claims: map<Key, Claim>)

  /** The executor turns a step down before it proposes anything. */
  datatype Denial = Denial(blocked: bool, code: string)

  /** How much of a cycle the chokepoint committed on its way: nothing, the execution with its
      reservation, that the platform is being called, or that it confirmed the write. */
  datatype Reach = Uncommitted | Reserved | Dispatched | Settled

  /** What a new step is signed with: the repository that writes its approval, the proposals and
      approvals that stand when it does, the approval's id, hash and expiry. */
  datatype Signing = Signing(
    repository: SC.Repository, context: SC.Tables, authorizationId: Id, diffHash: string, expiresAt: int)

  /** What one cycle finds outside the tables. An interrupted cycle is one in which the executor or the
      database raises an error, or the worker stops. */
  datatype Cycle = Cycle(
    now: int, preflight: Option<string>, adRefs: set<string>, denial: Option<Denial>, proposalId: Id,
    signing: Signing, report: Report, registryMisses: bool, reach: Reach, interrupted: bool)

  /** A cycle commits to its end, or rolls back because a write was rejected or it was interrupted, or
      rolls back because the package itself rejected a transition. */
  datatype Attempt = Committed(world: World) | Rejected | Broken

  const UNDO_GRACE := 45

  // ---------------------------------------------------------------------------
  // Single writes
  // ---------------------------------------------------------------------------

  function Write(t: Tables, e: Statement): Option<Tables> {
    if Accepts(t, e) then Some(Apply(t, e)) else None
  }

  /** An UPDATE of the columns that report an outcome, or else an INSERT. */
  function Upsert(t: Tables, k: Key, s: Step): (r: Option<Tables>)
    ensures r.Some? ==> r.value.publications == t.publications
  {
    if k in t.steps then
      var row := t.steps[k];
      Write(t, UpdateStep(k, s.(kind := row.kind, localRef := row.localRef, parentLocalRef := row.parentLocalRef)))
    else Write(t, InsertStep(k, s))
  }

  function Advance(t: Tables, id: Id, cursor: int, state: PublicationState, haltReason: Option<string>,
                   failedStepIndex: Option<int>, finishedAt: Option<int>): Option<Tables>
    requires id in t.publications
  {
    Write(t, UpdatePublication(id, t.publications[id].(
      cursor := cursor, state := state, haltReason := haltReason, failedStepIndex := failedStepIndex,
      finishedAt := finishedAt)))
  }

  function Record(p: Template, state: StepState, proposalId: Option<Id>): Step {
    Step(p.kind, p.localRef, p.parentLocalRef, state, None, proposalId, None, None, None)
  }

  function StateOf(v: Verdict): StepState {
    match v
    case StepDone => Done
    case StepUnknown => Unknown
    case StepFailed => StepState.Failed
    case StepBlocked => Blocked
  }

  function CurrentState(t: Tables, k: Key): StepState {
    if k in t.steps then t.steps[k].state else Pending
  }

  function KnownProposal(t: Tables, k: Key): Option<Id> {
    if k in t.steps then t.steps[k].proposalId else None
  }

  function ProposalOf(t: Tables, k: Key, sent: Option<Id>): Option<Id> {
    if KnownProposal(t, k).Some? then KnownProposal(t, k) else sent
  }

  /** A step that failed before cannot become blocked, so that is archived as failed. */
  function Target(current: StepState, v: Verdict): StepState {
    if current.Failed? && v.StepBlocked? then StepState.Failed else StateOf(v)
  }

  /** The row as the report leaves it. */
  function Outcome(t: Tables, k: Key, p: Template, r: Report, sent: Option<Id>): Step {
    Step(p.kind, p.localRef, p.parentLocalRef, Target(CurrentState(t, k), r.verdict), r.createdEntityRef,
         ProposalOf(t, k, sent), None, r.outcomeCode, r.confirmedStateHash)
  }

  /** The columns of a step row take the report: receipts come with done steps only, no entity from an
      activation, no state hash from an upload, and the code has room in its column. Codes that are
      joined from several reasons, or built from an error's name, may not. */
  predicate Storable(kind: Kind, r: Report) {
    && (r.createdEntityRef.Some? ==> r.verdict.StepDone? && !kind.ActivateCampaign?)
    && (r.confirmedStateHash.Some? ==> r.verdict.StepDone? && !kind.UploadCreative?)
    && Length(r.outcomeCode, 64)
  }

  predicate PassesThroughRunning(t: Tables, k: Key, r: Report) {
    (r.verdict.StepDone? || r.verdict.StepUnknown?) && !CurrentState(t, k).Unknown?
  }

  /** The pending row, if there is none. */
  function Open(t: Tables, k: Key, p: Template): (r: Option<Tables>)
    ensures r.Some? ==> r.value.publications == t.publications
  {
    if k in t.steps then Some(t) else Upsert(t, k, Record(p, Pending, None))
  }

  /** After the pending row, a passage through running where the guard demands one, then the outcome. */
  function Persist(t: Tables, k: Key, p: Template, r: Report, sent: Option<Id>): (t': Option<Tables>)
    ensures t'.Some? ==> t'.value.publications == t.publications
  {
    var t0 := Open(t, k, p);
    if t0.None? then None
    else
      var running := Record(p, StepState.Running, ProposalOf(t, k, sent));
      var t1 := if PassesThroughRunning(t, k, r) then Upsert(t0.value, k, running) else t0;
      if t1.None? then None else Upsert(t1.value, k, Outcome(t, k, p, r, sent))
  }

  // ---------------------------------------------------------------------------
  // The step executor
  // ---------------------------------------------------------------------------

  /** The executor turns down a step that was not sent before. Uploads go past all of this: nothing is
      proposed for them. */
  predicate Denies(t: Tables, k: Key, p: Template, x: Cycle) {
    !p.kind.UploadCreative? && KnownProposal(t, k).None? && x.denial.Some?
  }

  /** A new proposal is made for the step, as its row knows of none. */
  predicate Proposes(t: Tables, k: Key, p: Template, x: Cycle) {
    !p.kind.UploadCreative? && KnownProposal(t, k).None? && x.denial.None?
  }

  /** The approval of a new proposal is written and taken; it derives from the person's approval of the
      publication. */
  predicate AuthorizedBy(human: Id, x: Cycle) {
    SC.Accepts(x.signing.context, SC.InsertApproval(
      x.signing.authorizationId,
      SC.Written(x.signing.repository,
                 SC.StepApproval(x.proposalId, human, x.signing.diffHash, x.now, x.signing.expiresAt))))
  }

  predicate Authorizes(t: Tables, k: Key, x: Cycle) {
    k.publication in t.publications && AuthorizedBy(t.publications[k.publication].authorizationId, x)
  }

  /** The new proposal gets no approval, or its execution meets the unique idempotency key of an earlier
      one. */
  predicate TurnsDown(w: World, k: Key, p: Template, x: Cycle) {
    Proposes(w.tables, k, p, x) && (!Authorizes(w.tables, k, x) || k in w.claims)
  }

  predicate IsOver(claims: map<Key, Claim>, k: Key) {
    k in claims && claims[k].status.Ended?
  }

  /** The chokepoint takes the step up, for the first time or, while its execution is not over, to find
      out what became of it. */
  predicate TakesUp(w: World, k: Key, p: Template, x: Cycle) {
    && !p.kind.UploadCreative?
    && (if KnownProposal(w.tables, k).Some? then !IsOver(w.claims, k)
        else x.denial.None? && k !in w.claims && Authorizes(w.tables, k, x))
  }

  /** An execution that is over is only read again. */
  function Heard(w: World, k: Key, p: Template, x: Cycle): Report {
    if p.kind.UploadCreative? then x.report
    else if KnownProposal(w.tables, k).Some? then (if IsOver(w.claims, k) then w.claims[k].status.report else x.report)
    else if x.denial.Some? then
      Report(if x.denial.value.blocked then StepBlocked else StepFailed, None, Some(x.denial.value.code), None)
    else x.report
  }

  /** The proposal that comes back with the report. */
  function Sent(t: Tables, k: Key, p: Template, x: Cycle): Option<Id> {
    if p.kind.UploadCreative? then None
    else if KnownProposal(t, k).Some? then KnownProposal(t, k)
    else if x.denial.Some? then None
    else Some(x.proposalId)
  }

  function StatusHeard(r: Report): Status {
    if r.verdict.StepUnknown? then Called else Ended(r)
  }

  function StatusReached(x: Cycle): Status {
    if x.reach.Settled? && x.report.verdict.StepDone? then Ended(x.report)
    else if x.reach.Reserved? then Held
    else Called
  }

  /** The executions once the executor has reported. */
  function ClaimsHeard(w: World, k: Key, p: Template, x: Cycle): map<Key, Claim> {
    if TakesUp(w, k, p, x) then w.claims[k := Claim(Sent(w.tables, k, p, x).value, StatusHeard(x.report))] else w.claims
  }

  /** The executions as the chokepoint last committed them before the report. */
  function ClaimsCut(w: World, k: Key, p: Template, x: Cycle): map<Key, Claim>
    requires TakesUp(w, k, p, x)
  {
    w.claims[k := Claim(Sent(w.tables, k, p, x).value, StatusReached(x))]
  }

  // ---------------------------------------------------------------------------
  // What a step needs from the steps before it
  // ---------------------------------------------------------------------------

  predicate DoneAt(steps: map<Key, Step>, id: Id, i: int) {
    i >= 0 && Key(id, i) in steps && steps[Key(id, i)].state.Done?
  }

  predicate Present(s: Option<string>) {
    s.Some? && s.value != ""
  }

  predicate ReceiptAt(steps: map<Key, Step>, id: Id, i: int) {
    DoneAt(steps, id, i) && Present(steps[Key(id, i)].createdEntityRef)
  }

  predicate IsParent(plan: Plan, i: int, j: int)
    requires 0 <= i < |plan| && plan[i].parentLocalRef.Some?
  {
    0 <= j < i && plan[j].localRef == plan[i].parentLocalRef.value
  }

  predicate OneParent(plan: Plan, i: int)
    requires 0 <= i < |plan|
  {
    plan[i].parentLocalRef.Some? ==>
      exists j :: 0 <= j < i && IsParent(plan, i, j) && forall m :: 0 <= m < i && IsParent(plan, i, m) ==> m == j
  }

  predicate ParentReady(plan: Plan, id: Id, steps: map<Key, Step>, i: int)
    requires 0 <= i < |plan|
  {
    plan[i].parentLocalRef.Some? ==> exists j :: 0 <= j < i && IsParent(plan, i, j) && ReceiptAt(steps, id, j)
  }

  predicate FirstWith(plan: Plan, localRef: string, j: int) {
    0 <= j < |plan| && plan[j].localRef == localRef && forall m :: 0 <= m < j ==> plan[m].localRef != localRef
  }

  predicate SourcesReady(plan: Plan, id: Id, steps: map<Key, Step>, i: int)
    requires 0 <= i < |plan|
  {
    forall r :: r in plan[i].dependsOn ==>
      exists j :: 0 <= j < |plan| && FirstWith(plan, r, j) && ReceiptAt(steps, id, j)
  }

  function AdsDone(plan: Plan, id: Id, steps: map<Key, Step>, adRefs: set<string>): set<nat> {
    set j: nat | j < |plan| && plan[j].localRef in adRefs && DoneAt(steps, id, j)
  }

  predicate StructureReady(plan: Plan, id: Id, steps: map<Key, Step>, i: int, adRefs: set<string>)
    requires 0 <= i < |plan|
  {
    plan[i].kind.ActivateCampaign? ==>
      plan[i].expectedDone.Some? && plan[i].expectedDone.value > 0
      && |AdsDone(plan, id, steps, adRefs)| == plan[i].expectedDone.value
  }

  /** Something the owner would see on the platform was created. */
  predicate VisibleDone(plan: Plan, id: Id, steps: map<Key, Step>) {
    exists j :: 0 <= j < |plan| && !plan[j].kind.UploadCreative? && DoneAt(steps, id, j)
  }

  // ---------------------------------------------------------------------------
  // One cycle
  // ---------------------------------------------------------------------------

  predicate InProgress(s: P.PackageState) {
    s.Publishing? || s.Verifying?
  }

  function Halt(plan: Plan, id: Id, w: World, reason: string, failed: Option<int>, now: int): Attempt
    requires id in w.tables.publications
  {
    var t := Advance(w.tables, id, w.tables.publications[id].cursor, PubHalted, Some(reason), failed, Some(now));
    if t.None? then Attempt.Rejected
    else if !InProgress(w.package) then Broken
    else
      var partial := VisibleDone(plan, id, t.value.steps) || w.package.Verifying?;
      Committed(World(t.value, if partial then P.PartiallyPublished else P.Failed, w.claims))
  }

  function Proceed(plan: Plan, id: Id, w: World, i: nat, now: int): Attempt
    requires id in w.tables.publications
  {
    var last := i + 1 >= |plan|;
    var t := Advance(w.tables, id, i + 1, if last then PubCompleted else PubRunning, None, None,
                     if last then Some(now) else None);
    if t.None? then Attempt.Rejected
    else if !last then Committed(World(t.value, w.package, w.claims))
    else if !InProgress(w.package) then Broken
    else Committed(World(t.value, P.Published, w.claims))
  }

  function Stay(id: Id, w: World): Attempt
    requires id in w.tables.publications
  {
    var t := Advance(w.tables, id, w.tables.publications[id].cursor, PubRunning, None, None, None);
    if t.None? then Attempt.Rejected
    else Committed(World(t.value, if w.package.Publishing? then P.Verifying else w.package, w.claims))
  }

  /** The outcome has to be known to the registry of entities before the next step. */
  predicate NeedsRegistry(kind: Kind, r: Report) {
    && r.verdict.StepDone? && Present(r.confirmedStateHash)
    && (kind.ActivateCampaign? || (!kind.UploadCreative? && Present(r.createdEntityRef)))
  }

  function RegistryReason(kind: Kind): string {
    if kind.ActivateCampaign? then "package_entity_activation_refresh_missing"
    else "package_entity_registration_parent_missing"
  }

  /** The cycle gets as far as calling the platform. */
  predicate Calls(plan: Plan, id: Id, steps: map<Key, Step>, i: int, adRefs: set<string>)
    requires 0 <= i < |plan|
  {
    StructureReady(plan, id, steps, i, adRefs) && OneParent(plan, i) && ParentReady(plan, id, steps, i)
    && SourcesReady(plan, id, steps, i)
  }

  function Conclude(plan: Plan, id: Id, w: World, i: nat, r: Report, x: Cycle): Attempt
    requires id in w.tables.publications && i < |plan|
  {
    if NeedsRegistry(plan[i].kind, r) && x.registryMisses then
      Halt(plan, id, w, RegistryReason(plan[i].kind), Some(i), x.now)
    else
      match r.verdict
      case StepDone => Proceed(plan, id, w, i, x.now)
      case StepUnknown => Stay(id, w)
      case _ => Halt(plan, id, w, if Present(r.outcomeCode) then r.outcomeCode.value else "step_failed", Some(i), x.now)
  }

  /** The step is sent, and its outcome archived. */
  function Send(w: World, k: Key, p: Template, x: Cycle): (r: Option<World>)
    ensures r.Some? ==> r.value.tables.publications == w.tables.publications
  {
    if TurnsDown(w, k, p, x) then None
    else
      var t := Persist(w.tables, k, p, Heard(w, k, p, x), Sent(w.tables, k, p, x));
      if t.None? then None else Some(World(t.value, w.package, ClaimsHeard(w, k, p, x)))
  }

  /** The step once everything it needs is there. */
  function Call(plan: Plan, id: Id, w: World, i: nat, x: Cycle): Attempt
    requires id in w.tables.publications && i < |plan|
  {
    var k, p := Key(id, i), plan[i];
    var w' := Send(w, k, p, x);
    if w'.None? then Attempt.Rejected
    else Conclude(plan, id, w'.value, i, Heard(w, k, p, x), x)
  }

  function ExecuteStep(plan: Plan, id: Id, w: World, x: Cycle): Attempt
    requires id in w.tables.publications
  {
    var i := w.tables.publications[id].cursor;
    if !(0 <= i < |plan|) then Attempt.Rejected
    else if !StructureReady(plan, id, w.tables.steps, i, x.adRefs) then
      Halt(plan, id, w, "structure_incomplete_before_activation", Some(i), x.now)
    else if !OneParent(plan, i) then Broken
    else if !ParentReady(plan, id, w.tables.steps, i) || !SourcesReady(plan, id, w.tables.steps, i) then
      Halt(plan, id, w, "package_parent_unconfirmed", Some(i), x.now)
    else Call(plan, id, w, i, x)
  }

  predicate OpenPublication(t: Tables, id: Id) {
    id in t.publications && (t.publications[id].state.PubPending? || t.publications[id].state.PubRunning?)
  }

  predicate InGrace(w: World, id: Id, now: int) {
    id in w.tables.publications && w.package.Approved? && now < w.tables.publications[id].startedAt + UNDO_GRACE
  }

  /** The first cycle after the grace moves the package on to publishing. */
  function Begin(w: World): World {
    if w.package.Approved? then w.(package := P.Publishing) else w
  }

  function ExecuteToEnd(plan: Plan, id: Id, w: World, x: Cycle): Attempt {
    if !OpenPublication(w.tables, id) || InGrace(w, id, x.now) then Committed(w)
    else if x.preflight.Some? then Halt(plan, id, Begin(w), x.preflight.value, None, x.now)
    else ExecuteStep(plan, id, Begin(w), x)
  }

  /** What becomes of the cycle as a whole, as if nothing of it were committed on the way. */
  function Execute(plan: Plan, id: Id, w: World, x: Cycle): Attempt {
    if x.interrupted then Attempt.Rejected else ExecuteToEnd(plan, id, w, x)
  }

  /** The cycle gets as far as the step executor. */
  predicate CallsExecutor(plan: Plan, id: Id, w: World, x: Cycle) {
    && OpenPublication(w.tables, id) && !InGrace(w, id, x.now) && x.preflight.None?
    && var i := w.tables.publications[id].cursor;
    && 0 <= i < |plan| && Calls(plan, id, w.tables.steps, i, x.adRefs)
  }

  /** The chokepoint commits what the cycle did up to then: from its gates on when the step is new, only
      with the confirmation when it finds out what became of it. */
  predicate Commits(w: World, k: Key, p: Template, x: Cycle) {
    && TakesUp(w, k, p, x) && Open(w.tables, k, p).Some?
    && (if KnownProposal(w.tables, k).Some? then x.reach.Settled? && x.report.verdict.StepDone?
        else !x.reach.Uncommitted?)
  }

  /** What it commits: the step's pending row and its execution. */
  function CommitPoint(w: World, k: Key, p: Template, x: Cycle): World
    requires Commits(w, k, p, x)
  {
    World(Open(w.tables, k, p).value, w.package, ClaimsCut(w, k, p, x))
  }

  predicate CommitsOnTheWay(plan: Plan, id: Id, w: World, x: Cycle) {
    && CallsExecutor(plan, id, w, x)
    && var i := w.tables.publications[id].cursor;
    && Commits(w, Key(id, i), plan[i], x)
  }

  /** What a rollback goes back to: the chokepoint's last commit if there was one, by which the package
      has begun to be published. */
  function Saved(plan: Plan, id: Id, w: World, x: Cycle): World {
    if CommitsOnTheWay(plan, id, w, x) then
      CommitPoint(Begin(w), Key(id, w.tables.publications[id].cursor), plan[w.tables.publications[id].cursor], x)
    else w
  }

  function AfterInternalError(id: Id, w: World, now: int): World {
    if id !in w.tables.publications then w
    else
      var t := Advance(w.tables, id, w.tables.publications[id].cursor, PubHalted,
                       Some("package_publication_internal_error"), None, Some(now));
      if t.None? then w else w.(tables := t.value)
  }

  /** After a rollback the publication is halted if it was the package that refused; otherwise the
      next cycle tries again. */
  function AfterCycle(plan: Plan, id: Id, w: World, x: Cycle): World {
    match Execute(plan, id, w, x)
    case Committed(w') => w'
    case Rejected => Saved(plan, id, w, x)
    case Broken => AfterInternalError(id, Saved(plan, id, w, x), x.now)
  }

  // ---------------------------------------------------------------------------
  // What else happens to the same rows
  // ---------------------------------------------------------------------------

  predicate Resumable(w: World, id: Id) {
    && id in w.tables.publications
    && (w.package.PartiallyPublished? || w.package.Verifying?)
    && var state := w.tables.publications[id].state;
    && (state.PubHalted? || (state.PubRunning? && w.package.Verifying?))
  }

  function AfterResume(id: Id, w: World): World {
    if !Resumable(w, id) then w
    else
      var t := Advance(w.tables, id, w.tables.publications[id].cursor, PubRunning, None, None, None);
      if t.None? then w
      else World(t.value, if w.package.PartiallyPublished? then P.Publishing else w.package, w.claims)
  }

  /** Undo within the grace. */
  function AfterCancel(id: Id, w: World, now: int): World {
    if !InGrace(w, id, now) then w
    else
      var t := Advance(w.tables, id, w.tables.publications[id].cursor, PubHalted, Some("cancelled_by_owner"), None,
                       Some(now));
      if t.None? then w else World(t.value, P.Invalidated, w.claims)
  }

  datatype Event =
    | WorkerCycle(cycle: Cycle)
    | Resume
    | Cancel(now: int)
    | EditCreative

  function After(plan: Plan, id: Id, w: World, e: Event): World {
    match e
    case WorkerCycle(x) => AfterCycle(plan, id, w, x)
    case Resume => AfterResume(id, w)
    case Cancel(now) => AfterCancel(id, w, now)
    case EditCreative => if w.package.Approved? then w.(package := P.Invalidated) else w
  }

  function RunFrom(plan: Plan, id: Id, w: World, events: seq<Event>): World {
    if events == [] then w
    else After(plan, id, RunFrom(plan, id, w, events[..|events| - 1]), events[|events| - 1])
  }

  // ---------------------------------------------------------------------------
  // What every run keeps
  // ---------------------------------------------------------------------------

  /** A plan as it was signed: activation last, and only there. */
  predicate Signed(plan: Plan) {
    && |plan| >= 3 && plan[|plan| - 1].kind.ActivateCampaign?
    && forall i :: 0 <= i < |plan| - 1 ==> !plan[i].kind.ActivateCampaign?
  }

  predicate Follows(s: Step, p: Template) {
    s.kind == p.kind && s.localRef == p.localRef && s.parentLocalRef == p.parentLocalRef
  }

  /** The rows of one publication: below the cursor everything is done, above it there is nothing, and
      at the cursor nothing is left running. */
  ghost predicate RowsKept(plan: Plan, id: Id, t: Tables) {
    && id in t.publications
    && 0 <= t.publications[id].cursor <= |plan|
    && (forall i: nat {:trigger Key(id, i)} :: i < t.publications[id].cursor ==>
          Key(id, i) in t.steps && t.steps[Key(id, i)].state.Done?)
    && (forall k :: k in t.steps && k.publication == id ==>
          && k.index <= t.publications[id].cursor && k.index < |plan|
          && Follows(t.steps[k], plan[k.index])
          && !t.steps[k].state.Running?)
  }

  /** A row that knows its proposal is in doubt while the execution is open, and says how it ended
      after; only a confirmation may reach the executions first. */
  predicate StatusMatches(state: StepState, status: Status) {
    match status
    case Held => false
    case Called => state.Unknown?
    case Ended(r) =>
      match r.verdict
      case StepDone => state.Done? || state.Unknown?
      case StepUnknown => false
      case _ => state.Failed? || state.Blocked?
  }

  /** A step's row and its execution: a row knows only the proposal that the execution carries out. A
      row that does not know it was neither done nor in doubt, and a row is left pending only then. */
  predicate ClaimMatches(s: Step, claim: Option<Claim>) {
    && (s.proposalId.Some? ==>
          claim.Some? && claim.value.proposalId == s.proposalId.value && StatusMatches(s.state, claim.value.status))
    && (claim.Some? ==> !s.kind.UploadCreative?)
    && (s.proposalId.None? && !s.kind.UploadCreative? ==> !s.state.Done? && !s.state.Unknown?)
    && (s.state.Pending? ==> claim.Some? && s.proposalId.None?)
  }

  function ClaimAt(claims: map<Key, Claim>, k: Key): Option<Claim> {
    if k in claims then Some(claims[k]) else None
  }

  ghost predicate ClaimsKept(id: Id, steps: map<Key, Step>, claims: map<Key, Claim>) {
    && (forall k :: k in claims && k.publication == id ==> k in steps)
    && (forall k :: k in steps && k.publication == id ==> ClaimMatches(steps[k], ClaimAt(claims, k)))
  }

  ghost predicate Kept(plan: Plan, id: Id, w: World) {
    && RowsKept(plan, id, w.tables) && ClaimsKept(id, w.tables.steps, w.claims)
    && var pub := w.tables.publications[id];
    && (pub.state.PubCompleted? <==> pub.cursor == |plan|)
    && (pub.state.PubCompleted? <==> w.package.Published?)
    && (pub.state.PubPending? ==> pub.cursor == 0)
  }

  /** The world an approval leaves behind. */
  ghost predicate Fresh(id: Id, w: World) {
    && id in w.tables.publications && w.tables.publications[id].state.PubPending?
    && w.tables.publications[id].cursor == 0 && w.package.Approved?
    && (forall k :: k in w.tables.steps ==> k.publication != id)
    && (forall k :: k in w.claims ==> k.publication != id)
  }

  lemma FreshIsKept(plan: Plan, id: Id, w: World)
    requires Signed(plan) && Fresh(id, w)
    ensures Kept(plan, id, w)
  {
  }

  /** The row after an upsert: its plan is the first that was recorded. */
  function Upserted(t: Tables, k: Key, s: Step): Step {
    if k in t.steps then
      s.(kind := t.steps[k].kind, localRef := t.steps[k].localRef, parentLocalRef := t.steps[k].parentLocalRef)
    else s
  }

  lemma UpsertFacts(t: Tables, k: Key, s: Step)
    ensures var t' := Upsert(t, k, s);
            t'.Some? ==>
              && t'.value == t.(steps := t.steps[k := Upserted(t, k, s)]) && StepChecks(Upserted(t, k, s))
              && (k in t.steps && s.state != t.steps[k].state ==> StepTransition(t.steps[k].state, s.state))
  {
  }

  lemma PersistFacts(t: Tables, k: Key, p: Template, r: Report, sent: Option<Id>)
    ensures var t' := Persist(t, k, p, r, sent);
            t'.Some? ==>
              && t'.value.publications == t.publications
              && t'.value.steps == t.steps[k := t'.value.steps[k]]
              && t'.value.steps[k].state == Target(CurrentState(t, k), r.verdict)
              && t'.value.steps[k].proposalId == ProposalOf(t, k, sent)
              && t'.value.steps[k].createdEntityRef == r.createdEntityRef
              && (if k in t.steps then SamePlan(t.steps[k], t'.value.steps[k]) else Follows(t'.value.steps[k], p))
              && !CurrentState(t, k).Done? && Storable(t'.value.steps[k].kind, r)
  {
    var t0 := Open(t, k, p);
    UpsertFacts(t, k, Record(p, Pending, None));
    if t0.Some? {
      var running := Record(p, StepState.Running, ProposalOf(t, k, sent));
      UpsertFacts(t0.value, k, running);
      var t1 := if PassesThroughRunning(t, k, r) then Upsert(t0.value, k, running) else t0;
      if t1.Some? {
        UpsertFacts(t1.value, k, Outcome(t, k, p, r, sent));
      }
    }
  }

  lemma OpenFacts(t: Tables, k: Key, p: Template)
    ensures var t' := Open(t, k, p);
            t'.Some? ==>
              && t'.value.publications == t.publications
              && t'.value.steps == if k in t.steps then t.steps else t.steps[k := Record(p, Pending, None)]
  {
  }

  /** A step is the publication's next one, or was just called for and has reported. */
  ghost predicate AtStep(plan: Plan, id: Id, w: World) {
    && RowsKept(plan, id, w.tables) && ClaimsKept(id, w.tables.steps, w.claims)
    && w.tables.publications[id].cursor < |plan|
    && !w.tables.publications[id].state.PubCompleted? && !w.package.Published?
    && (w.tables.publications[id].state.PubPending? ==> w.tables.publications[id].cursor == 0)
  }

  lemma HaltKeeps(plan: Plan, id: Id, w: World, reason: string, failed: Option<int>, now: int)
    requires AtStep(plan, id, w)
    ensures var a := Halt(plan, id, w, reason, failed, now); a.Committed? ==> Kept(plan, id, a.world)
  {
  }

  lemma ProceedKeeps(plan: Plan, id: Id, w: World, i: nat, now: int)
    requires AtStep(plan, id, w) && w.tables.publications[id].cursor == i && DoneAt(w.tables.steps, id, i)
    ensures var a := Proceed(plan, id, w, i, now); a.Committed? ==> Kept(plan, id, a.world)
  {
  }

  lemma StayKeeps(plan: Plan, id: Id, w: World)
    requires AtStep(plan, id, w)
    ensures var a := Stay(id, w); a.Committed? ==> Kept(plan, id, a.world)
  {
  }

  lemma ConcludeKeeps(plan: Plan, id: Id, w: World, i: nat, r: Report, x: Cycle)
    requires AtStep(plan, id, w) && w.tables.publications[id].cursor == i
    requires r.verdict.StepDone? ==> DoneAt(w.tables.steps, id, i)
    ensures var a := Conclude(plan, id, w, i, r, x); a.Committed? ==> Kept(plan, id, a.world)
  {
    if NeedsRegistry(plan[i].kind, r) && x.registryMisses {
      HaltKeeps(plan, id, w, RegistryReason(plan[i].kind), Some(i), x.now);
    } else if r.verdict.StepDone? {
      ProceedKeeps(plan, id, w, i, x.now);
    } else if r.verdict.StepUnknown? {
      StayKeeps(plan, id, w);
    } else {
      HaltKeeps(plan, id, w, if Present(r.outcomeCode) then r.outcomeCode.value else "step_failed", Some(i), x.now);
    }
  }

  lemma SendFacts(w: World, k: Key, p: Template, x: Cycle)
    ensures var w' := Send(w, k, p, x);
            w'.Some? ==>
              && w'.value.package == w.package && w'.value.tables.publications == w.tables.publications
              && w'.value.tables.steps == w.tables.steps[k := w'.value.tables.steps[k]]
              && var row := w'.value.tables.steps[k];
              && row.state == Target(CurrentState(w.tables, k), Heard(w, k, p, x).verdict)
              && (!p.kind.UploadCreative? ==> row.proposalId == Sent(w.tables, k, p, x))
              && row.createdEntityRef == Heard(w, k, p, x).createdEntityRef
              && (if k in w.tables.steps then SamePlan(w.tables.steps[k], row) else Follows(row, p))
              && w'.value.claims == ClaimsHeard(w, k, p, x)
              && !CurrentState(w.tables, k).Done? && Storable(row.kind, Heard(w, k, p, x)) && !TurnsDown(w, k, p, x)
  {
    PersistFacts(w.tables, k, p, Heard(w, k, p, x), Sent(w.tables, k, p, x));
  }

  lemma RowsKeptAgain(plan: Plan, id: Id, t: Tables, t': Tables, i: nat)
    requires RowsKept(plan, id, t) && t.publications[id].cursor == i < |plan| && t'.publications == t.publications
    requires Key(id, i) in t'.steps && t'.steps == t.steps[Key(id, i) := t'.steps[Key(id, i)]]
    requires Follows(t'.steps[Key(id, i)], plan[i]) && !t'.steps[Key(id, i)].state.Running?
    ensures RowsKept(plan, id, t')
  {
  }

  lemma ClaimsKeptAgain(id: Id, steps: map<Key, Step>, claims: map<Key, Claim>, k: Key, row: Step,
                        claims': map<Key, Claim>)
    requires ClaimsKept(id, steps, claims) && k.publication == id
    requires claims' == claims || (k in claims' && claims' == claims[k := claims'[k]])
    requires ClaimMatches(row, ClaimAt(claims', k))
    ensures ClaimsKept(id, steps[k := row], claims')
  {
  }

  lemma SendMatches(plan: Plan, id: Id, w: World, i: nat, x: Cycle)
    requires AtStep(plan, id, w) && w.tables.publications[id].cursor == i
    ensures var k := Key(id, i);
            var w' := Send(w, k, plan[i], x);
            w'.Some? ==>
              && Follows(w'.value.tables.steps[k], plan[i])
              && ClaimMatches(w'.value.tables.steps[k], ClaimAt(w'.value.claims, k))
  {
    var k, p := Key(id, i), plan[i];
    SendFacts(w, k, p, x);
    if k in w.tables.steps {
      assert ClaimMatches(w.tables.steps[k], ClaimAt(w.claims, k)) && Follows(w.tables.steps[k], p);
    }
  }

  lemma SendKeeps(plan: Plan, id: Id, w: World, i: nat, x: Cycle)
    requires AtStep(plan, id, w) && w.tables.publications[id].cursor == i
    ensures var w' := Send(w, Key(id, i), plan[i], x);
            w'.Some? ==>
              && AtStep(plan, id, w'.value) && w'.value.tables.publications == w.tables.publications
              && (Heard(w, Key(id, i), plan[i], x).verdict.StepDone? <==> DoneAt(w'.value.tables.steps, id, i))
  {
    var k, p := Key(id, i), plan[i];
    SendFacts(w, k, p, x);
    SendMatches(plan, id, w, i, x);
    var w' := Send(w, k, p, x);
    if w'.Some? {
      RowsKeptAgain(plan, id, w.tables, w'.value.tables, i);
      ClaimsKeptAgain(id, w.tables.steps, w.claims, k, w'.value.tables.steps[k], w'.value.claims);
    }
  }

  lemma CallKeeps(plan: Plan, id: Id, w: World, i: nat, x: Cycle)
    requires AtStep(plan, id, w) && w.tables.publications[id].cursor == i
    ensures var a := Call(plan, id, w, i, x); a.Committed? ==> Kept(plan, id, a.world)
  {
    SendKeeps(plan, id, w, i, x);
    var w' := Send(w, Key(id, i), plan[i], x);
    if w'.Some? {
      ConcludeKeeps(plan, id, w'.value, i, Heard(w, Key(id, i), plan[i], x), x);
    }
  }

  lemma ExecuteStepKeeps(plan: Plan, id: Id, w: World, x: Cycle)
    requires AtStep(plan, id, w)
    ensures var a := ExecuteStep(plan, id, w, x); a.Committed? ==> Kept(plan, id, a.world)
  {
    var i := w.tables.publications[id].cursor;
    if !StructureReady(plan, id, w.tables.steps, i, x.adRefs) {
      HaltKeeps(plan, id, w, "structure_incomplete_before_activation", Some(i), x.now);
    } else if !OneParent(plan, i) {
    } else if !ParentReady(plan, id, w.tables.steps, i) || !SourcesReady(plan, id, w.tables.steps, i) {
      HaltKeeps(plan, id, w, "package_parent_unconfirmed", Some(i), x.now);
    } else {
      CallKeeps(plan, id, w, i, x);
    }
  }

  lemma ExecuteKeeps(plan: Plan, id: Id, w: World, x: Cycle)
    requires Kept(plan, id, w)
    ensures var a := Execute(plan, id, w, x); a.Committed? ==> Kept(plan, id, a.world)
  {
    if x.interrupted || !OpenPublication(w.tables, id) || InGrace(w, id, x.now) {
    } else if x.preflight.Some? {
      HaltKeeps(plan, id, Begin(w), x.preflight.value, None, x.now);
    } else {
      ExecuteStepKeeps(plan, id, Begin(w), x);
    }
  }

  /** What the chokepoint commits on its way is as sound as what a whole cycle leaves. */
  lemma SavedKeeps(plan: Plan, id: Id, w: World, x: Cycle)
    requires Kept(plan, id, w)
    ensures Kept(plan, id, Saved(plan, id, w, x))
    ensures Saved(plan, id, w, x).tables.publications == w.tables.publications
  {
    if CommitsOnTheWay(plan, id, w, x) {
      var i := w.tables.publications[id].cursor;
      var k, p := Key(id, i), plan[i];
      OpenFacts(w.tables, k, p);
      var row := if k in w.tables.steps then w.tables.steps[k] else Record(p, Pending, None);
      var w' := Saved(plan, id, w, x);
      assert w'.tables.steps == w.tables.steps[k := row];
      RowsKeptAgain(plan, id, w.tables, w'.tables, i);
      ClaimsKeptAgain(id, w.tables.steps, w.claims, k, row, w'.claims);
    }
  }

  lemma InternalErrorKeeps(plan: Plan, id: Id, w: World, now: int)
    requires Kept(plan, id, w)
    ensures Kept(plan, id, AfterInternalError(id, w, now))
  {
  }

  lemma CycleKeeps(plan: Plan, id: Id, w: World, x: Cycle)
    requires Kept(plan, id, w)
    ensures Kept(plan, id, AfterCycle(plan, id, w, x))
  {
    ExecuteKeeps(plan, id, w, x);
    SavedKeeps(plan, id, w, x);
    var a := Execute(plan, id, w, x);
    if a.Broken? {
      InternalErrorKeeps(plan, id, Saved(plan, id, w, x), x.now);
    }
  }

  lemma OtherEventsKeep(plan: Plan, id: Id, w: World, e: Event)
    requires Kept(plan, id, w) && !e.WorkerCycle?
    ensures Kept(plan, id, After(plan, id, w, e))
  {
  }

  lemma {:induction false} RunKeeps(plan: Plan, id: Id, w: World, events: seq<Event>)
    requires Kept(plan, id, w)
    ensures Kept(plan, id, RunFrom(plan, id, w, events))
  {
    if events != [] {
      var before := RunFrom(plan, id, w, events[..|events| - 1]);
      RunKeeps(plan, id, w, events[..|events| - 1]);
      if events[|events| - 1].WorkerCycle? {
        CycleKeeps(plan, id, before, events[|events| - 1].cycle);
      } else {
        OtherEventsKeep(plan, id, before, events[|events| - 1]);
      }
    }
  }

  /** What the tables alone do not promise, the worker does, in every run from an approval, wherever
      its cycles break off: a publication is completed exactly when every step of the signed plan is
      done, which is exactly when the package counts as published; and the steps on record are those
      of the plan, up to the first one not done. */
  lemma CompletedMeansEveryStepDone(plan: Plan, id: Id, w: World, events: seq<Event>)
    requires Signed(plan) && Fresh(id, w)
    ensures var w' := RunFrom(plan, id, w, events);
            && id in w'.tables.publications
            && (w'.package.Published? <==> w'.tables.publications[id].state.PubCompleted?)
            && (w'.package.Published? ==> forall i :: 0 <= i < |plan| ==> DoneAt(w'.tables.steps, id, i))
            && (forall k :: k in w'.tables.steps && k.publication == id ==>
                  k.index < |plan| && Follows(w'.tables.steps[k], plan[k.index]))
  {
    FreshIsKept(plan, id, w);
    RunKeeps(plan, id, w, events);
  }

  /** The worker never inserts a step beneath a sent one: between events the order holds for its
      publication, whatever the rows of others. */
  lemma StepsRunInOrder(plan: Plan, id: Id, w: World, events: seq<Event>, j: Key, k: Key)
    requires Signed(plan) && Fresh(id, w)
    requires var t := RunFrom(plan, id, w, events).tables;
             j in t.steps && k in t.steps && j.publication == id && k.publication == id && j.index < k.index
    ensures RunFrom(plan, id, w, events).tables.steps[j].state.Done?
  {
    FreshIsKept(plan, id, w);
    RunKeeps(plan, id, w, events);
    var t := RunFrom(plan, id, w, events).tables;
    assert DoneAt(t.steps, id, j.index);
    assert j == Key(id, j.index);
  }

  // ---------------------------------------------------------------------------
  // Which cycles the guards let through
  // ---------------------------------------------------------------------------

  predicate WellFormed(p: Template) {
    1 <= |p.localRef| <= 64 && Length(p.parentLocalRef, 64) && HasParent(p.kind) == p.parentLocalRef.Some?
  }

  ghost predicate AllWellFormed(plan: Plan) {
    forall i :: 0 <= i < |plan| ==> WellFormed(plan[i])
  }

  lemma NextIsInOrder(plan: Plan, id: Id, w: World, i: nat, s: Step)
    requires Signed(plan) && AtStep(plan, id, w) && w.tables.publications[id].cursor == i
    requires s.kind == plan[i].kind && StepChecks(s)
    ensures InOrder(w.tables.steps, Key(id, i), s)
  {
    var k := Key(id, i);
    forall j | j in w.tables.steps && j.publication == id && j.index < i
      ensures w.tables.steps[j].state.Done? && !w.tables.steps[j].kind.ActivateCampaign?
    {
      assert j == Key(id, j.index);
    }
  }

  /** The same with the step's own row rewritten on the way. */
  lemma NextIsInOrderAgain(plan: Plan, id: Id, w: World, i: nat, row: Step, s: Step)
    requires Signed(plan) && AtStep(plan, id, w) && w.tables.publications[id].cursor == i
    requires s.kind == plan[i].kind && StepChecks(s)
    ensures InOrder(w.tables.steps[Key(id, i) := row], Key(id, i), s)
  {
    NextIsInOrder(plan, id, w, i, s);
    var steps, steps' := w.tables.steps, w.tables.steps[Key(id, i) := row];
    assert UnfinishedBefore(steps', Key(id, i)) ==> UnfinishedBefore(steps, Key(id, i));
    assert AnyAfter(steps', Key(id, i)) ==> AnyAfter(steps, Key(id, i));
    assert ActivationBefore(steps', Key(id, i)) ==> ActivationBefore(steps, Key(id, i));
    assert OtherRunning(steps', Key(id, i)) ==> OtherRunning(steps, Key(id, i));
  }

  /** The tables with another version of the publication's next row. */
  function WithRow(t: Tables, k: Key, s: Step): Tables {
    t.(steps := t.steps[k := s])
  }

  lemma PendingRowIsTaken(plan: Plan, id: Id, w: World, i: nat)
    requires Signed(plan) && AtStep(plan, id, w) && w.tables.publications[id].cursor == i && WellFormed(plan[i])
    requires Key(id, i) !in w.tables.steps
    ensures var s := Record(plan[i], Pending, None);
            Upsert(w.tables, Key(id, i), s) == Some(WithRow(w.tables, Key(id, i), s))
  {
    NextIsInOrder(plan, id, w, i, Record(plan[i], Pending, None));
  }

  lemma NewVersionIsTaken(plan: Plan, id: Id, w: World, i: nat, row: Step, s: Step)
    requires Signed(plan) && AtStep(plan, id, w) && w.tables.publications[id].cursor == i
    requires Follows(row, plan[i]) && Follows(s, plan[i]) && StepChecks(s)
    requires row.createdEntityRef.None? && (s.state == row.state || StepTransition(row.state, s.state))
    ensures Upsert(WithRow(w.tables, Key(id, i), row), Key(id, i), s) == Some(WithRow(w.tables, Key(id, i), s))
  {
    NextIsInOrderAgain(plan, id, w, i, row, s);
    var k, steps := Key(id, i), w.tables.steps;
    assert steps[k := row][k := s] == steps[k := s];
    assert s == s.(kind := row.kind, localRef := row.localRef, parentLocalRef := row.parentLocalRef);
  }

  lemma StorableIsTaken(plan: Plan, id: Id, w: World, i: nat, first: Step, r: Report, sent: Option<Id>)
    requires Signed(plan) && AtStep(plan, id, w) && w.tables.publications[id].cursor == i
    requires WellFormed(plan[i]) && Storable(plan[i].kind, r)
    requires Open(w.tables, Key(id, i), plan[i]) == Some(WithRow(w.tables, Key(id, i), first))
    requires Follows(first, plan[i]) && first.createdEntityRef.None?
    requires first.state == CurrentState(w.tables, Key(id, i))
    requires !first.state.Done? && !first.state.Running?
    ensures Persist(w.tables, Key(id, i), plan[i], r, sent).Some?
  {
    var k, p, t := Key(id, i), plan[i], w.tables;
    var last := Outcome(t, k, p, r, sent);
    if PassesThroughRunning(t, k, r) {
      var running := Record(p, StepState.Running, ProposalOf(t, k, sent));
      NewVersionIsTaken(plan, id, w, i, first, running);
      NewVersionIsTaken(plan, id, w, i, running, last);
    } else {
      NewVersionIsTaken(plan, id, w, i, first, last);
    }
  }

  /** The guards take what the worker writes about its next step, through as many rows as that takes,
      exactly when that step is not on record as done and the columns take the report. */
  lemma GuardsTakeEverythingButRepeats(plan: Plan, id: Id, w: World, i: nat, r: Report, sent: Option<Id>)
    requires Signed(plan) && AtStep(plan, id, w) && RowsChecked(w.tables)
    requires w.tables.publications[id].cursor == i && WellFormed(plan[i])
    ensures Persist(w.tables, Key(id, i), plan[i], r, sent).Some? <==>
            !DoneAt(w.tables.steps, id, i) && Storable(plan[i].kind, r)
    ensures Open(w.tables, Key(id, i), plan[i]).Some?
  {
    var k, p, t := Key(id, i), plan[i], w.tables;
    PersistFacts(t, k, p, r, sent);
    if k in t.steps {
      assert StepChecks(t.steps[k]);
      assert WithRow(t, k, t.steps[k]) == t by {
        assert t.steps[k := t.steps[k]] == t.steps;
      }
    } else {
      PendingRowIsTaken(plan, id, w, i);
    }
    if !DoneAt(t.steps, id, i) && Storable(p.kind, r) {
      StorableIsTaken(plan, id, w, i, if k in t.steps then t.steps[k] else Record(p, Pending, None), r, sent);
    }
  }

  lemma SendIsTaken(plan: Plan, id: Id, w: World, i: nat, x: Cycle)
    requires Signed(plan) && AtStep(plan, id, w) && RowsChecked(w.tables)
    requires w.tables.publications[id].cursor == i && WellFormed(plan[i])
    ensures var k, p := Key(id, i), plan[i];
            && (Send(w, k, p, x).Some? <==>
                !TurnsDown(w, k, p, x) && !DoneAt(w.tables.steps, id, i) && Storable(p.kind, Heard(w, k, p, x)))
            && Open(w.tables, k, p).Some?
  {
    var k, p := Key(id, i), plan[i];
    GuardsTakeEverythingButRepeats(plan, id, w, i, Heard(w, k, p, x), Sent(w.tables, k, p, x));
  }
}
