/** Proposals, approvals, executions and reservations, and the signed context that has to be the same
    along the chain from one to the next. Each table's triggers look at other tables when a row is
    written; what follows says what they keep together, and precisely where they do not. */
module SignedContext {
  import opened Wrappers
  import opened HashRotation

  type Id = string

  /** A managed binding, as the JSON document's text. */
  type Binding = Option<string>

  datatype Classification = Routine | Important | Critical

  datatype ProposalState =
    | Pending | Postponed | Approved | Scheduled | Executing | Executed | Rejected | Expired | Invalidated | Failed

  datatype Proposal = Proposal(
    entityRef: string, parameter: string, currentValue: string, proposedValue: string, diffHash: string,
    classification: Classification, state: ProposalState, postponedUntil: Option<int>,
    executionScheduledAt: Option<int>, binding: Binding)

  datatype Kind = HumanApproval | RuleAuthorization | PackageStep

  datatype Decision = Approves | Rejects | Revokes

  datatype SubjectKind = ProposalSubject | PackageSubject

  datatype Approval = Approval(
    proposalId: Option<Id>, subjectKind: Option<SubjectKind>, subjectId: Option<string>, kind: Kind, decision: Decision,
    diffHash: string, ruleId: Option<Id>, derivedFrom: Option<Id>, decidedAt: int, expiresAt: int, binding: Binding)

  datatype Outcome = Claimed | Running | Unknown | Finished

  datatype Execution = Execution(proposalId: Id, authorizationId: Id, outcome: Outcome)

  datatype Reservation = Reservation(active: bool, binding: Binding)

  /** Reservations are keyed by their execution. */
  datatype Tables = Tables(
    proposals: map<Id, Proposal>, approvals: map<Id, Approval>, executions: map<Id, Execution>,
    reservations: map<Id, Reservation>)

  const EMPTY := Tables(map[], map[], map[], map[])

  /** `inAccount`: the proposal's entity is one of the account that its binding names, as the entity and
      account tables stand at that moment. */
  datatype Statement =
    | InsertProposal(id: Id, proposal: Proposal, inAccount: bool)
    | UpdateProposal(id: Id, proposal: Proposal, inAccount: bool)
    | DeleteProposal(id: Id)
    | InsertApproval(id: Id, approval: Approval)
    | UpdateApproval(id: Id, approval: Approval)
    | DeleteApproval(id: Id)
    | InsertExecution(id: Id, execution: Execution)
    | UpdateExecution(id: Id, execution: Execution)
    | DeleteExecution(id: Id)
    | InsertReservation(id: Id, reservation: Reservation)
    | UpdateReservation(id: Id, reservation: Reservation)
    | DeleteReservation(id: Id)

  // ---------------------------------------------------------------------------
  // Proposals
  // ---------------------------------------------------------------------------

  predicate Live(s: ProposalState) {
    s.Pending? || s.Postponed? || s.Approved? || s.Scheduled?
  }

  predicate Transition(from: ProposalState, to: ProposalState) {
    match from
    case Pending => to.Postponed? || to.Approved? || to.Rejected? || to.Expired? || to.Invalidated?
    case Postponed => to.Pending? || to.Approved? || to.Rejected? || to.Expired? || to.Invalidated?
    case Approved => to.Scheduled? || to.Executing? || to.Invalidated? || to.Expired?
    case Scheduled => to.Executing? || to.Invalidated? || to.Rejected?
    case Executing => to.Executed? || to.Failed?
    case _ => false
  }

  predicate ProposalChecks(p: Proposal) {
    && (p.state.Scheduled? ==> p.executionScheduledAt.Some?)
    && (p.state.Postponed? ==> p.postponedUntil.Some?)
    && p.currentValue != p.proposedValue
  }

  predicate LiveTwin(proposals: map<Id, Proposal>, id: Id, p: Proposal) {
    exists i :: i in proposals && i != id && Live(proposals[i].state)
      && proposals[i].entityRef == p.entityRef && proposals[i].parameter == p.parameter
  }

  /** An approved or scheduled proposal goes back to pending with another value and another hash. */
  predicate IsRevision(before: Proposal, after: Proposal) {
    && (before.state.Approved? || before.state.Scheduled?) && after.state.Pending?
    && after.proposedValue != before.proposedValue && after.diffHash != before.diffHash
    && after.executionScheduledAt.None?
  }

  /** An execution of the proposal is under way, or still holds money. */
  predicate Unresolved(t: Tables, proposalId: Id) {
    exists e :: e in t.executions && t.executions[e].proposalId == proposalId
      && (t.executions[e].outcome.Running? || t.executions[e].outcome.Unknown?
          || (e in t.reservations && t.reservations[e].active))
  }

  predicate StateMoves(t: Tables, id: Id, before: Proposal, after: Proposal) {
    if IsRevision(before, after) then !Unresolved(t, id)
    else after.state != before.state ==> Transition(before.state, after.state)
  }

  predicate ProposalFits(t: Tables, id: Id, p: Proposal, inAccount: bool) {
    (p.binding.Some? ==> inAccount) && ProposalChecks(p) && (Live(p.state) ==> !LiveTwin(t.proposals, id, p))
  }

  predicate HasApproval(t: Tables, proposalId: Id) {
    exists a :: a in t.approvals && t.approvals[a].proposalId == Some(proposalId)
  }

  predicate HasExecution(t: Tables, proposalId: Id) {
    exists e :: e in t.executions && t.executions[e].proposalId == proposalId
  }

  // ---------------------------------------------------------------------------
  // Approvals
  // ---------------------------------------------------------------------------

  predicate NeedsPerson(c: Classification) {
    c.Important? || c.Critical?
  }

  /** What a step of a package may lean on. */
  predicate HumanPackageApproval(a: Approval) {
    a.kind.HumanApproval? && a.decision.Approves? && a.subjectKind == Some(PackageSubject)
  }

  predicate Chained(approvals: map<Id, Approval>, a: Approval) {
    a.kind.PackageStep? && a.derivedFrom.Some? && a.derivedFrom.value in approvals
      && HumanPackageApproval(approvals[a.derivedFrom.value])
  }

  /** A person signed, or a step leans on a person's signature of its package. */
  predicate Signed(approvals: map<Id, Approval>, a: Approval) {
    a.kind.HumanApproval? || Chained(approvals, a)
  }

  function BindingOfProposal(t: Tables, proposalId: Option<Id>): Binding {
    if proposalId.Some? && proposalId.value in t.proposals then t.proposals[proposalId.value].binding else None
  }

  predicate ApprovalChecks(a: Approval) {
    && a.expiresAt > a.decidedAt
    && (a.kind.RuleAuthorization? <==> a.ruleId.Some?)
    && (a.kind.PackageStep? <==> a.derivedFrom.Some?)
    && (a.proposalId.None? <==> a.subjectId.Some?)
  }

  predicate SameDecision(a: Approval, b: Approval) {
    && a.proposalId.Some? && a.proposalId == b.proposalId && a.diffHash == b.diffHash && a.kind == b.kind
    && a.decision.Approves? && b.decision.Approves?
  }

  predicate Decided(approvals: map<Id, Approval>, a: Approval) {
    exists i :: i in approvals && SameDecision(approvals[i], a)
  }

  predicate NeedsSignature(t: Tables, a: Approval) {
    && a.decision.Approves? && a.proposalId.Some? && a.proposalId.value in t.proposals
    && NeedsPerson(t.proposals[a.proposalId.value].classification)
  }

  predicate ApprovalFits(t: Tables, id: Id, a: Approval) {
    && (NeedsSignature(t, a) ==> Signed(t.approvals, a))
    && a.binding == BindingOfProposal(t, a.proposalId)
    && (a.binding.Some? ==> a.kind.HumanApproval?)
    && ApprovalChecks(a) && !Decided(t.approvals, a)
    && (a.proposalId.Some? ==> a.proposalId.value in t.proposals)
    && (a.derivedFrom.Some? ==> a.derivedFrom.value in t.approvals || a.derivedFrom.value == id)
  }

  // ---------------------------------------------------------------------------
  // Reservations
  // ---------------------------------------------------------------------------

  function BindingOfExecution(t: Tables, executionId: Id): Binding {
    if executionId in t.executions && t.executions[executionId].authorizationId in t.approvals
    then t.approvals[t.executions[executionId].authorizationId].binding
    else None
  }

  predicate ExecutionFits(t: Tables, e: Execution) {
    e.proposalId in t.proposals && e.authorizationId in t.approvals
  }

  // ---------------------------------------------------------------------------
  // Statements
  // ---------------------------------------------------------------------------

  predicate Accepts(t: Tables, s: Statement) {
    match s
    case InsertProposal(id, p, inAccount) => id !in t.proposals && ProposalFits(t, id, p, inAccount)
    case UpdateProposal(id, p, inAccount) =>
      && id in t.proposals
      && var before := t.proposals[id];
      && (p.proposedValue != before.proposedValue ==> p.diffHash != before.diffHash)
      && StateMoves(t, id, before, p)
      && p.binding == before.binding
      && ProposalFits(t, id, p, inAccount)
    case DeleteProposal(id) => id in t.proposals && !HasApproval(t, id) && !HasExecution(t, id)
    case InsertApproval(id, a) => id !in t.approvals && ApprovalFits(t, id, a)
    case UpdateApproval(_, _) => false
    case DeleteApproval(_) => false
    case InsertExecution(id, e) => id !in t.executions && ExecutionFits(t, e)
    case UpdateExecution(id, e) => id in t.executions && ExecutionFits(t, e)
    case DeleteExecution(id) => id in t.executions && id !in t.reservations
    case InsertReservation(id, r) =>
      id !in t.reservations && id in t.executions && r.binding == BindingOfExecution(t, id)
    case UpdateReservation(id, r) =>
      id in t.reservations && r.binding == t.reservations[id].binding && r.binding == BindingOfExecution(t, id)
    case DeleteReservation(id) => id in t.reservations
  }

  function Apply(t: Tables, s: Statement): Tables {
    if !Accepts(t, s) then t
    else
      match s
      case InsertProposal(id, p, _) => t.(proposals := t.proposals[id := p])
      case UpdateProposal(id, p, _) => t.(proposals := t.proposals[id := p])
      case DeleteProposal(id) => t.(proposals := t.proposals - {id})
      case InsertApproval(id, a) => t.(approvals := t.approvals[id := a])
      case UpdateApproval(_, _) => t
      case DeleteApproval(_) => t
      case InsertExecution(id, e) => t.(executions := t.executions[id := e])
      case UpdateExecution(id, e) => t.(executions := t.executions[id := e])
      case DeleteExecution(id) => t.(executions := t.executions - {id})
      case InsertReservation(id, r) => t.(reservations := t.reservations[id := r])
      case UpdateReservation(id, r) => t.(reservations := t.reservations[id := r])
      case DeleteReservation(id) => t.(reservations := t.reservations - {id})
  }

  function Run(t: Tables, statements: seq<Statement>): Tables {
    if statements == [] then t
    else Apply(Run(t, statements[..|statements| - 1]), statements[|statements| - 1])
  }

  function Upto(statements: seq<Statement>, n: nat): Tables
    requires n <= |statements|
  {
    Run(EMPTY, statements[..n])
  }

  lemma UptoStep(statements: seq<Statement>, n: nat)
    requires n < |statements|
    ensures Upto(statements, n + 1) == Apply(Upto(statements, n), statements[n])
  {
    assert statements[..n + 1][..n] == statements[..n];
  }

  // ---------------------------------------------------------------------------
  // From state to state
  // ---------------------------------------------------------------------------

  /** Where a proposal may have been right before it got to a state, its value unchanged. */
  function Before(to: ProposalState): set<ProposalState> {
    match to
    case Pending => {Postponed}
    case Postponed => {Pending}
    case Approved => {Pending, Postponed}
    case Scheduled => {ProposalState.Approved}
    case Executing => {ProposalState.Approved, Scheduled}
    case Executed => {Executing}
    case Rejected => {Pending, Postponed, Scheduled}
    case Expired => {Pending, Postponed, ProposalState.Approved}
    case Invalidated => {Pending, Postponed, ProposalState.Approved, Scheduled}
    case Failed => {Executing}
  }

  /** Without a revision, that is; a revision takes an approved or scheduled proposal back to pending. */
  predicate MayMove(from: ProposalState, to: ProposalState) {
    from in Before(to) || (to.Pending? && (from.Approved? || from.Scheduled?))
  }

  /** The last statement of the history takes the proposal from one state to another. */
  ghost predicate EndsWithMove(statements: seq<Statement>, id: Id, from: ProposalState, to: ProposalState) {
    && statements != []
    && var before, after := Run(EMPTY, statements[..|statements| - 1]), Run(EMPTY, statements);
    && id in before.proposals && before.proposals[id].state == from
    && id in after.proposals && after.proposals[id].state == to
  }

  function MovingProposal(state: ProposalState, revised: bool): Proposal {
    Proposal("campaign", "budget", "1", if revised then "3" else "2", if revised then "new" else "hash", Routine, state,
             Some(0), if revised then None else Some(0), None)
  }

  lemma MoveHappens(from: ProposalState, to: ProposalState)
    requires MayMove(from, to)
    ensures exists statements, id :: EndsWithMove(statements, id, from, to)
  {
    var insert := InsertProposal("p", MovingProposal(from, false), true);
    var update := UpdateProposal("p", MovingProposal(to, from !in Before(to)), true);
    assert [insert, update][..1] == [insert] && [insert][..0] == [];
    assert Run(EMPTY, []) == EMPTY;
    assert !LiveTwin(EMPTY.proposals, "p", insert.proposal);
    var t := Run(EMPTY, [insert]);
    assert t == Tables(map["p" := insert.proposal], map[], map[], map[]);
    assert !LiveTwin(t.proposals, "p", update.proposal) && !Unresolved(t, "p");
    assert Accepts(t, update);
    assert EndsWithMove([insert, update], "p", from, to);
  }

  lemma MovesAreMoves(t: Tables, s: Statement, id: Id)
    requires id in t.proposals && id in Apply(t, s).proposals
    ensures var from, to := t.proposals[id].state, Apply(t, s).proposals[id].state;
            && (from == to || MayMove(from, to))
            && (from == to || from in Before(to)
                || (t.proposals[id].proposedValue != Apply(t, s).proposals[id].proposedValue
                    && t.proposals[id].diffHash != Apply(t, s).proposals[id].diffHash))
  {
  }

  /** A proposal goes from one state to another, in some history from empty tables, if and only if it is
      one of those right before, or it is revised. */
  lemma MovesExactly(from: ProposalState, to: ProposalState)
    requires from != to
    ensures (exists statements, id :: EndsWithMove(statements, id, from, to)) <==> MayMove(from, to)
  {
    if MayMove(from, to) {
      MoveHappens(from, to);
    }
    if statements, id :| EndsWithMove(statements, id, from, to) {
      MovesAreMoves(Run(EMPTY, statements[..|statements| - 1]), statements[|statements| - 1], id);
    }
  }

  // ---------------------------------------------------------------------------
  // Which rows are taken
  // ---------------------------------------------------------------------------

  predicate Open(s: ProposalState) {
    s in {Pending, Postponed, ProposalState.Approved, Scheduled}
  }

  /** A proposal as it may stand among the others. */
  predicate Sound(t: Tables, id: Id, p: Proposal, inAccount: bool) {
    && (p.binding.None? || inAccount) && p.currentValue != p.proposedValue
    && (p.state.Scheduled? ==> p.executionScheduledAt.Some?) && (p.state.Postponed? ==> p.postponedUntil.Some?)
    && (Open(p.state) ==>
          forall i :: i in t.proposals && i != id && Open(t.proposals[i].state) ==>
            t.proposals[i].entityRef != p.entityRef || t.proposals[i].parameter != p.parameter)
  }

  lemma ProposalIsAddedExactly(t: Tables, id: Id, p: Proposal, inAccount: bool)
    ensures Accepts(t, InsertProposal(id, p, inAccount)) <==> id !in t.proposals && Sound(t, id, p, inAccount)
  {
  }

  /** An approved or scheduled proposal is reopened with another value under another hash, unscheduled and
      with none of its executions under way or holding money; any other update is a move or none. */
  lemma ProposalIsUpdatedExactly(t: Tables, id: Id, p: Proposal, inAccount: bool)
    requires id in t.proposals
    ensures var before := t.proposals[id];
            Accepts(t, UpdateProposal(id, p, inAccount)) <==>
            && Sound(t, id, p, inAccount) && p.binding == before.binding
            && (p.diffHash == before.diffHash ==> p.proposedValue == before.proposedValue)
            && if (before.state.Approved? || before.state.Scheduled?) && p.state.Pending? then
                 && p.proposedValue != before.proposedValue && p.executionScheduledAt.None?
                 && forall e :: e in t.executions && t.executions[e].proposalId == id ==>
                      && t.executions[e].outcome in {Claimed, Finished}
                      && (e in t.reservations ==> !t.reservations[e].active)
               else p.state == before.state || before.state in Before(p.state)
  {
  }

  lemma ProposalIsDeletedExactly(t: Tables, id: Id)
    ensures Accepts(t, DeleteProposal(id)) <==>
            && id in t.proposals
            && (forall a :: a in t.approvals ==> t.approvals[a].proposalId != Some(id))
            && (forall e :: e in t.executions ==> t.executions[e].proposalId != id)
  {
  }

  /** An approval with a proposal is of one that stands, and carries its binding; where that is important
      or critical, a person gives it, or it is a step that leans on a person's approval of a package; and
      it is given once per hash and kind. */
  lemma ApprovalIsTakenExactly(t: Tables, id: Id, a: Approval)
    ensures Accepts(t, InsertApproval(id, a)) <==>
            && id !in t.approvals && a.decidedAt < a.expiresAt
            && (a.ruleId.Some? <==> a.kind.RuleAuthorization?) && (a.derivedFrom.Some? <==> a.kind.PackageStep?)
            && (a.subjectId.Some? <==> a.proposalId.None?) && (a.binding.Some? ==> a.kind.HumanApproval?)
            && (a.derivedFrom.Some? ==> a.derivedFrom.value in t.approvals || a.derivedFrom.value == id)
            && match a.proposalId
               case None => a.binding.None?
               case Some(proposalId) =>
                 && proposalId in t.proposals && a.binding == t.proposals[proposalId].binding
                 && (a.decision.Approves? && !a.kind.HumanApproval?
                     && !t.proposals[proposalId].classification.Routine? ==>
                       && a.kind.PackageStep? && a.derivedFrom.value in t.approvals
                       && var human := t.approvals[a.derivedFrom.value];
                       && human.kind.HumanApproval? && human.decision.Approves?
                       && human.subjectKind == Some(PackageSubject))
                 && (a.decision.Approves? ==>
                       forall i :: i in t.approvals && t.approvals[i].proposalId == Some(proposalId)
                                   && t.approvals[i].decision.Approves? ==>
                         t.approvals[i].diffHash != a.diffHash || t.approvals[i].kind != a.kind)
  {
  }

  /** Executions are guarded by their foreign keys only. */
  lemma ExecutionIsTakenExactly(t: Tables, id: Id, e: Execution)
    ensures var refers := e.proposalId in t.proposals && e.authorizationId in t.approvals;
            && (Accepts(t, InsertExecution(id, e)) <==> refers && id !in t.executions)
            && (Accepts(t, UpdateExecution(id, e)) <==> refers && id in t.executions)
            && (Accepts(t, DeleteExecution(id)) <==> id in t.executions && id !in t.reservations)
  {
  }

  /** Where every execution names a proposal and an approval, as in every reachable state, a reservation is
      one of an execution and carries the binding of its approval. */
  lemma ReservationIsTakenExactly(t: Tables, id: Id, e: Execution, r: Reservation)
    requires id in t.executions && t.executions[id] == e && e.authorizationId in t.approvals
    ensures Accepts(t, InsertReservation(id, r)) <==>
            id !in t.reservations && r.binding == t.approvals[e.authorizationId].binding
    ensures Accepts(t, UpdateReservation(id, r)) <==>
            id in t.reservations && r.binding == t.approvals[e.authorizationId].binding == t.reservations[id].binding
  {
  }

  ghost predicate OneOpen(t: Tables) {
    forall i, j :: i in t.proposals && j in t.proposals && i != j
                   && Open(t.proposals[i].state) && Open(t.proposals[j].state) ==>
      t.proposals[i].entityRef != t.proposals[j].entityRef || t.proposals[i].parameter != t.proposals[j].parameter
  }

  lemma OneOpenStep(t: Tables, s: Statement)
    requires OneOpen(t)
    ensures OneOpen(Apply(t, s))
  {
    if s.InsertProposal? {
      ProposalIsAddedExactly(t, s.id, s.proposal, s.inAccount);
    } else if s.UpdateProposal? && s.id in t.proposals {
      ProposalIsUpdatedExactly(t, s.id, s.proposal, s.inAccount);
    }
  }

  /** In every reachable state a parameter of an entity has one proposal at most that is pending, postponed,
      approved or scheduled. */
  lemma {:induction false} OneOpenProposal(statements: seq<Statement>)
    ensures OneOpen(Run(EMPTY, statements))
  {
    if statements != [] {
      OneOpenProposal(statements[..|statements| - 1]);
      OneOpenStep(Run(EMPTY, statements[..|statements| - 1]), statements[|statements| - 1]);
    }
  }

  // ---------------------------------------------------------------------------
  // Approvals carry their proposal's binding
  // ---------------------------------------------------------------------------

  /** The approval belongs to its proposal, carries its binding, and a bound one is a person's. */
  predicate ApprovalBound(t: Tables, a: Approval) {
    && a.binding == BindingOfProposal(t, a.proposalId)
    && (a.proposalId.Some? ==> a.proposalId.value in t.proposals)
    && (a.binding.Some? ==> a.kind.HumanApproval?)
  }

  ghost predicate ApprovalsBound(t: Tables) {
    forall a :: a in t.approvals ==> ApprovalBound(t, t.approvals[a])
  }

  ghost predicate ExecutionsFit(t: Tables) {
    && (forall e :: e in t.executions ==> ExecutionFits(t, t.executions[e]))
    && (forall r :: r in t.reservations ==> r in t.executions)
  }

  lemma ApprovalsBoundStep(t: Tables, s: Statement)
    requires ApprovalsBound(t)
    ensures ApprovalsBound(Apply(t, s))
  {
    var t' := Apply(t, s);
    forall a | a in t'.approvals ensures ApprovalBound(t', t'.approvals[a]) {
      if a in t.approvals {
        assert ApprovalBound(t, t.approvals[a]);
        if s.DeleteProposal? && t.approvals[a].proposalId == Some(s.id) {
          assert HasApproval(t, s.id);
        }
      }
    }
  }

  /** In every reachable state each approval carries the managed binding of its proposal, and every
      bound approval was a person's. */
  lemma {:induction false} ApprovalsCarryTheBinding(statements: seq<Statement>)
    ensures ApprovalsBound(Run(EMPTY, statements)) && ExecutionsFit(Run(EMPTY, statements))
  {
    if statements != [] {
      ApprovalsCarryTheBinding(statements[..|statements| - 1]);
      ApprovalsBoundStep(Run(EMPTY, statements[..|statements| - 1]), statements[|statements| - 1]);
    }
  }

  // ---------------------------------------------------------------------------
  // Reservations carry their authorization's binding
  // ---------------------------------------------------------------------------

  ghost predicate ReservationsBound(t: Tables) {
    forall r :: r in t.reservations ==> t.reservations[r].binding == BindingOfExecution(t, r)
  }

  /** An accepted update that moves an execution with a reservation to an authorization of another
      binding. */
  predicate MovesBinding(t: Tables, s: Statement) {
    && s.UpdateExecution? && Accepts(t, s) && s.id in t.reservations
    && t.approvals[s.execution.authorizationId].binding != t.reservations[s.id].binding
  }

  /** The chain to the reservations holds after a statement precisely when the statement does not move
      it: executions are not guarded. */
  lemma ReservationsBoundStep(t: Tables, s: Statement)
    requires ReservationsBound(t) && ExecutionsFit(t)
    ensures ReservationsBound(Apply(t, s)) <==> !MovesBinding(t, s)
  {
    var t' := Apply(t, s);
    if MovesBinding(t, s) {
      assert s.id in t'.reservations && t'.reservations[s.id].binding != BindingOfExecution(t', s.id);
    } else {
      forall r | r in t'.reservations ensures t'.reservations[r].binding == BindingOfExecution(t', r) {
        if r in t.reservations {
          assert ExecutionFits(t, t.executions[r]);
        }
      }
    }
  }

  lemma {:induction false} ReservationsBoundUpto(statements: seq<Statement>, n: nat)
    requires n <= |statements|
    requires forall m: nat :: m < n ==> !MovesBinding(Upto(statements, m), statements[m])
    ensures ReservationsBound(Upto(statements, n))
  {
    if n > 0 {
      ReservationsBoundUpto(statements, n - 1);
      UptoStep(statements, n - 1);
      ApprovalsCarryTheBinding(statements[..n - 1]);
      ReservationsBoundStep(Upto(statements, n - 1), statements[n - 1]);
    }
  }

  /** Each reservation carries the binding of its execution's authorization at every moment, if and only
      if no execution with a reservation is ever moved to an authorization of another binding. */
  lemma ReservationsBoundExactlyWhenLinksHold(statements: seq<Statement>)
    ensures (forall n: nat :: n <= |statements| ==> ReservationsBound(Upto(statements, n)))
       <==> (forall n: nat :: n < |statements| ==> !MovesBinding(Upto(statements, n), statements[n]))
  {
    if forall n: nat :: n < |statements| ==> !MovesBinding(Upto(statements, n), statements[n]) {
      forall n: nat | n <= |statements| ensures ReservationsBound(Upto(statements, n)) {
        ReservationsBoundUpto(statements, n);
      }
    }
    if forall n: nat :: n <= |statements| ==> ReservationsBound(Upto(statements, n)) {
      forall n: nat | n < |statements| ensures !MovesBinding(Upto(statements, n), statements[n]) {
        UptoStep(statements, n);
        ApprovalsCarryTheBinding(statements[..n]);
        assert ReservationsBound(Upto(statements, n + 1));
        ReservationsBoundStep(Upto(statements, n), statements[n]);
      }
    }
  }

  /** A history whose run moves one: a bound proposal is approved, executed and its money reserved, and
      then the execution is led back to a package's approval, which carries no binding. */
  function MovedHistory(): seq<Statement> {
    var p := Proposal("campaign", "budget", "1", "2", "hash", Routine, Pending, None, None, Some("binding"));
    var own := Approval(Some("p"), None, None, HumanApproval, Approves, "hash", None, None, 0, 1, Some("binding"));
    var other := Approval(None, Some(PackageSubject), Some("package"), HumanApproval, Approves, "hash", None, None,
                          0, 1, None);
    [InsertProposal("p", p, true), InsertApproval("a", own), InsertApproval("b", other),
     InsertExecution("e", Execution("p", "a", Running)), InsertReservation("e", Reservation(true, Some("binding"))),
     UpdateExecution("e", Execution("p", "b", Running))]
  }

  lemma AfterBothApprovals()
    ensures var h := MovedHistory();
            Upto(h, 3) == Tables(map["p" := h[0].proposal], map["a" := h[1].approval, "b" := h[2].approval],
                                 map[], map[])
  {
    var h := MovedHistory();
    UptoStep(h, 0);
    UptoStep(h, 1);
    UptoStep(h, 2);
    assert Upto(h, 0) == EMPTY;
    assert Upto(h, 2) == Tables(map["p" := h[0].proposal], map["a" := h[1].approval], map[], map[]);
  }

  lemma AfterReservation()
    ensures var h := MovedHistory();
            Upto(h, 5) == Tables(map["p" := h[0].proposal], map["a" := h[1].approval, "b" := h[2].approval],
                                 map["e" := h[3].execution], map["e" := h[4].reservation])
  {
    AfterBothApprovals();
    UptoStep(MovedHistory(), 3);
    UptoStep(MovedHistory(), 4);
  }

  lemma MovingBindingIsReachable()
    ensures MovesBinding(Upto(MovedHistory(), 5), MovedHistory()[5]) && !ReservationsBound(Upto(MovedHistory(), 6))
  {
    AfterReservation();
    UptoStep(MovedHistory(), 5);
  }

  // ---------------------------------------------------------------------------
  // What is important is signed by a person
  // ---------------------------------------------------------------------------

  /** An approval once written stays as it is. */
  lemma {:induction false} ApprovalsAreForever(statements: seq<Statement>, n: nat, a: Id)
    requires n <= |statements| && a in Upto(statements, n).approvals
    ensures a in Run(EMPTY, statements).approvals
    ensures Run(EMPTY, statements).approvals[a] == Upto(statements, n).approvals[a]
  {
    if n < |statements| {
      var init := statements[..|statements| - 1];
      assert init[..n] == statements[..n];
      ApprovalsAreForever(init, n, a);
    } else {
      assert statements[..n] == statements;
    }
  }

  /** An approval that was accepted for a proposal important or critical at that moment is, for ever
      after, a person's or one link away from a person's approval marked as of a package. */
  lemma ImportantApprovalsAreSigned(statements: seq<Statement>, n: nat)
    requires n < |statements| && statements[n].InsertApproval? && Accepts(Upto(statements, n), statements[n])
    requires NeedsSignature(Upto(statements, n), statements[n].approval)
    ensures var t := Run(EMPTY, statements);
            && statements[n].id in t.approvals && t.approvals[statements[n].id] == statements[n].approval
            && Signed(t.approvals, statements[n].approval)
  {
    var a := statements[n].approval;
    UptoStep(statements, n);
    ApprovalsAreForever(statements, n + 1, statements[n].id);
    if Chained(Upto(statements, n).approvals, a) {
      ApprovalsAreForever(statements, n, a.derivedFrom.value);
    }
  }

  /** The approval is of a proposal that now needs a person, and has none behind it. */
  predicate Unsigned(t: Tables, a: Approval) {
    NeedsSignature(t, a) && !Signed(t.approvals, a)
  }

  ghost predicate AllSigned(t: Tables) {
    forall a :: a in t.approvals ==> !Unsigned(t, t.approvals[a])
  }

  /** An accepted update that makes a proposal important or critical although an approval of it has no
      person behind it. */
  ghost predicate RaisesOverUnsigned(t: Tables, s: Statement) {
    && s.UpdateProposal? && Accepts(t, s) && NeedsPerson(s.proposal.classification)
    && exists a :: a in t.approvals && t.approvals[a].proposalId == Some(s.id) && t.approvals[a].decision.Approves?
         && !Signed(t.approvals, t.approvals[a])
  }

  lemma AllSignedStep(t: Tables, s: Statement)
    requires AllSigned(t) && ApprovalsBound(t)
    ensures AllSigned(Apply(t, s)) <==> !RaisesOverUnsigned(t, s)
  {
    var t' := Apply(t, s);
    if RaisesOverUnsigned(t, s) {
      var a :| a in t.approvals && t.approvals[a].proposalId == Some(s.id) && t.approvals[a].decision.Approves?
        && !Signed(t.approvals, t.approvals[a]);
      assert a in t'.approvals && Unsigned(t', t'.approvals[a]);
    } else {
      forall a | a in t'.approvals ensures !Unsigned(t', t'.approvals[a]) {
        if a in t.approvals {
          assert !Unsigned(t, t.approvals[a]) && ApprovalBound(t, t.approvals[a]);
        }
      }
    }
  }

  lemma {:induction false} AllSignedUpto(statements: seq<Statement>, n: nat)
    requires n <= |statements|
    requires forall m: nat :: m < n ==> !RaisesOverUnsigned(Upto(statements, m), statements[m])
    ensures AllSigned(Upto(statements, n))
  {
    if n > 0 {
      AllSignedUpto(statements, n - 1);
      UptoStep(statements, n - 1);
      ApprovalsCarryTheBinding(statements[..n - 1]);
      AllSignedStep(Upto(statements, n - 1), statements[n - 1]);
    }
  }

  /** That every approval of what is now important has a person behind it holds at every moment if and
      only if nobody raises a proposal's classification over an approval without one: the guard looks at
      the classification only when the approval is written. */
  lemma SignedExactlyWhenNotRaised(statements: seq<Statement>)
    ensures (forall n: nat :: n <= |statements| ==> AllSigned(Upto(statements, n)))
       <==> (forall n: nat :: n < |statements| ==> !RaisesOverUnsigned(Upto(statements, n), statements[n]))
  {
    if forall n: nat :: n < |statements| ==> !RaisesOverUnsigned(Upto(statements, n), statements[n]) {
      forall n: nat | n <= |statements| ensures AllSigned(Upto(statements, n)) {
        AllSignedUpto(statements, n);
      }
    }
    if forall n: nat :: n <= |statements| ==> AllSigned(Upto(statements, n)) {
      forall n: nat | n < |statements| ensures !RaisesOverUnsigned(Upto(statements, n), statements[n]) {
        UptoStep(statements, n);
        ApprovalsCarryTheBinding(statements[..n]);
        assert AllSigned(Upto(statements, n + 1));
        AllSignedStep(Upto(statements, n), statements[n]);
      }
    }
  }

  /** A history whose run breaks it: a routine proposal, a rule's authorization of it, and then a person
      calls it critical. */
  function RaisedHistory(): seq<Statement> {
    var p := Proposal("campaign", "budget", "1", "2", "hash", Routine, Pending, None, None, None);
    var rule := Approval(Some("p"), None, None, RuleAuthorization, Approves, "hash", Some("rule"), None, 0, 1, None);
    [InsertProposal("p", p, true), InsertApproval("a", rule), UpdateProposal("p", p.(classification := Critical), true)]
  }

  lemma RaisingIsReachable()
    ensures RaisesOverUnsigned(Upto(RaisedHistory(), 2), RaisedHistory()[2]) && !AllSigned(Upto(RaisedHistory(), 3))
  {
    var h := RaisedHistory();
    UptoStep(h, 0);
    UptoStep(h, 1);
    UptoStep(h, 2);
    assert Upto(h, 0) == EMPTY;
    var t := Upto(h, 2);
    assert t.approvals["a"] == h[1].approval;
    assert RaisesOverUnsigned(t, h[2]);
    assert Unsigned(Upto(h, 3), Upto(h, 3).approvals["a"]);
  }

  // ---------------------------------------------------------------------------
  // The live chain to a person's approval of the package
  // ---------------------------------------------------------------------------

  /** An approval is revoked by another row of the same subject, hash and kind; whatever their order, as
      approving again after a revocation takes another hash. */
  predicate RevokedBy(a: Approval, r: Approval) {
    && r.decision.Revokes? && r.proposalId == a.proposalId && r.subjectKind == a.subjectKind
    && r.subjectId == a.subjectId && r.diffHash == a.diffHash && r.kind == a.kind
  }

  predicate Revoked(approvals: map<Id, Approval>, a: Approval) {
    exists r :: r in approvals && RevokedBy(a, approvals[r])
  }

  /** The step leans on a person's approval of a package, not of a proposal, that nobody has revoked. */
  predicate LiveChain(approvals: map<Id, Approval>, step: Approval) {
    && Chained(approvals, step)
    && var human := approvals[step.derivedFrom.value];
    && human.proposalId.None? && !Revoked(approvals, human)
  }

  /** A package step is accepted for a proposal that is important or critical at that moment. */
  predicate TakesStep(t: Tables, s: Statement) {
    s.InsertApproval? && Accepts(t, s) && s.approval.kind.PackageStep? && NeedsSignature(t, s.approval)
  }

  /** And what it leans on is marked as of a package over a proposal, or was revoked before. */
  predicate LeansAmiss(t: Tables, s: Statement) {
    && TakesStep(t, s)
    && var human := t.approvals[s.approval.derivedFrom.value];
    && (human.proposalId.Some? || Revoked(t.approvals, human))
  }

  /** A revocation is written over what the step leans on. */
  predicate RevokesBehind(t: Tables, s: Statement, step: Approval) {
    && s.InsertApproval? && Accepts(t, s)
    && step.derivedFrom.Some? && step.derivedFrom.value in t.approvals
    && RevokedBy(t.approvals[step.derivedFrom.value], s.approval)
  }

  lemma RevocationsGrow(t: Tables, s: Statement, a: Approval)
    ensures Revoked(Apply(t, s).approvals, a) <==>
            Revoked(t.approvals, a) || (s.InsertApproval? && Accepts(t, s) && RevokedBy(a, s.approval))
  {
    var t' := Apply(t, s);
    if Revoked(t.approvals, a) {
      var r :| r in t.approvals && RevokedBy(a, t.approvals[r]);
      assert r in t'.approvals && RevokedBy(a, t'.approvals[r]);
    }
    if s.InsertApproval? && Accepts(t, s) && RevokedBy(a, s.approval) {
      assert s.id in t'.approvals && RevokedBy(a, t'.approvals[s.id]);
    }
  }

  /** A step just accepted has a live chain exactly when it does not lean amiss. */
  lemma TakenStepIsLive(t: Tables, s: Statement)
    requires TakesStep(t, s)
    ensures LiveChain(Apply(t, s).approvals, s.approval) <==> !LeansAmiss(t, s)
  {
    RevocationsGrow(t, s, t.approvals[s.approval.derivedFrom.value]);
  }

  /** A live chain stays live exactly when no revocation is written over it. */
  lemma LiveChainStep(t: Tables, s: Statement, step: Approval)
    requires LiveChain(t.approvals, step)
    ensures LiveChain(Apply(t, s).approvals, step) <==> !RevokesBehind(t, s, step)
  {
    RevocationsGrow(t, s, t.approvals[step.derivedFrom.value]);
  }

  /** At the moment `n` every package step accepted before has a live chain. */
  ghost predicate LiveUpto(statements: seq<Statement>, n: nat)
    requires n <= |statements|
  {
    forall m: nat :: m < n && TakesStep(Upto(statements, m), statements[m]) ==>
      LiveChain(Upto(statements, n).approvals, statements[m].approval)
  }

  /** The statement at `n` leans amiss, or revokes what an accepted step leans on. */
  ghost predicate CutsChain(statements: seq<Statement>, n: nat)
    requires n < |statements|
  {
    || LeansAmiss(Upto(statements, n), statements[n])
    || exists m: nat :: m < n && TakesStep(Upto(statements, m), statements[m])
         && RevokesBehind(Upto(statements, n), statements[n], statements[m].approval)
  }

  lemma LiveUptoStep(statements: seq<Statement>, n: nat)
    requires n < |statements| && LiveUpto(statements, n)
    ensures LiveUpto(statements, n + 1) <==> !CutsChain(statements, n)
  {
    var t, s := Upto(statements, n), statements[n];
    UptoStep(statements, n);
    if TakesStep(t, s) {
      TakenStepIsLive(t, s);
    }
    forall m: nat | m < n && TakesStep(Upto(statements, m), statements[m])
      ensures LiveChain(Apply(t, s).approvals, statements[m].approval) <==> !RevokesBehind(t, s, statements[m].approval)
    {
      LiveChainStep(t, s, statements[m].approval);
    }
  }

  /** What holds at first, and is lost by a step exactly when the step is a breach, holds at every moment
      if and only if no step is a breach. */
  lemma {:induction false} HoldsExactlyWhenUnbroken(holds: nat -> bool, breaks: nat -> bool, n: nat)
    requires holds(0) && forall m: nat :: m < n && holds(m) ==> (holds(m + 1) <==> !breaks(m))
    ensures (forall m: nat :: m <= n ==> holds(m)) <==> (forall m: nat :: m < n ==> !breaks(m))
  {
    if n > 0 {
      HoldsExactlyWhenUnbroken(holds, breaks, n - 1);
      assert holds(n - 1) ==> (holds(n - 1 + 1) <==> !breaks(n - 1));
    }
  }

  /** At every moment each package step that was accepted for an important proposal leans on a person's
      approval of a package, unrevoked at that moment: if and only if no accepted step leans on an
      approval of a proposal marked as a package's or on a revoked one, and no revocation is written
      over an approval that a step leans on. */
  lemma LiveExactlyWhenUncut(statements: seq<Statement>)
    ensures (forall n: nat :: n <= |statements| ==> LiveUpto(statements, n))
       <==> (forall n: nat :: n < |statements| ==> !CutsChain(statements, n))
  {
    ghost var holds := (n: nat) => n <= |statements| && LiveUpto(statements, n);
    ghost var breaks := (n: nat) => n < |statements| && CutsChain(statements, n);
    forall m: nat | m < |statements| && holds(m) ensures holds(m + 1) <==> !breaks(m) {
      LiveUptoStep(statements, m);
    }
    HoldsExactlyWhenUnbroken(holds, breaks, |statements|);
    assert forall n: nat :: n <= |statements| ==> (holds(n) <==> LiveUpto(statements, n));
    assert forall n: nat :: n < |statements| ==> (breaks(n) <==> CutsChain(statements, n));
  }

  /** A person's decision, marked as of a package. */
  function Marked(proposalId: Option<Id>, decision: Decision): Approval {
    Approval(proposalId, Some(PackageSubject), if proposalId.Some? then None else Some("package"), HumanApproval,
             decision, "envelope", None, None, 0, 1, None)
  }

  /** What is signed for a step: an approval of its proposal that derives from the person's. */
  function StepApproval(proposalId: Id, human: Id, diffHash: string, decidedAt: int, expiresAt: int): Approval {
    Approval(Some(proposalId), None, None, PackageStep, Approves, diffHash, None, Some(human), decidedAt, expiresAt,
             None)
  }

  function StepOf(proposalId: Id, human: Id): Approval {
    StepApproval(proposalId, human, "hash", 0, 1)
  }

  function CriticalProposal(entityRef: string): Proposal {
    Proposal(entityRef, "status", "PAUSED", "ACTIVE", "hash", Critical, Pending, None, None, None)
  }

  /** A person approves one proposal, and with the mark that carries a step of another. */
  function MarkedHistory(): seq<Statement> {
    [InsertProposal("p", CriticalProposal("campaign"), true), InsertProposal("q", CriticalProposal("other"), true),
     InsertApproval("h", Marked(Some("q"), Approves)), InsertApproval("s", StepOf("p", "h"))]
  }

  /** A package is approved and the approval revoked, and then a step leans on it. */
  function RevokedHistory(): seq<Statement> {
    [InsertProposal("p", CriticalProposal("campaign"), true), InsertApproval("h", Marked(None, Approves)),
     InsertApproval("r", Marked(None, Revokes)), InsertApproval("s", StepOf("p", "h"))]
  }

  /** The same, with the step first. */
  function RevokedLaterHistory(): seq<Statement> {
    [InsertProposal("p", CriticalProposal("campaign"), true), InsertApproval("h", Marked(None, Approves)),
     InsertApproval("s", StepOf("p", "h")), InsertApproval("r", Marked(None, Revokes))]
  }

  lemma FourSteps(h: seq<Statement>)
    requires |h| == 4
    ensures Upto(h, 0) == EMPTY && Upto(h, 1) == Apply(EMPTY, h[0]) && Upto(h, 2) == Apply(Upto(h, 1), h[1])
    ensures Upto(h, 3) == Apply(Upto(h, 2), h[2]) && Upto(h, 4) == Apply(Upto(h, 3), h[3])
  {
    UptoStep(h, 0);
    UptoStep(h, 1);
    UptoStep(h, 2);
    UptoStep(h, 3);
  }

  lemma AfterMark()
    ensures Upto(MarkedHistory(), 3) ==
            Tables(map["p" := CriticalProposal("campaign"), "q" := CriticalProposal("other")],
                   map["h" := Marked(Some("q"), Approves)], map[], map[])
  {
    FourSteps(MarkedHistory());
  }

  lemma MarkedStepIsReachable()
    ensures LeansAmiss(Upto(MarkedHistory(), 3), MarkedHistory()[3]) && !LiveUpto(MarkedHistory(), 4)
  {
    AfterMark();
    FourSteps(MarkedHistory());
    TakenStepIsLive(Upto(MarkedHistory(), 3), MarkedHistory()[3]);
  }

  lemma AfterRevocation()
    ensures Upto(RevokedHistory(), 3) ==
            Tables(map["p" := CriticalProposal("campaign")],
                   map["h" := Marked(None, Approves), "r" := Marked(None, Revokes)], map[], map[])
  {
    FourSteps(RevokedHistory());
  }

  lemma RevokedStepIsReachable()
    ensures LeansAmiss(Upto(RevokedHistory(), 3), RevokedHistory()[3]) && !LiveUpto(RevokedHistory(), 4)
  {
    AfterRevocation();
    FourSteps(RevokedHistory());
    var t := Upto(RevokedHistory(), 3);
    assert RevokedBy(t.approvals["h"], t.approvals["r"]);
    TakenStepIsLive(t, RevokedHistory()[3]);
  }

  lemma AfterApproval()
    ensures Upto(RevokedLaterHistory(), 2) ==
            Tables(map["p" := CriticalProposal("campaign")], map["h" := Marked(None, Approves)], map[], map[])
  {
    FourSteps(RevokedLaterHistory());
  }

  lemma AfterLeaning()
    ensures TakesStep(Upto(RevokedLaterHistory(), 2), RevokedLaterHistory()[2])
    ensures Upto(RevokedLaterHistory(), 3) ==
            Tables(map["p" := CriticalProposal("campaign")],
                   map["h" := Marked(None, Approves), "s" := StepOf("p", "h")], map[], map[])
  {
    AfterApproval();
    FourSteps(RevokedLaterHistory());
  }

  lemma RevokingLaterIsReachable()
    ensures TakesStep(Upto(RevokedLaterHistory(), 2), RevokedLaterHistory()[2])
    ensures RevokesBehind(Upto(RevokedLaterHistory(), 3), RevokedLaterHistory()[3], RevokedLaterHistory()[2].approval)
    ensures !LiveUpto(RevokedLaterHistory(), 4)
  {
    AfterLeaning();
    FourSteps(RevokedLaterHistory());
    var t, s, step := Upto(RevokedLaterHistory(), 3), RevokedLaterHistory()[3], RevokedLaterHistory()[2].approval;
    RevocationsGrow(t, s, t.approvals["h"]);
    assert RevokesBehind(t, s, step);
    assert !LiveChain(Upto(RevokedLaterHistory(), 4).approvals, step);
  }

  // ---------------------------------------------------------------------------
  // What a repository writes of an authorization
  // ---------------------------------------------------------------------------

  /** A repository of authorizations writes all of a row, or only the columns that every authorization of
      a proposal has: neither what it derives from nor a subject. */
  datatype Repository = WholeRow | WithoutChain

  function Written(r: Repository, a: Approval): Approval {
    if r.WholeRow? then a else a.(subjectKind := None, subjectId := None, derivedFrom := None)
  }

  /** A step was approved for the same proposal and hash before. */
  predicate StepDecided(approvals: map<Id, Approval>, proposalId: Id, diffHash: string) {
    exists i :: i in approvals && approvals[i].kind.PackageStep? && approvals[i].decision.Approves?
      && approvals[i].proposalId == Some(proposalId) && approvals[i].diffHash == diffHash
  }

  /** The tables take a whole row. */
  predicate TakesStepApproval(t: Tables, id: Id, proposalId: Id, human: Id, diffHash: string, decidedAt: int,
                              expiresAt: int)
  {
    && id !in t.approvals && decidedAt < expiresAt
    && proposalId in t.proposals && t.proposals[proposalId].binding.None?
    && (human in t.approvals || human == id)
    && (NeedsPerson(t.proposals[proposalId].classification) ==>
          human in t.approvals && HumanPackageApproval(t.approvals[human]))
    && !StepDecided(t.approvals, proposalId, diffHash)
  }

  /** The signed step is taken if and only if the repository writes the chain and the tables have what
      the row refers to: without the chain, in no state. */
  lemma StepApprovalIsTakenExactly(
    t: Tables, r: Repository, id: Id, proposalId: Id, human: Id, diffHash: string, decidedAt: int, expiresAt: int)
    ensures var a := StepApproval(proposalId, human, diffHash, decidedAt, expiresAt);
            Accepts(t, InsertApproval(id, Written(r, a))) <==>
            r.WholeRow? && TakesStepApproval(t, id, proposalId, human, diffHash, decidedAt, expiresAt)
  {
    var a := StepApproval(proposalId, human, diffHash, decidedAt, expiresAt);
    assert Decided(t.approvals, a) <==> StepDecided(t.approvals, proposalId, diffHash) by {
      if Decided(t.approvals, a) {
        var i :| i in t.approvals && SameDecision(t.approvals[i], a);
      }
      if StepDecided(t.approvals, proposalId, diffHash) {
        var i :| i in t.approvals && t.approvals[i].kind.PackageStep? && t.approvals[i].decision.Approves?
          && t.approvals[i].proposalId == Some(proposalId) && t.approvals[i].diffHash == diffHash;
        assert SameDecision(t.approvals[i], a);
      }
    }
  }

  /** Of any authorization of a proposal, the narrower repository loses nothing exactly when it is no
      step: the other kinds neither derive from another nor carry a subject. */
  lemma OtherKindsAreWrittenWhole(a: Approval)
    requires ApprovalChecks(a) && a.proposalId.Some? && a.subjectKind.None?
    ensures Written(WithoutChain, a) == a <==> !a.kind.PackageStep?
  {
  }

  // ---------------------------------------------------------------------------
  // Where the chain is looser than it reads
  // ---------------------------------------------------------------------------

  /** The mark as a package's approval is a column of its own: a person's approval of any proposal, so
      marked, carries a step of a critical proposal just as well. */
  lemma TheMarkIsEnough(t: Tables, human: Id, id: Id, step: Approval)
    requires human in t.approvals && t.approvals[human].proposalId.Some? && HumanPackageApproval(t.approvals[human])
    requires id !in t.approvals && step.kind.PackageStep? && step.derivedFrom == Some(human)
    requires ApprovalChecks(step) && !Decided(t.approvals, step)
    requires step.proposalId.Some? && step.proposalId.value in t.proposals
    requires t.proposals[step.proposalId.value].classification.Critical?
    requires t.proposals[step.proposalId.value].binding.None? && step.binding.None?
    ensures Accepts(t, InsertApproval(id, step))
  {
  }

  /** Nor is a chain cut by revoking: a revocation is a row of its own, which the guard never reads. */
  lemma RevokingDoesNotCutTheChain(t: Tables, r: Id, revocation: Approval, id: Id, step: Approval)
    requires revocation.decision.Revokes? && Accepts(t, InsertApproval(r, revocation)) && id != r
    requires step.derivedFrom != Some(r)
    ensures Accepts(Apply(t, InsertApproval(r, revocation)), InsertApproval(id, step)) <==>
            Accepts(t, InsertApproval(id, step))
  {
    var t' := Apply(t, InsertApproval(r, revocation));
    assert Decided(t'.approvals, step) ==> Decided(t.approvals, step) by {
      if Decided(t'.approvals, step) {
        var i :| i in t'.approvals && SameDecision(t'.approvals[i], step);
        assert i != r && i in t.approvals && SameDecision(t.approvals[i], step);
      }
    }
    assert Decided(t.approvals, step) ==> Decided(t'.approvals, step) by {
      if Decided(t.approvals, step) {
        var i :| i in t.approvals && SameDecision(t.approvals[i], step);
        assert i in t'.approvals && SameDecision(t'.approvals[i], step);
      }
    }
  }

  // ---------------------------------------------------------------------------
  // One live decision, one value per hash
  // ---------------------------------------------------------------------------

  ghost predicate OneDecision(t: Tables) {
    forall a, b :: a in t.approvals && b in t.approvals && a != b ==> !SameDecision(t.approvals[a], t.approvals[b])
  }

  lemma OneDecisionStep(t: Tables, s: Statement)
    requires OneDecision(t)
    ensures OneDecision(Apply(t, s))
  {
    var t' := Apply(t, s);
    forall a, b | a in t'.approvals && b in t'.approvals && a != b
      ensures !SameDecision(t'.approvals[a], t'.approvals[b])
    {
      if SameDecision(t'.approvals[a], t'.approvals[b]) {
        assert SameDecision(t'.approvals[b], t'.approvals[a]);
      }
    }
  }

  /** A proposal is never approved twice for the same diff by the same kind of authority. */
  lemma {:induction false} ApprovedOncePerDiff(statements: seq<Statement>)
    ensures OneDecision(Run(EMPTY, statements))
  {
    if statements != [] {
      ApprovedOncePerDiff(statements[..|statements| - 1]);
      OneDecisionStep(Run(EMPTY, statements[..|statements| - 1]), statements[|statements| - 1]);
    }
  }

  lemma {:induction false} ProposalStays(t: Tables, statements: seq<Statement>, id: Id)
    requires id in t.proposals && DeleteProposal(id) !in statements
    ensures id in Run(t, statements).proposals && Run(t, statements).proposals[id].binding == t.proposals[id].binding
  {
    if statements != [] {
      ProposalStays(t, statements[..|statements| - 1], id);
      assert statements[|statements| - 1] in statements;
    }
  }

  /** The versions a proposal goes through while its row exists, revisions included. */
  function History(t: Tables, statements: seq<Statement>, id: Id): seq<Version<string, string>>
    requires id in t.proposals && DeleteProposal(id) !in statements
  {
    if statements == [] then [Version(t.proposals[id].diffHash, t.proposals[id].proposedValue)]
    else
      ProposalStays(t, statements, id);
      var last := Run(t, statements).proposals[id];
      History(t, statements[..|statements| - 1], id) + [Version(last.diffHash, last.proposedValue)]
  }

  lemma {:induction false} HistoryIsGuarded(t: Tables, statements: seq<Statement>, id: Id)
    requires id in t.proposals && DeleteProposal(id) !in statements
    ensures var h := History(t, statements, id);
            && |h| == |statements| + 1 && Guarded(h) && id in Run(t, statements).proposals
            && h[|statements|] ==
              Version(Run(t, statements).proposals[id].diffHash, Run(t, statements).proposals[id].proposedValue)
  {
    if statements != [] {
      HistoryIsGuarded(t, statements[..|statements| - 1], id);
      ProposalStays(t, statements, id);
      assert statements[|statements| - 1] in statements;
    }
  }

  /** In a proposal's whole history its hash stands for the proposed value if and only if no rotation,
      revisions included, brings an old hash back for another value. */
  lemma DiffHashIdentifiesValue(t: Tables, statements: seq<Statement>, id: Id)
    requires id in t.proposals && DeleteProposal(id) !in statements
    ensures var h := History(t, statements, id); HashIdentifies(h) <==> RotatesHonestly(h)
  {
    HistoryIsGuarded(t, statements, id);
    IdentifiesExactlyWhenHonest(History(t, statements, id));
  }

  /** A revision never reopens a proposal while an execution of it is under way or holds money. */
  lemma RevisionsAreResolved(t: Tables, id: Id, p: Proposal, inAccount: bool, e: Id)
    requires id in t.proposals && (t.proposals[id].state.Approved? || t.proposals[id].state.Scheduled?)
    requires p.state.Pending?
    requires Accepts(t, UpdateProposal(id, p, inAccount))
    requires e in t.executions && t.executions[e].proposalId == id
    ensures !t.executions[e].outcome.Running? && !t.executions[e].outcome.Unknown?
    ensures e in t.reservations ==> !t.reservations[e].active
    ensures p.proposedValue != t.proposals[id].proposedValue && p.diffHash != t.proposals[id].diffHash
  {
    assert IsRevision(t.proposals[id], p);
    assert !Unresolved(t, id);
  }

  // ---------------------------------------------------------------------------
  // The tables in place
  // ---------------------------------------------------------------------------

  class ContextTables {
    var proposals: map<Id, Proposal>
    var approvals: map<Id, Approval>
    var executions: map<Id, Execution>
    var reservations: map<Id, Reservation>

    function Value(): Tables
      reads this
    {
      Tables(proposals, approvals, executions, reservations)
    }

    constructor ()
      ensures Value() == EMPTY
    {
      proposals, approvals, executions, reservations := map[], map[], map[], map[];
    }

    method InsertProposalRow(id: Id, p: Proposal, inAccount: bool) returns (accepted: bool)
      modifies this
      ensures accepted == Accepts(old(Value()), InsertProposal(id, p, inAccount))
      ensures Value() == Apply(old(Value()), InsertProposal(id, p, inAccount))
    {
      if p.binding.Some? && !inAccount {
        return false;
      }
      if !ProposalChecks(p) || id in proposals || (Live(p.state) && LiveTwin(proposals, id, p)) {
        return false;
      }
      proposals := proposals[id := p];
      return true;
    }

    /** The guard on hash and state. A revision is let through before the table of transitions. */
    method GuardDiff(id: Id, before: Proposal, p: Proposal) returns (ok: bool)
      ensures ok == ((p.proposedValue != before.proposedValue ==> p.diffHash != before.diffHash)
                     && StateMoves(Value(), id, before, p))
    {
      if p.proposedValue != before.proposedValue && p.diffHash == before.diffHash {
        return false;
      }
      if IsRevision(before, p) {
        return !Unresolved(Value(), id);
      }
      return p.state == before.state || Transition(before.state, p.state);
    }

    method UpdateProposalRow(id: Id, p: Proposal, inAccount: bool) returns (accepted: bool)
      modifies this
      ensures accepted == Accepts(old(Value()), UpdateProposal(id, p, inAccount))
      ensures Value() == Apply(old(Value()), UpdateProposal(id, p, inAccount))
    {
      if id !in proposals {
        return false;
      }
      var before := proposals[id];
      var ok := GuardDiff(id, before, p);
      if !ok {
        return false;
      }
      if p.binding != before.binding || (p.binding.Some? && !inAccount) {
        return false;
      }
      if !ProposalChecks(p) || (Live(p.state) && LiveTwin(proposals, id, p)) {
        return false;
      }
      proposals := proposals[id := p];
      return true;
    }

    method DeleteProposalRow(id: Id) returns (accepted: bool)
      modifies this
      ensures accepted == Accepts(old(Value()), DeleteProposal(id))
      ensures Value() == Apply(old(Value()), DeleteProposal(id))
    {
      accepted := id in proposals && !HasApproval(Value(), id) && !HasExecution(Value(), id);
      if accepted {
        proposals := proposals - {id};
      }
    }

    /** The guard that has what is important signed by a person, or chained to one. */
    method GuardKind(a: Approval) returns (ok: bool)
      ensures ok == (NeedsSignature(Value(), a) ==> Signed(approvals, a))
    {
      if a.proposalId.None? || a.proposalId.value !in proposals {
        return true;
      }
      var classification := proposals[a.proposalId.value].classification;
      if (classification.Important? || classification.Critical?) && a.decision.Approves? && !a.kind.HumanApproval? {
        if a.kind.PackageStep? && a.derivedFrom.Some? {
          return a.derivedFrom.value in approvals && HumanPackageApproval(approvals[a.derivedFrom.value]);
        }
        return false;
      }
      return true;
    }

    method InsertApprovalRow(id: Id, a: Approval) returns (accepted: bool)
      modifies this
      ensures accepted == Accepts(old(Value()), InsertApproval(id, a))
      ensures Value() == Apply(old(Value()), InsertApproval(id, a))
    {
      var ok := GuardKind(a);
      if !ok {
        return false;
      }
      var expected: Binding := None;
      if a.proposalId.Some? && a.proposalId.value in proposals {
        expected := proposals[a.proposalId.value].binding;
      }
      if a.binding != expected || (a.binding.Some? && !a.kind.HumanApproval?) {
        return false;
      }
      if !ApprovalChecks(a) || id in approvals || Decided(approvals, a) {
        return false;
      }
      if (a.proposalId.Some? && a.proposalId.value !in proposals)
        || (a.derivedFrom.Some? && a.derivedFrom.value !in approvals && a.derivedFrom.value != id) {
        return false;
      }
      approvals := approvals[id := a];
      return true;
    }

    method UpdateApprovalRow(id: Id, a: Approval) returns (accepted: bool)
      ensures accepted == Accepts(Value(), UpdateApproval(id, a))
    {
      return false;
    }

    method DeleteApprovalRow(id: Id) returns (accepted: bool)
      ensures accepted == Accepts(Value(), DeleteApproval(id))
    {
      return false;
    }

    method InsertExecutionRow(id: Id, e: Execution) returns (accepted: bool)
      modifies this
      ensures accepted == Accepts(old(Value()), InsertExecution(id, e))
      ensures Value() == Apply(old(Value()), InsertExecution(id, e))
    {
      accepted := id !in executions && e.proposalId in proposals && e.authorizationId in approvals;
      if accepted {
        executions := executions[id := e];
      }
    }

    method UpdateExecutionRow(id: Id, e: Execution) returns (accepted: bool)
      modifies this
      ensures accepted == Accepts(old(Value()), UpdateExecution(id, e))
      ensures Value() == Apply(old(Value()), UpdateExecution(id, e))
    {
      accepted := id in executions && e.proposalId in proposals && e.authorizationId in approvals;
      if accepted {
        executions := executions[id := e];
      }
    }

    method DeleteExecutionRow(id: Id) returns (accepted: bool)
      modifies this
      ensures accepted == Accepts(old(Value()), DeleteExecution(id))
      ensures Value() == Apply(old(Value()), DeleteExecution(id))
    {
      accepted := id in executions && id !in reservations;
      if accepted {
        executions := executions - {id};
      }
    }

    method ExpectedBinding(id: Id) returns (expected: Binding)
      ensures expected == BindingOfExecution(Value(), id)
    {
      expected := None;
      if id in executions && executions[id].authorizationId in approvals {
        expected := approvals[executions[id].authorizationId].binding;
      }
    }

    method InsertReservationRow(id: Id, r: Reservation) returns (accepted: bool)
      modifies this
      ensures accepted == Accepts(old(Value()), InsertReservation(id, r))
      ensures Value() == Apply(old(Value()), InsertReservation(id, r))
    {
      var expected := ExpectedBinding(id);
      accepted := r.binding == expected && id !in reservations && id in executions;
      if accepted {
        reservations := reservations[id := r];
      }
    }

    method UpdateReservationRow(id: Id, r: Reservation) returns (accepted: bool)
      modifies this
      ensures accepted == Accepts(old(Value()), UpdateReservation(id, r))
      ensures Value() == Apply(old(Value()), UpdateReservation(id, r))
    {
      if id !in reservations || r.binding != reservations[id].binding {
        return false;
      }
      var expected := ExpectedBinding(id);
      if r.binding != expected {
        return false;
      }
      reservations := reservations[id := r];
      return true;
    }

    method DeleteReservationRow(id: Id) returns (accepted: bool)
      modifies this
      ensures accepted == Accepts(old(Value()), DeleteReservation(id))
      ensures Value() == Apply(old(Value()), DeleteReservation(id))
    {
      accepted := id in reservations;
      reservations := reservations - {id};
    }
  }
}
