/** Campaign packages as the database guards them: birth, the graph of states, what may never change,
    the hash that has to rotate with the plan, and one open package per offering and account. */
module CampaignPackages {
  import opened HashRotation

  type Id = string

  datatype PackageState =
    | Draft
    | Proposed
    | Approved
    | Publishing
    | Verifying
    | Published
    | PartiallyPublished
    | Failed
    | Rejected
    | Expired
    | Invalidated

  /** What a package belongs to. */
  datatype Home = Home(businessId: Id, platform: string, accountRef: Id, offeringId: Id)

  datatype Package = Package(home: Home, state: PackageState, packageHash: string, plan: string)

  type Packages = map<Id, Package>

  datatype Statement = Insert(id: Id, package: Package) | Update(id: Id, package: Package) | Delete(id: Id)

  predicate Transition(from: PackageState, to: PackageState) {
    match from
    case Draft => to.Proposed? || to.Rejected? || to.Expired?
    case Proposed => to.Approved? || to.Rejected? || to.Expired?
    case Approved => to.Publishing? || to.Invalidated? || to.Rejected?
    case Publishing => to.Published? || to.PartiallyPublished? || to.Verifying? || to.Failed?
    case Verifying => to.Published? || to.PartiallyPublished?
    case PartiallyPublished => to.Publishing?
    case Failed => to.Proposed?
    case _ => false
  }

  predicate Open(p: Package) {
    p.state.Draft? || p.state.Proposed?
  }

  /** The columns of the index on open packages. */
  predicate SameOffer(p: Package, q: Package) {
    p.home.businessId == q.home.businessId && p.home.accountRef == q.home.accountRef
    && p.home.offeringId == q.home.offeringId
  }

  predicate OpenTwin(t: Packages, id: Id, p: Package) {
    exists i :: i in t && i != id && Open(t[i]) && SameOffer(t[i], p)
  }

  predicate Accepts(t: Packages, e: Statement) {
    match e
    case Insert(id, p) => id !in t && Open(p) && !OpenTwin(t, id, p)
    case Update(id, p) =>
      && id in t
      && p.home == t[id].home
      && (p.plan != t[id].plan ==> p.packageHash != t[id].packageHash)
      && (p.state != t[id].state ==> Transition(t[id].state, p.state))
      && (Open(p) ==> !OpenTwin(t, id, p))
    case Delete(id) => id in t
  }

  function Apply(t: Packages, e: Statement): Packages {
    if !Accepts(t, e) then t
    else
      match e
      case Insert(id, p) => t[id := p]
      case Update(id, p) => t[id := p]
      case Delete(id) => t - {id}
  }

  function Run(t: Packages, statements: seq<Statement>): Packages {
    if statements == [] then t
    else Apply(Run(t, statements[..|statements| - 1]), statements[|statements| - 1])
  }

  function Upto(statements: seq<Statement>, n: nat): Packages
    requires n <= |statements|
  {
    Run(map[], statements[..n])
  }

  lemma UptoStep(statements: seq<Statement>, n: nat)
    requires n < |statements|
    ensures Upto(statements, n + 1) == Apply(Upto(statements, n), statements[n])
  {
    assert statements[..n + 1][..n] == statements[..n];
  }

  // ---------------------------------------------------------------------------
  // From state to state
  // ---------------------------------------------------------------------------

  predicate StateIs(t: Packages, id: Id, s: PackageState) {
    id in t && t[id].state == s
  }

  /** Where a package may have been right before it got to a state. */
  function Before(to: PackageState): set<PackageState> {
    match to
    case Draft => {}
    case Proposed => {Draft, Failed}
    case Approved => {Proposed}
    case Publishing => {Approved, PartiallyPublished}
    case Verifying => {Publishing}
    case Published => {Publishing, Verifying}
    case PartiallyPublished => {Publishing, Verifying}
    case Failed => {Publishing}
    case Rejected => {Draft, Proposed, Approved}
    case Expired => {Draft, Proposed}
    case Invalidated => {Approved}
  }

  ghost predicate IsWalk(states: seq<PackageState>) {
    && states != [] && Open(Walker(states[0]))
    && forall i :: 0 <= i < |states| - 1 ==> states[i] in Before(states[i + 1])
  }

  function Walker(s: PackageState): Package {
    Package(Home("business", "meta", "account", "offering"), s, "hash", "plan")
  }

  /** A package is inserted in the first of the states and updated to one after the other. */
  function WalkThrough(states: seq<PackageState>): (statements: seq<Statement>)
    ensures |statements| == |states|
  {
    if states == [] then []
    else
      var last := |states| - 1;
      WalkThrough(states[..last])
      + [if last == 0 then Insert("package", Walker(states[0])) else Update("package", Walker(states[last]))]
  }

  lemma MoveIsAccepted(from: PackageState, to: PackageState)
    requires from in Before(to)
    ensures Apply(map["package" := Walker(from)], Update("package", Walker(to))) == map["package" := Walker(to)]
  {
    assert !OpenTwin(map["package" := Walker(from)], "package", Walker(to));
  }

  /** From the empty table any walk along those moves is taken, every statement of it: approvals, retries
      of partial publications and new proposals after a failure, in whatever order they come. */
  lemma {:induction false} WalksAreTaken(states: seq<PackageState>)
    requires IsWalk(states)
    ensures Run(map[], WalkThrough(states)) == map["package" := Walker(states[|states| - 1])]
  {
    var last := |states| - 1;
    assert WalkThrough(states)[..last] == WalkThrough(states[..last]);
    if last > 0 {
      WalksAreTaken(states[..last]);
      MoveIsAccepted(states[last - 1], states[last]);
    } else {
      assert Run(map[], []) == map[];
    }
  }

  /** Some history from the empty table ends with a statement that takes a package from one state to
      another. */
  ghost predicate EndsWithMove(statements: seq<Statement>, id: Id, from: PackageState, to: PackageState) {
    && statements != []
    && StateIs(Run(map[], statements[..|statements| - 1]), id, from) && StateIs(Run(map[], statements), id, to)
  }

  function WayTo(s: PackageState): seq<PackageState> {
    match s
    case Draft => [Draft]
    case Proposed => [Proposed]
    case Approved => [Proposed, Approved]
    case Publishing => [Proposed, Approved, Publishing]
    case Verifying => [Proposed, Approved, Publishing, Verifying]
    case PartiallyPublished => [Proposed, Approved, Publishing, PartiallyPublished]
    case Failed => [Proposed, Approved, Publishing, Failed]
    case _ => []
  }

  lemma WayIsWalk(s: PackageState)
    requires WayTo(s) != []
    ensures IsWalk(WayTo(s)) && WayTo(s)[|WayTo(s)| - 1] == s
  {
  }

  lemma LongerWalk(way: seq<PackageState>, to: PackageState)
    requires IsWalk(way) && way[|way| - 1] in Before(to)
    ensures EndsWithMove(WalkThrough(way + [to]), "package", way[|way| - 1], to)
  {
    assert (way + [to])[..|way|] == way;
    assert WalkThrough(way + [to])[..|way|] == WalkThrough(way);
    WalksAreTaken(way);
    WalksAreTaken(way + [to]);
  }

  lemma WalkEndsWithMove(from: PackageState, to: PackageState)
    requires from in Before(to)
    ensures EndsWithMove(WalkThrough(WayTo(from) + [to]), "package", from, to)
  {
    WayIsWalk(from);
    LongerWalk(WayTo(from), to);
  }

  lemma MovesComeFromBefore(t: Packages, e: Statement, id: Id, from: PackageState, to: PackageState)
    requires from != to && StateIs(t, id, from) && StateIs(Apply(t, e), id, to)
    ensures from in Before(to)
  {
  }

  /** Which is exactly how packages move: from one state to another if and only if it is one of those
      right before. */
  lemma MovesExactly(from: PackageState, to: PackageState)
    requires from != to
    ensures (exists statements, id :: EndsWithMove(statements, id, from, to)) <==> from in Before(to)
  {
    if from in Before(to) {
      WalkEndsWithMove(from, to);
    }
    if statements, id :| EndsWithMove(statements, id, from, to) {
      MovesComeFromBefore(Run(map[], statements[..|statements| - 1]), statements[|statements| - 1], id, from, to);
    }
  }

  // ---------------------------------------------------------------------------
  // Nothing is published without an approval of its latest proposal
  // ---------------------------------------------------------------------------

  /** At moment `m` the package was approved, and up to moment `n` it was never back to a proposal. */
  ghost predicate ApprovedSince(statements: seq<Statement>, id: Id, m: nat, n: nat)
    requires m <= n <= |statements|
  {
    && StateIs(Upto(statements, m), id, Approved)
    && forall j: nat :: m <= j <= n ==> id in Upto(statements, j) && !Open(Upto(statements, j)[id])
  }

  predicate PastApproval(s: PackageState) {
    s.Approved? || s.Publishing? || s.Verifying? || s.PartiallyPublished? || s.Published? || s.Failed?
  }

  lemma {:induction false} PastApprovalWasApproved(statements: seq<Statement>, id: Id, n: nat) returns (m: nat)
    requires n <= |statements|
    requires id in Upto(statements, n) && PastApproval(Upto(statements, n)[id].state)
    ensures m <= n && ApprovedSince(statements, id, m, n)
  {
    if n == 0 {
      assert false;
    } else {
      UptoStep(statements, n - 1);
      if StateIs(Upto(statements, n), id, Approved) {
        m := n;
      } else {
        m := PastApprovalWasApproved(statements, id, n - 1);
      }
    }
  }

  /** Every entry into publishing, the first or a retry after a failure or a partial publication, has
      an approval since the package was last proposed. */
  lemma PublishingWasApproved(statements: seq<Statement>, id: Id, n: nat) returns (m: nat)
    requires n < |statements|
    requires !StateIs(Upto(statements, n), id, Publishing) && StateIs(Upto(statements, n + 1), id, Publishing)
    ensures m <= n && ApprovedSince(statements, id, m, n)
    ensures StateIs(Upto(statements, n), id, Approved) || StateIs(Upto(statements, n), id, PartiallyPublished)
  {
    UptoStep(statements, n);
    m := PastApprovalWasApproved(statements, id, n);
  }

  // ---------------------------------------------------------------------------
  // One open package per offer, and what never changes
  // ---------------------------------------------------------------------------

  ghost predicate OneOpenPerOffer(t: Packages) {
    forall i, j :: i in t && j in t && i != j && Open(t[i]) && Open(t[j]) ==> !SameOffer(t[i], t[j])
  }

  lemma {:induction false} OneOpenAlways(statements: seq<Statement>)
    ensures OneOpenPerOffer(Run(map[], statements))
  {
    if statements != [] {
      OneOpenAlways(statements[..|statements| - 1]);
    }
  }

  /** A package is born draft or proposed, wherever no other draft or proposal stands for its business,
      account and offering. */
  lemma BornExactly(t: Packages, id: Id, p: Package)
    ensures Accepts(t, Insert(id, p)) <==>
            && id !in t && (p.state.Draft? || p.state.Proposed?)
            && forall i :: i in t && (t[i].state.Draft? || t[i].state.Proposed?) ==>
                 || t[i].home.businessId != p.home.businessId || t[i].home.accountRef != p.home.accountRef
                 || t[i].home.offeringId != p.home.offeringId
  {
  }

  /** An update of a package keeps its home, gives another plan another hash, makes a move or none, and does
      not open it where another is open. */
  lemma UpdatedExactly(t: Packages, id: Id, p: Package)
    requires id in t
    ensures Accepts(t, Update(id, p)) <==>
            && p.home == t[id].home && (p.packageHash == t[id].packageHash ==> p.plan == t[id].plan)
            && (p.state == t[id].state || t[id].state in Before(p.state))
            && (p.state in {Draft, Proposed} ==>
                  forall i :: i in t && i != id && t[i].state in {Draft, Proposed} ==>
                    || t[i].home.businessId != p.home.businessId || t[i].home.accountRef != p.home.accountRef
                    || t[i].home.offeringId != p.home.offeringId)
  {
  }

  predicate Terminal(s: PackageState) {
    s.Published? || s.Rejected? || s.Expired? || s.Invalidated?
  }

  /** For as long as its row exists, a package stays with its business, account and offering, and what
      was published, rejected, expired or invalidated stays so. */
  lemma {:induction false} HomeAndEndAreFinal(t: Packages, statements: seq<Statement>, id: Id)
    requires id in t && Delete(id) !in statements
    ensures id in Run(t, statements) && Run(t, statements)[id].home == t[id].home
    ensures Terminal(t[id].state) ==> Run(t, statements)[id].state == t[id].state
  {
    if statements != [] {
      HomeAndEndAreFinal(t, statements[..|statements| - 1], id);
      assert statements[|statements| - 1] in statements;
    }
  }

  // ---------------------------------------------------------------------------
  // Hash and plan
  // ---------------------------------------------------------------------------

  /** The versions a package goes through while its row exists. */
  function History(t: Packages, statements: seq<Statement>, id: Id): seq<Version<string, string>>
    requires id in t && Delete(id) !in statements
  {
    if statements == [] then [Version(t[id].packageHash, t[id].plan)]
    else
      var init := statements[..|statements| - 1];
      HomeAndEndAreFinal(t, statements, id);
      var last := Run(t, statements)[id];
      History(t, init, id) + [Version(last.packageHash, last.plan)]
  }

  lemma {:induction false} HistoryIsGuarded(t: Packages, statements: seq<Statement>, id: Id)
    requires id in t && Delete(id) !in statements
    ensures var h := History(t, statements, id);
            && |h| == |statements| + 1 && Guarded(h)
            && id in Run(t, statements)
            && h[|statements|] == Version(Run(t, statements)[id].packageHash, Run(t, statements)[id].plan)
  {
    if statements != [] {
      HistoryIsGuarded(t, statements[..|statements| - 1], id);
      HomeAndEndAreFinal(t, statements, id);
      assert statements[|statements| - 1] in statements;
    }
  }

  /** In a package's whole history its hash stands for its plan if and only if no rotation brings an
      old hash back for another plan. */
  lemma PackageHashIdentifiesPlan(t: Packages, statements: seq<Statement>, id: Id)
    requires id in t && Delete(id) !in statements
    ensures var h := History(t, statements, id);
            HashIdentifies(h) <==> RotatesHonestly(h)
  {
    HistoryIsGuarded(t, statements, id);
    IdentifiesExactlyWhenHonest(History(t, statements, id));
  }

  /** Which the triggers do not demand: whatever a package holds, two updates they accept leave its
      hash as it was over any other plan. */
  lemma OldHashNewPlan(t: Packages, id: Id, detour: string, plan: string)
    requires OneOpenPerOffer(t) && id in t && detour != t[id].packageHash && plan != t[id].plan
    ensures var e1 := Update(id, t[id].(packageHash := detour));
            var e2 := Update(id, t[id].(plan := plan));
            && Accepts(t, e1) && Accepts(Apply(t, e1), e2)
            && Run(t, [e1, e2]) == t[id := t[id].(plan := plan)]
  {
    var e1 := Update(id, t[id].(packageHash := detour));
    var e2 := Update(id, t[id].(plan := plan));
    assert [e1, e2][..1] == [e1] && [e1][..0] == [];
    assert Run(t, [e1]) == Apply(t, e1);
    assert t[id := e1.package][id := e2.package] == t[id := e2.package];
  }

  // ---------------------------------------------------------------------------
  // The table in place
  // ---------------------------------------------------------------------------

  class PackageTable {
    var rows: Packages

    constructor ()
      ensures rows == map[]
    {
      rows := map[];
    }

    method InsertRow(id: Id, p: Package) returns (accepted: bool)
      modifies this
      ensures accepted == Accepts(old(rows), Insert(id, p))
      ensures rows == Apply(old(rows), Insert(id, p))
    {
      if !p.state.Draft? && !p.state.Proposed? {
        return false;
      }
      if id in rows || OpenTwin(rows, id, p) {
        return false;
      }
      rows := rows[id := p];
      return true;
    }

    method UpdateRow(id: Id, p: Package) returns (accepted: bool)
      modifies this
      ensures accepted == Accepts(old(rows), Update(id, p))
      ensures rows == Apply(old(rows), Update(id, p))
    {
      if id !in rows {
        return false;
      }
      var before := rows[id];
      if p.home != before.home {
        return false;
      }
      if p.plan != before.plan && p.packageHash == before.packageHash {
        return false;
      }
      if p.state != before.state && !Transition(before.state, p.state) {
        return false;
      }
      if Open(p) && OpenTwin(rows, id, p) {
        return false;
      }
      rows := rows[id := p];
      return true;
    }

    method DeleteRow(id: Id) returns (accepted: bool)
      modifies this
      ensures accepted == Accepts(old(rows), Delete(id))
      ensures rows == Apply(old(rows), Delete(id))
    {
      accepted := id in rows;
      rows := rows - {id};
    }
  }
}
