/** Accounts and the tree of advertising entities under them: campaign, ad set, ad, creative. Two row
    triggers, CHECKs, keys and foreign keys guard the rows one at a time; what they keep together is
    about whole paths. */
module EntityHierarchy {
  import opened Separators
  import opened Wrappers

  type Id = string

  datatype Level = Campaign | AdSet | Ad | Creative

  datatype Account = Account(businessId: Id, platform: string, connectionId: Option<Id>, externalId: string)

  /** What a statement gives. */
  datatype Entity = Entity(
    businessId: Id, accountId: Id, platform: string, connectionId: Option<Id>, level: Level, externalId: string,
    parentId: Option<Id>, name: string)

  /** The row with the columns the triggers write. */
  datatype Row = Row(entity: Entity, parentLevel: Option<Level>, entityRef: string)

  datatype Tables = Tables(accounts: map<Id, Account>, entities: map<Id, Row>)

  datatype Statement =
    | InsertAccount(id: Id, account: Account)
    | UpdateAccount(id: Id, account: Account)
    | DeleteAccount(id: Id)
    | InsertEntity(id: Id, entity: Entity)
    | UpdateEntity(id: Id, entity: Entity)
    | DeleteEntity(id: Id)

  const EMPTY := Tables(map[], map[])

  function LevelName(l: Level): string {
    match l
    case Campaign => "campaign"
    case AdSet => "ad_set"
    case Ad => "ad"
    case Creative => "creative"
  }

  function Depth(l: Level): nat {
    match l
    case Campaign => 0
    case AdSet => 1
    case Ad => 2
    case Creative => 3
  }

  function AccountRef(a: Account): string {
    a.platform + ":" +
    (if a.connectionId.None? then "" else "account:" + a.businessId + ":" + a.connectionId.value + ":") + a.externalId
  }

  function EntityRef(e: Entity): string {
    e.platform + ":" + LevelName(e.level) + ":" +
    (if e.connectionId.None? then "" else e.businessId + ":" + e.connectionId.value + ":") + e.externalId
  }

  predicate NoColon(s: string) {
    ':' !in s
  }

  /** The parts of a reference that stand before a colon hold none. */
  predicate Plain(platform: string, businessId: Id, connectionId: Option<Id>) {
    NoColon(platform) && NoColon(businessId) && (connectionId.Some? ==> NoColon(connectionId.value))
  }

  lemma LevelNameFacts(l: Level, m: Level)
    ensures NoColon(LevelName(l)) && (LevelName(l) == LevelName(m) ==> l == m)
  {
    assert |LevelName(Campaign)| == 8 && |LevelName(AdSet)| == 6 && |LevelName(Ad)| == 2;
    assert LevelName(Creative)[1] == 'r' && LevelName(Campaign)[1] == 'a';
  }

  /** A part joined by a colon to what follows. */
  function Joined(a: string, rest: string): string {
    a + [':'] + rest
  }

  lemma JoinedSame(a: string, rest: string, b: string, rest': string)
    requires NoColon(a) && NoColon(b)
    ensures Joined(a, rest) == Joined(b, rest') <==> a == b && rest == rest'
  {
    if Joined(a, rest) == Joined(b, rest') {
      SplitAtFirst(':', a, rest, b, rest');
    }
  }

  /** What follows platform and level, or platform, in a reference. */
  function Scoped(businessId: Id, connectionId: Option<Id>, externalId: string): string {
    if connectionId.None? then externalId else Joined(businessId, Joined(connectionId.value, externalId))
  }

  lemma ScopedSame(b: Id, c: Option<Id>, x: string, b': Id, c': Option<Id>, x': string)
    requires NoColon(b) && NoColon(b') && c.Some? == c'.Some?
    requires c.Some? ==> NoColon(c.value) && NoColon(c'.value)
    ensures Scoped(b, c, x) == Scoped(b', c', x') <==> x == x' && (c.Some? ==> b == b' && c == c')
  {
    if c.Some? {
      JoinedSame(b, Joined(c.value, x), b', Joined(c'.value, x'));
      JoinedSame(c.value, x, c'.value, x');
    }
  }

  /** Among entities with a connection, and among those without, a reference names one platform, level and
      external id, and with a connection one business and connection. */
  lemma EntityRefsTellApart(e: Entity, f: Entity)
    requires Plain(e.platform, e.businessId, e.connectionId) && Plain(f.platform, f.businessId, f.connectionId)
    requires e.connectionId.Some? == f.connectionId.Some?
    ensures EntityRef(e) == EntityRef(f) <==>
            && e.platform == f.platform && e.level == f.level && e.externalId == f.externalId
            && (e.connectionId.Some? ==> e.businessId == f.businessId && e.connectionId == f.connectionId)
  {
    var x, y := Scoped(e.businessId, e.connectionId, e.externalId), Scoped(f.businessId, f.connectionId, f.externalId);
    assert EntityRef(e) == Joined(e.platform, Joined(LevelName(e.level), x));
    assert EntityRef(f) == Joined(f.platform, Joined(LevelName(f.level), y));
    LevelNameFacts(e.level, f.level);
    LevelNameFacts(f.level, e.level);
    JoinedSame(e.platform, Joined(LevelName(e.level), x), f.platform, Joined(LevelName(f.level), y));
    JoinedSame(LevelName(e.level), x, LevelName(f.level), y);
    ScopedSame(e.businessId, e.connectionId, e.externalId, f.businessId, f.connectionId, f.externalId);
  }

  /** And so for accounts. */
  lemma AccountRefsTellApart(a: Account, b: Account)
    requires Plain(a.platform, a.businessId, a.connectionId) && Plain(b.platform, b.businessId, b.connectionId)
    requires a.connectionId.Some? == b.connectionId.Some?
    ensures AccountRef(a) == AccountRef(b) <==>
            && a.platform == b.platform && a.externalId == b.externalId
            && (a.connectionId.Some? ==> a.businessId == b.businessId && a.connectionId == b.connectionId)
  {
    var x, y := Scoped(a.businessId, a.connectionId, a.externalId), Scoped(b.businessId, b.connectionId, b.externalId);
    ScopedSame(a.businessId, a.connectionId, a.externalId, b.businessId, b.connectionId, b.externalId);
    if a.connectionId.None? {
      assert AccountRef(a) == Joined(a.platform, x) && AccountRef(b) == Joined(b.platform, y);
      JoinedSame(a.platform, x, b.platform, y);
    } else {
      assert AccountRef(a) == Joined(a.platform, Joined("account", x));
      assert AccountRef(b) == Joined(b.platform, Joined("account", y));
      JoinedSame(a.platform, Joined("account", x), b.platform, Joined("account", y));
      JoinedSame("account", x, "account", y);
    }
  }

  // ---------------------------------------------------------------------------
  // Accounts
  // ---------------------------------------------------------------------------

  predicate AccountClash(accounts: map<Id, Account>, id: Id, a: Account) {
    exists i :: i in accounts && i != id
      && (AccountRef(accounts[i]) == AccountRef(a)
          || (accounts[i].platform == a.platform && accounts[i].connectionId == a.connectionId
              && accounts[i].externalId == a.externalId))
  }

  /** Both foreign keys of an entity to its account hold; the one on the connection is not checked for
      an entity without one. */
  predicate RefersTo(e: Entity, a: Account) {
    && a.businessId == e.businessId && a.platform == e.platform
    && (e.connectionId.Some? ==> a.connectionId == e.connectionId)
  }

  predicate InUse(entities: map<Id, Row>, accountId: Id) {
    exists i :: i in entities && entities[i].entity.accountId == accountId
  }

  predicate AllReferTo(entities: map<Id, Row>, accountId: Id, a: Account) {
    forall i :: i in entities && entities[i].entity.accountId == accountId ==> RefersTo(entities[i].entity, a)
  }

  // ---------------------------------------------------------------------------
  // Entities
  // ---------------------------------------------------------------------------

  /** The first trigger, over the parent: where there is one, it exists, is another row, and is of the
      same platform and account. */
  predicate ParentFits(entities: map<Id, Row>, id: Id, e: Entity) {
    e.parentId.Some? ==>
      && e.parentId.value != id && e.parentId.value in entities
      && var p := entities[e.parentId.value].entity;
      && p.platform == e.platform && p.accountId == e.accountId
  }

  function ParentLevel(entities: map<Id, Row>, e: Entity): Option<Level> {
    if e.parentId.Some? && e.parentId.value in entities then Some(entities[e.parentId.value].entity.level) else None
  }

  /** The CHECK on levels. */
  predicate LevelsFit(e: Entity, parentLevel: Option<Level>) {
    match e.level
    case Campaign => e.parentId.None? && parentLevel.None?
    case AdSet => e.parentId.Some? && parentLevel == Some(Campaign)
    case Ad => e.parentId.Some? && parentLevel == Some(AdSet)
    case Creative => e.parentId.Some? && parentLevel == Some(Ad)
  }

  /** The second trigger, over the account: it exists with the entity's business and platform, and its
      connection is the entity's. */
  predicate InScope(accounts: map<Id, Account>, e: Entity) {
    && e.accountId in accounts
    && var a := accounts[e.accountId];
    && a.businessId == e.businessId && a.platform == e.platform && a.connectionId == e.connectionId
  }

  predicate SameIdentity(e: Entity, f: Entity) {
    && e.businessId == f.businessId && e.connectionId == f.connectionId && e.platform == f.platform
    && e.level == f.level && e.externalId == f.externalId && e.accountId == f.accountId
  }

  predicate EntityClash(entities: map<Id, Row>, id: Id, e: Entity) {
    exists i :: i in entities && i != id
      && (entities[i].entityRef == EntityRef(e)
          || (entities[i].entity.platform == e.platform && entities[i].entity.connectionId == e.connectionId
              && entities[i].entity.level == e.level && entities[i].entity.externalId == e.externalId))
  }

  predicate HasChildren(entities: map<Id, Row>, id: Id) {
    exists i :: i in entities && entities[i].entity.parentId == Some(id)
  }

  /** What every new version of an entity goes through, identity aside. */
  predicate Fits(t: Tables, id: Id, e: Entity) {
    && ParentFits(t.entities, id, e) && LevelsFit(e, ParentLevel(t.entities, e))
    && InScope(t.accounts, e) && !EntityClash(t.entities, id, e)
  }

  function Completed(t: Tables, e: Entity): Row {
    Row(e, ParentLevel(t.entities, e), EntityRef(e))
  }

  predicate Accepts(t: Tables, s: Statement) {
    match s
    case InsertAccount(id, a) => id !in t.accounts && !AccountClash(t.accounts, id, a)
    case UpdateAccount(id, a) => id in t.accounts && !AccountClash(t.accounts, id, a) && AllReferTo(t.entities, id, a)
    case DeleteAccount(id) => id in t.accounts && !InUse(t.entities, id)
    case InsertEntity(id, e) => id !in t.entities && Fits(t, id, e)
    case UpdateEntity(id, e) => id in t.entities && SameIdentity(t.entities[id].entity, e) && Fits(t, id, e)
    case DeleteEntity(id) => id in t.entities && !HasChildren(t.entities, id)
  }

  function Apply(t: Tables, s: Statement): Tables {
    if !Accepts(t, s) then t
    else
      match s
      case InsertAccount(id, a) => t.(accounts := t.accounts[id := a])
      case UpdateAccount(id, a) => t.(accounts := t.accounts[id := a])
      case DeleteAccount(id) => t.(accounts := t.accounts - {id})
      case InsertEntity(id, e) => t.(entities := t.entities[id := Completed(t, e)])
      case UpdateEntity(id, e) => t.(entities := t.entities[id := Completed(t, e)])
      case DeleteEntity(id) => t.(entities := t.entities - {id})
  }

  function Run(t: Tables, statements: seq<Statement>): Tables {
    if statements == [] then t
    else Apply(Run(t, statements[..|statements| - 1]), statements[|statements| - 1])
  }

  // ---------------------------------------------------------------------------
  // Which rows are taken
  // ---------------------------------------------------------------------------

  /** An account has a reference of its own, and platform, connection and external id together are its own;
      its entities keep pointing at their business, platform and connection; and it goes only without any. */
  lemma AccountsAreTakenExactly(t: Tables, id: Id, a: Account)
    ensures var alone := forall i :: i in t.accounts && i != id ==>
              && AccountRef(t.accounts[i]) != AccountRef(a)
              && (t.accounts[i].platform == a.platform && t.accounts[i].connectionId == a.connectionId ==>
                    t.accounts[i].externalId != a.externalId);
            && (Accepts(t, InsertAccount(id, a)) <==> id !in t.accounts && alone)
            && (Accepts(t, UpdateAccount(id, a)) <==>
                && id in t.accounts && alone
                && forall i :: i in t.entities && t.entities[i].entity.accountId == id ==>
                     && t.entities[i].entity.businessId == a.businessId
                     && t.entities[i].entity.platform == a.platform
                     && (t.entities[i].entity.connectionId.Some? ==>
                           t.entities[i].entity.connectionId == a.connectionId))
            && (Accepts(t, DeleteAccount(id)) <==>
                id in t.accounts && forall i :: i in t.entities ==> t.entities[i].entity.accountId != id)
  {
  }

  /** An entity is of its account's business, platform and connection, a campaign at the top or hanging from
      another entity of the account one level up, and its keys are its own. */
  predicate Sound(t: Tables, id: Id, e: Entity) {
    && e.accountId in t.accounts
    && t.accounts[e.accountId].businessId == e.businessId && t.accounts[e.accountId].platform == e.platform
    && t.accounts[e.accountId].connectionId == e.connectionId
    && (if e.level.Campaign? then e.parentId.None?
        else
          && e.parentId.Some? && e.parentId.value != id && e.parentId.value in t.entities
          && var p := t.entities[e.parentId.value].entity;
          && p.accountId == e.accountId && p.platform == e.platform
          && (p.level, e.level) in {(Campaign, AdSet), (AdSet, Ad), (Ad, Creative)})
    && (forall i :: i in t.entities && i != id ==>
          && t.entities[i].entityRef != EntityRef(e)
          && (t.entities[i].entity.platform == e.platform && t.entities[i].entity.connectionId == e.connectionId
              && t.entities[i].entity.level == e.level ==>
                t.entities[i].entity.externalId != e.externalId))
  }

  lemma EntitiesAreTakenExactly(t: Tables, id: Id, e: Entity)
    ensures Accepts(t, InsertEntity(id, e)) <==> id !in t.entities && Sound(t, id, e)
    ensures Accepts(t, UpdateEntity(id, e)) <==>
            && id in t.entities && Sound(t, id, e)
            && t.entities[id].entity.(parentId := e.parentId, name := e.name) == e
    ensures Accepts(t, DeleteEntity(id)) <==>
            id in t.entities && forall i :: i in t.entities ==> t.entities[i].entity.parentId != Some(id)
  {
  }

  // ---------------------------------------------------------------------------
  // What the guards keep of every row
  // ---------------------------------------------------------------------------

  /** The row hangs from one a level above, of the same platform and account, and refers to its
      account. */
  predicate Linked(t: Tables, id: Id)
    requires id in t.entities
  {
    && var r := t.entities[id];
    && r.entity.accountId in t.accounts && RefersTo(r.entity, t.accounts[r.entity.accountId])
    && r.entityRef == EntityRef(r.entity)
    && ParentFits(t.entities, id, r.entity) && r.parentLevel == ParentLevel(t.entities, r.entity)
    && LevelsFit(r.entity, r.parentLevel)
  }

  ghost predicate AllLinked(t: Tables) {
    forall id :: id in t.entities ==> Linked(t, id)
  }

  lemma OtherRowStaysLinked(t: Tables, s: Statement, id: Id)
    requires AllLinked(t) && id in t.entities && id in Apply(t, s).entities
    requires Accepts(t, s) && (s.InsertEntity? || s.UpdateEntity?) ==> id != s.id
    ensures Linked(Apply(t, s), id)
  {
    assert Linked(t, id);
  }

  lemma LinkedStep(t: Tables, s: Statement)
    requires AllLinked(t)
    ensures AllLinked(Apply(t, s))
  {
    forall id | id in Apply(t, s).entities ensures Linked(Apply(t, s), id) {
      if Accepts(t, s) && (s.InsertEntity? || s.UpdateEntity?) && id == s.id {
      } else {
        OtherRowStaysLinked(t, s, id);
      }
    }
  }

  lemma {:induction false} AlwaysLinked(statements: seq<Statement>)
    ensures AllLinked(Run(EMPTY, statements))
  {
    if statements != [] {
      AlwaysLinked(statements[..|statements| - 1]);
      LinkedStep(Run(EMPTY, statements[..|statements| - 1]), statements[|statements| - 1]);
    }
  }

  /** Two rows that a unique key would not let stand together. */
  predicate Twins(r: Row, s: Row) {
    || r.entityRef == s.entityRef
    || (r.entity.platform == s.entity.platform && r.entity.connectionId == s.entity.connectionId
        && r.entity.level == s.entity.level && r.entity.externalId == s.entity.externalId)
  }

  ghost predicate AllDistinct(t: Tables) {
    forall i, j :: i in t.entities && j in t.entities && i != j ==> !Twins(t.entities[i], t.entities[j])
  }

  lemma DistinctStep(t: Tables, s: Statement)
    requires AllDistinct(t)
    ensures AllDistinct(Apply(t, s))
  {
    var t' := Apply(t, s);
    forall i, j | i in t'.entities && j in t'.entities && i != j ensures !Twins(t'.entities[i], t'.entities[j]) {
      if i in t.entities && j in t.entities {
        assert !Twins(t.entities[i], t.entities[j]);
      }
    }
  }

  /** No two rows share a reference or an identity in any reachable state. */
  lemma {:induction false} AlwaysDistinct(statements: seq<Statement>)
    ensures AllDistinct(Run(EMPTY, statements))
  {
    if statements != [] {
      AlwaysDistinct(statements[..|statements| - 1]);
      DistinctStep(Run(EMPTY, statements[..|statements| - 1]), statements[|statements| - 1]);
    }
  }

  lemma StoredRowsDoNotClash(statements: seq<Statement>, id: Id)
    requires id in Run(EMPTY, statements).entities
    ensures var t := Run(EMPTY, statements); AllLinked(t) && !EntityClash(t.entities, id, t.entities[id].entity)
  {
    AlwaysLinked(statements);
    AlwaysDistinct(statements);
    assert Linked(Run(EMPTY, statements), id);
  }

  // ---------------------------------------------------------------------------
  // Paths
  // ---------------------------------------------------------------------------

  /** The entity `n` parent steps up, if there are that many. */
  function Ancestor(t: Tables, id: Id, n: nat): (a: Option<Id>)
    ensures a.Some? ==> a.value in t.entities
    decreases n
  {
    if id !in t.entities then None
    else if n == 0 then Some(id)
    else if t.entities[id].entity.parentId.None? then None
    else Ancestor(t, t.entities[id].entity.parentId.value, n - 1)
  }

  /** `a` is `n` levels above `e`, within the same platform, account and business. */
  predicate Above(e: Entity, a: Entity, n: int) {
    Depth(a.level) == Depth(e.level) - n && a.platform == e.platform && a.accountId == e.accountId
      && a.businessId == e.businessId
  }

  /** Every entity but a campaign has a parent, one level above it. */
  ghost predicate Rooted(t: Tables) {
    forall id :: id in t.entities ==>
      var e := t.entities[id].entity;
      && (e.parentId.Some? <==> Depth(e.level) > 0)
      && (e.parentId.Some? ==> e.parentId.value in t.entities && Above(e, t.entities[e.parentId.value].entity, 1))
  }

  lemma LinkedIsRooted(t: Tables)
    requires AllLinked(t)
    ensures Rooted(t)
  {
    forall id | id in t.entities
      ensures var e := t.entities[id].entity;
              && (e.parentId.Some? <==> Depth(e.level) > 0)
              && (e.parentId.Some? ==>
                    e.parentId.value in t.entities && Above(e, t.entities[e.parentId.value].entity, 1))
    {
      assert Linked(t, id);
      var e := t.entities[id].entity;
      if e.parentId.Some? {
        assert Linked(t, e.parentId.value);
      }
    }
  }

  /** `n` parent steps lead `n` levels up; and beyond the campaign there is nothing. */
  lemma {:induction false} AncestorFacts(t: Tables, id: Id, n: nat)
    requires Rooted(t) && id in t.entities
    ensures var e := t.entities[id].entity;
            if n <= Depth(e.level) then
              Ancestor(t, id, n).Some? && Above(e, t.entities[Ancestor(t, id, n).value].entity, n)
            else Ancestor(t, id, n).None?
    decreases n
  {
    if n > 0 && t.entities[id].entity.parentId.Some? {
      AncestorFacts(t, t.entities[id].entity.parentId.value, n - 1);
    }
  }

  /** In every reachable state every entity reaches a campaign in exactly as many parent steps as its
      level is deep, all of them within its own platform, account and business, and no path comes back
      to where it was. */
  lemma EveryPathEndsInACampaign(statements: seq<Statement>, id: Id, n: nat)
    requires id in Run(EMPTY, statements).entities
    ensures var t := Run(EMPTY, statements);
            var e := t.entities[id].entity;
            && Ancestor(t, id, Depth(e.level)).Some?
            && t.entities[Ancestor(t, id, Depth(e.level)).value].entity.level.Campaign?
            && (Ancestor(t, id, n).Some? <==> n <= Depth(e.level))
            && (Ancestor(t, id, n) == Some(id) <==> n == 0)
            && (n <= Depth(e.level) ==>
                  var a := t.entities[Ancestor(t, id, n).value].entity;
                  a.platform == e.platform && a.accountId == e.accountId && a.businessId == e.businessId)
  {
    var t := Run(EMPTY, statements);
    AlwaysLinked(statements);
    LinkedIsRooted(t);
    AncestorFacts(t, id, n);
    AncestorFacts(t, id, Depth(t.entities[id].entity.level));
  }

  // ---------------------------------------------------------------------------
  // Neither trigger alone
  // ---------------------------------------------------------------------------

  /** The guards without the immutable identity: what an update had to pass before connections were
      introduced. */
  predicate AcceptsMove(t: Tables, id: Id, e: Entity) {
    && id in t.entities && t.entities[id].entity.level == e.level
    && ParentFits(t.entities, id, e) && LevelsFit(e, ParentLevel(t.entities, e))
    && e.accountId in t.accounts && RefersTo(e, t.accounts[e.accountId]) && !EntityClash(t.entities, id, e)
  }

  /** Without it, any campaign with an ad set can be moved to another account of its business, and
      leaves its ad set behind in the old one. */
  lemma MovingACampaignBreaksThePath(statements: seq<Statement>, campaign: Id, adSet: Id, account: Id)
    requires var t := Run(EMPTY, statements);
             && campaign in t.entities && adSet in t.entities
             && t.entities[campaign].entity.level.Campaign? && t.entities[adSet].entity.parentId == Some(campaign)
             && account in t.accounts && account != t.entities[campaign].entity.accountId
             && RefersTo(t.entities[campaign].entity, t.accounts[account])
    ensures var t := Run(EMPTY, statements);
            var moved := t.entities[campaign].entity.(accountId := account);
            && AcceptsMove(t, campaign, moved) && !Accepts(t, UpdateEntity(campaign, moved))
            && !AllLinked(t.(entities := t.entities[campaign := Completed(t, moved)]))
  {
    var t := Run(EMPTY, statements);
    StoredRowsDoNotClash(statements, campaign);
    assert Linked(t, campaign) && Linked(t, adSet);
    var moved := t.entities[campaign].entity.(accountId := account);
    assert EntityRef(moved) == EntityRef(t.entities[campaign].entity);
    assert !EntityClash(t.entities, campaign, moved);
    var t' := t.(entities := t.entities[campaign := Completed(t, moved)]);
    assert adSet != campaign;
    assert !Linked(t', adSet);
  }

  // ---------------------------------------------------------------------------
  // Connections
  // ---------------------------------------------------------------------------

  /** An account without a connection may be given one although entities hang from it, because the
      foreign key is not checked for a null. From then on no update of those entities is accepted. */
  lemma ConnectingFreezesEntities(t: Tables, id: Id, connection: Id, entity: Id, e: Entity)
    requires AllLinked(t) && id in t.accounts && t.accounts[id].connectionId.None?
    requires entity in t.entities && t.entities[entity].entity.accountId == id
    requires t.entities[entity].entity.connectionId.None?
    requires forall i :: i in t.entities && t.entities[i].entity.accountId == id ==>
        t.entities[i].entity.connectionId.None?
    requires !AccountClash(t.accounts, id, t.accounts[id].(connectionId := Some(connection)))
    ensures var connect := UpdateAccount(id, t.accounts[id].(connectionId := Some(connection)));
            Accepts(t, connect) && !Accepts(Apply(t, connect), UpdateEntity(entity, e))
  {
    forall i | i in t.entities && t.entities[i].entity.accountId == id
      ensures RefersTo(t.entities[i].entity, t.accounts[id].(connectionId := Some(connection)))
    {
      assert Linked(t, i);
    }
  }

  /** An update of an entity is accepted exactly when its account still has the entity's connection, and
      the update keeps the identity and leaves a proper parent. */
  lemma UpdatableExactlyWhenConnected(statements: seq<Statement>, id: Id, e: Entity)
    requires id in Run(EMPTY, statements).entities && SameIdentity(Run(EMPTY, statements).entities[id].entity, e)
    ensures var t := Run(EMPTY, statements);
            && e.accountId in t.accounts
            && (Accepts(t, UpdateEntity(id, e)) <==>
                (t.accounts[e.accountId].connectionId == e.connectionId
                 && ParentFits(t.entities, id, e) && LevelsFit(e, ParentLevel(t.entities, e))))
  {
    var t := Run(EMPTY, statements);
    StoredRowsDoNotClash(statements, id);
    assert Linked(t, id);
    assert EntityRef(e) == EntityRef(t.entities[id].entity);
  }

  // ---------------------------------------------------------------------------
  // The tables in place
  // ---------------------------------------------------------------------------

  class EntityTables {
    var accounts: map<Id, Account>
    var entities: map<Id, Row>

    function Value(): Tables
      reads this
    {
      Tables(accounts, entities)
    }

    constructor ()
      ensures Value() == EMPTY
    {
      accounts, entities := map[], map[];
    }

    method InsertAccountRow(id: Id, a: Account) returns (accepted: bool)
      modifies this
      ensures accepted == Accepts(old(Value()), InsertAccount(id, a))
      ensures Value() == Apply(old(Value()), InsertAccount(id, a))
    {
      accepted := id !in accounts && !AccountClash(accounts, id, a);
      if accepted {
        accounts := accounts[id := a];
      }
    }

    method UpdateAccountRow(id: Id, a: Account) returns (accepted: bool)
      modifies this
      ensures accepted == Accepts(old(Value()), UpdateAccount(id, a))
      ensures Value() == Apply(old(Value()), UpdateAccount(id, a))
    {
      accepted := id in accounts && !AccountClash(accounts, id, a) && AllReferTo(entities, id, a);
      if accepted {
        accounts := accounts[id := a];
      }
    }

    method DeleteAccountRow(id: Id) returns (accepted: bool)
      modifies this
      ensures accepted == Accepts(old(Value()), DeleteAccount(id))
      ensures Value() == Apply(old(Value()), DeleteAccount(id))
    {
      accepted := id in accounts && !InUse(entities, id);
      if accepted {
        accounts := accounts - {id};
      }
    }

    /** The trigger on parents. */
    method CheckParent(id: Id, e: Entity) returns (accepted: bool, parentLevel: Option<Level>)
      ensures accepted == ParentFits(entities, id, e)
      ensures accepted ==> parentLevel == ParentLevel(entities, e)
    {
      if e.parentId.None? {
        return true, None;
      }
      var parent := e.parentId.value;
      if parent == id || parent !in entities {
        return false, None;
      }
      var p := entities[parent].entity;
      if p.platform != e.platform || p.accountId != e.accountId {
        return false, None;
      }
      return true, Some(p.level);
    }

    /** The trigger on accounts. */
    method CheckScope(e: Entity) returns (accepted: bool)
      ensures accepted == InScope(accounts, e)
    {
      if e.accountId !in accounts {
        return false;
      }
      var a := accounts[e.accountId];
      return a.businessId == e.businessId && a.platform == e.platform && a.connectionId == e.connectionId;
    }

    method InsertEntityRow(id: Id, e: Entity) returns (accepted: bool)
      modifies this
      ensures accepted == Accepts(old(Value()), InsertEntity(id, e))
      ensures Value() == Apply(old(Value()), InsertEntity(id, e))
    {
      var fits, parentLevel := CheckParent(id, e);
      if !fits {
        return false;
      }
      var scoped := CheckScope(e);
      if !scoped || !LevelsFit(e, parentLevel) || id in entities || EntityClash(entities, id, e) {
        return false;
      }
      entities := entities[id := Row(e, parentLevel, EntityRef(e))];
      return true;
    }

    method UpdateEntityRow(id: Id, e: Entity) returns (accepted: bool)
      modifies this
      ensures accepted == Accepts(old(Value()), UpdateEntity(id, e))
      ensures Value() == Apply(old(Value()), UpdateEntity(id, e))
    {
      if id !in entities || entities[id].entity.level != e.level {
        return false;
      }
      var fits, parentLevel := CheckParent(id, e);
      if !fits {
        return false;
      }
      var scoped := CheckScope(e);
      if !scoped || !SameIdentity(entities[id].entity, e) || !LevelsFit(e, parentLevel)
        || EntityClash(entities, id, e) {
        return false;
      }
      entities := entities[id := Row(e, parentLevel, EntityRef(e))];
      return true;
    }

    method DeleteEntityRow(id: Id) returns (accepted: bool)
      modifies this
      ensures accepted == Accepts(old(Value()), DeleteEntity(id))
      ensures Value() == Apply(old(Value()), DeleteEntity(id))
    {
      accepted := id in entities && !HasChildren(entities, id);
      if accepted {
        entities := entities - {id};
      }
    }
  }
}
