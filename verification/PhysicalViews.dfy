/** The physical views: entities and metrics that several connections report of one and the same
    external account, reduced to one row per physical object and slot: a day in the daily view, an hour
    of a day in the hourly one.

    How text and keys compare is the database's collation: any total order. */
module PhysicalViews {
  import opened Wrappers
  import opened DistinctRows

  type Id = string
  type Ref = string

  datatype Account = Account(businessId: Id, platform: string, externalId: string)

  datatype Entity = Entity(ref: Ref, businessId: Id, accountId: Id, platform: string, level: string, externalId: string)

  datatype Slot = Day(date: int) | Hour(date: int, hour: int)

  datatype Metric = Metric(
    businessId: Id, entityRef: Ref, accountId: Id, slot: Slot, ingestedAt: int, revision: int, values: string)

  /** What makes two entities the same object on the platform. */
  datatype PhysicalKey = PhysicalKey(businessId: Id, platform: string, account: string, level: string,
                                     externalId: string)

  datatype EntityRow = EntityRow(key: PhysicalKey, entity: Entity)

  datatype MetricRow = MetricRow(key: PhysicalKey, metric: Metric, physicalRef: Ref)

  type Accounts = map<Id, Account>

  // ---------------------------------------------------------------------------
  // Joins
  // ---------------------------------------------------------------------------

  /** The entity's account, if it is of the same business and platform. */
  predicate Coherent(accounts: Accounts, e: Entity) {
    && e.accountId in accounts
    && accounts[e.accountId].businessId == e.businessId && accounts[e.accountId].platform == e.platform
  }

  function KeyOf(accounts: Accounts, e: Entity): PhysicalKey
    requires Coherent(accounts, e)
  {
    var a := accounts[e.accountId];
    PhysicalKey(e.businessId, a.platform, a.externalId, e.level, e.externalId)
  }

  function EntityRows(accounts: Accounts, entities: seq<Entity>): seq<EntityRow> {
    if entities == [] then []
    else if Coherent(accounts, entities[0]) then
      [EntityRow(KeyOf(accounts, entities[0]), entities[0])] + EntityRows(accounts, entities[1..])
    else EntityRows(accounts, entities[1..])
  }

  /** The metric belongs to the entity: same reference, business and account. */
  predicate Measures(m: Metric, e: Entity) {
    e.ref == m.entityRef && e.businessId == m.businessId && e.accountId == m.accountId
  }

  function EntityOf(entities: seq<Entity>, m: Metric): Option<Entity> {
    if entities == [] then None
    else if Measures(m, entities[0]) then Some(entities[0])
    else EntityOf(entities[1..], m)
  }

  /** The condition under which the lateral subquery counts an entity as a sibling of `e`, whose account
      is `a`: the sibling's account is joined by its id alone. */
  predicate Sibling(accounts: Accounts, a: Account, e: Entity, s: Entity) {
    && s.accountId in accounts
    && accounts[s.accountId].businessId == a.businessId && accounts[s.accountId].platform == a.platform
    && accounts[s.accountId].externalId == a.externalId
    && s.businessId == e.businessId && s.platform == e.platform && s.level == e.level && s.externalId == e.externalId
  }

  function MinRef(le: (Ref, Ref) -> bool, accounts: Accounts, a: Account, e: Entity,
                  entities: seq<Entity>): Option<Ref>
  {
    if entities == [] then None
    else
      var rest := MinRef(le, accounts, a, e, entities[1..]);
      if !Sibling(accounts, a, e, entities[0]) then rest
      else if rest.Some? && le(rest.value, entities[0].ref) then rest
      else Some(entities[0].ref)
  }

  function MetricRows(le: (Ref, Ref) -> bool, accounts: Accounts, entities: seq<Entity>,
                      metrics: seq<Metric>): seq<MetricRow>
  {
    if metrics == [] then []
    else
      var m := metrics[0];
      var rest := MetricRows(le, accounts, entities, metrics[1..]);
      var e := EntityOf(entities, m);
      if e.None? || !Coherent(accounts, e.value) then rest
      else
        var ref := MinRef(le, accounts, accounts[e.value.accountId], e.value, entities);
        if ref.None? then rest else [MetricRow(KeyOf(accounts, e.value), m, ref.value)] + rest
  }

  // ---------------------------------------------------------------------------
  // Orders
  // ---------------------------------------------------------------------------

  ghost predicate Total<T(!new)>(le: (T, T) -> bool) {
    && (forall x, y :: le(x, y) || le(y, x))
    && (forall x, y :: le(x, y) && le(y, x) ==> x == y)
    && (forall x, y, z :: le(x, y) && le(y, z) ==> le(x, z))
  }

  function EntityOrder(refLe: (Ref, Ref) -> bool,
                       keyLe: (PhysicalKey, PhysicalKey) -> bool): Order<EntityRow, PhysicalKey>
  {
    Order((r: EntityRow) => r.key, keyLe, (r: EntityRow, s: EntityRow) => refLe(r.entity.ref, s.entity.ref))
  }

  /** The freshest first: latest ingestion, then highest revision, then the reference. */
  predicate Fresher(refLe: (Ref, Ref) -> bool, m: Metric, n: Metric) {
    if m.ingestedAt != n.ingestedAt then m.ingestedAt > n.ingestedAt
    else if m.revision != n.revision then m.revision > n.revision
    else refLe(m.entityRef, n.entityRef)
  }

  function MetricOrder(
    refLe: (Ref, Ref) -> bool, keyLe: ((PhysicalKey, Slot), (PhysicalKey, Slot)) -> bool
  ): Order<MetricRow, (PhysicalKey, Slot)>
  {
    Order((r: MetricRow) => (r.key, r.metric.slot), keyLe,
          (r: MetricRow, s: MetricRow) => Fresher(refLe, r.metric, s.metric))
  }

  lemma EntityOrderIsValid(refLe: (Ref, Ref) -> bool, keyLe: (PhysicalKey, PhysicalKey) -> bool)
    requires Total(refLe) && Total(keyLe)
    ensures EntityOrder(refLe, keyLe).Valid()
  {
    var o := EntityOrder(refLe, keyLe);
    forall a, b ensures o.tie(a, b) || o.tie(b, a) {
      assert refLe(a.entity.ref, b.entity.ref) || refLe(b.entity.ref, a.entity.ref);
    }
    forall a, b, c | o.tie(a, b) && o.tie(b, c) ensures o.tie(a, c) {
      assert refLe(a.entity.ref, b.entity.ref) && refLe(b.entity.ref, c.entity.ref);
    }
  }

  // ---------------------------------------------------------------------------
  // Views
  // ---------------------------------------------------------------------------

  function AdEntitiesPhysical(
    refLe: (Ref, Ref) -> bool, keyLe: (PhysicalKey, PhysicalKey) -> bool,
    accounts: Accounts, entities: seq<Entity>): seq<EntityRow>
  {
    DistinctOn(EntityOrder(refLe, keyLe), EntityRows(accounts, entities))
  }

  function MetricsPhysical(
    refLe: (Ref, Ref) -> bool, keyLe: ((PhysicalKey, Slot), (PhysicalKey, Slot)) -> bool,
    accounts: Accounts, entities: seq<Entity>, metrics: seq<Metric>): seq<MetricRow>
  {
    DistinctOn(MetricOrder(refLe, keyLe), MetricRows(refLe, accounts, entities, metrics))
  }

  // ---------------------------------------------------------------------------
  // What the joins hold
  // ---------------------------------------------------------------------------

  /** The keys of the base tables: one entity per reference, one metric per reference and slot. */
  ghost predicate UniqueEntities(entities: seq<Entity>) {
    forall e, f :: e in entities && f in entities && e.ref == f.ref ==> e == f
  }

  ghost predicate UniqueMetrics(metrics: seq<Metric>) {
    forall m, n :: m in metrics && n in metrics && m.entityRef == n.entityRef && m.slot == n.slot ==> m == n
  }

  lemma {:induction false} EntityRowsAre(accounts: Accounts, entities: seq<Entity>, r: EntityRow)
    ensures r in EntityRows(accounts, entities) <==>
            (r.entity in entities && Coherent(accounts, r.entity) && r.key == KeyOf(accounts, r.entity))
  {
    if entities != [] {
      EntityRowsAre(accounts, entities[1..], r);
      assert entities == [entities[0]] + entities[1..];
    }
  }

  lemma {:induction false} EntityOfIs(entities: seq<Entity>, m: Metric)
    ensures var e := EntityOf(entities, m);
            if e.Some? then e.value in entities && Measures(m, e.value)
            else forall f :: f in entities ==> !Measures(m, f)
  {
    if entities != [] {
      EntityOfIs(entities[1..], m);
      assert entities == [entities[0]] + entities[1..];
    }
  }

  lemma {:induction false} MinRefIs(le: (Ref, Ref) -> bool, accounts: Accounts, a: Account, e: Entity,
                                    entities: seq<Entity>)
    requires Total(le)
    ensures var ref := MinRef(le, accounts, a, e, entities);
            if ref.Some? then
              && (exists s :: s in entities && Sibling(accounts, a, e, s) && s.ref == ref.value)
              && (forall s :: s in entities && Sibling(accounts, a, e, s) ==> le(ref.value, s.ref))
            else forall s :: s in entities ==> !Sibling(accounts, a, e, s)
  {
    if entities != [] {
      MinRefIs(le, accounts, a, e, entities[1..]);
      assert entities == [entities[0]] + entities[1..];
    }
  }

  /** Two entities are one physical object exactly when business, platform, level and external id agree
      and their accounts' external ids do: neither reference nor connection tells them apart. */
  lemma SameObjectExactly(accounts: Accounts, e: Entity, f: Entity)
    requires Coherent(accounts, e) && Coherent(accounts, f)
    ensures KeyOf(accounts, e) == KeyOf(accounts, f) <==>
            e.businessId == f.businessId && e.platform == f.platform && e.level == f.level
            && e.externalId == f.externalId && accounts[e.accountId].externalId == accounts[f.accountId].externalId
  {
  }

  /** The subquery's siblings of an entity are the entities of the same physical key. */
  lemma SiblingsShareTheKey(accounts: Accounts, e: Entity, s: Entity)
    requires Coherent(accounts, e)
    ensures Sibling(accounts, accounts[e.accountId], e, s) <==>
            (Coherent(accounts, s) && KeyOf(accounts, s) == KeyOf(accounts, e))
  {
  }

  /** The metric has an entity that has an account: what the view asks for to count it. */
  predicate Counted(accounts: Accounts, entities: seq<Entity>, m: Metric) {
    exists e :: e in entities && Measures(m, e) && Coherent(accounts, e)
  }

  ghost predicate IsRowOf(le: (Ref, Ref) -> bool, accounts: Accounts, entities: seq<Entity>, r: MetricRow) {
    exists e :: e in entities && Measures(r.metric, e) && Coherent(accounts, e) && r.key == KeyOf(accounts, e)
      && MinRef(le, accounts, accounts[e.accountId], e, entities) == Some(r.physicalRef)
  }

  lemma {:induction false} MetricRowsAre(
    le: (Ref, Ref) -> bool, accounts: Accounts, entities: seq<Entity>, metrics: seq<Metric>, r: MetricRow)
    requires Total(le) && UniqueEntities(entities)
    ensures r in MetricRows(le, accounts, entities, metrics) <==>
            r.metric in metrics && IsRowOf(le, accounts, entities, r)
  {
    if metrics != [] {
      MetricRowsAre(le, accounts, entities, metrics[1..], r);
      assert metrics == [metrics[0]] + metrics[1..];
      EntityOfIs(entities, metrics[0]);
    }
  }

  lemma CountedHasRow(
    le: (Ref, Ref) -> bool, accounts: Accounts, entities: seq<Entity>, metrics: seq<Metric>, m: Metric)
    returns (r: MetricRow)
    requires Total(le) && UniqueEntities(entities) && m in metrics && Counted(accounts, entities, m)
    ensures r in MetricRows(le, accounts, entities, metrics) && r.metric == m
  {
    var e :| e in entities && Measures(m, e) && Coherent(accounts, e);
    MinRefIs(le, accounts, accounts[e.accountId], e, entities);
    SiblingsShareTheKey(accounts, e, e);
    var ref := MinRef(le, accounts, accounts[e.accountId], e, entities);
    r := MetricRow(KeyOf(accounts, e), m, ref.value);
    assert IsRowOf(le, accounts, entities, r);
    MetricRowsAre(le, accounts, entities, metrics, r);
  }

  // ---------------------------------------------------------------------------
  // One row per physical object and slot
  // ---------------------------------------------------------------------------

  /** No physical object twice, none missing, and the row kept of each is the one with the first
      reference. */
  lemma EntitiesOncePerKey(
    refLe: (Ref, Ref) -> bool, keyLe: (PhysicalKey, PhysicalKey) -> bool, accounts: Accounts, entities: seq<Entity>)
    requires Total(refLe) && Total(keyLe)
    ensures var view := AdEntitiesPhysical(refLe, keyLe, accounts, entities);
            && (forall i, j :: 0 <= i < j < |view| ==> view[i].key != view[j].key)
            && (forall r :: r in view ==>
                  r.entity in entities && Coherent(accounts, r.entity) && r.key == KeyOf(accounts, r.entity))
            && (forall e :: e in entities && Coherent(accounts, e) ==>
                  exists i :: 0 <= i < |view| && view[i].key == KeyOf(accounts, e) && refLe(view[i].entity.ref, e.ref))
  {
    var o, rows := EntityOrder(refLe, keyLe), EntityRows(accounts, entities);
    EntityOrderIsValid(refLe, keyLe);
    DistinctOnKeepsFirsts(o, rows);
    var view := DistinctOn(o, rows);
    forall i, j | 0 <= i < j < |view| ensures view[i].key != view[j].key {
      assert o.key(view[i]) != o.key(view[j]);
    }
    forall r | r in view
      ensures r.entity in entities && Coherent(accounts, r.entity) && r.key == KeyOf(accounts, r.entity)
    {
      EntityRowsAre(accounts, entities, r);
    }
    forall e | e in entities && Coherent(accounts, e)
      ensures exists i :: 0 <= i < |view| && view[i].key == KeyOf(accounts, e) && refLe(view[i].entity.ref, e.ref)
    {
      var r := EntityRow(KeyOf(accounts, e), e);
      EntityRowsAre(accounts, entities, r);
      assert Represents(o, view, r);
      var i :| 0 <= i < |view| && o.key(view[i]) == o.key(r) && o.tie(view[i], r);
    }
  }

  /** Of every physical object and slot that has a counted metric there is exactly one row, and no
      counted metric of the same object and slot was ingested later; none ingested with it has a higher
      revision; and none of the same revision an earlier reference: nothing is counted twice, no object
      drops out, and what is kept is the freshest. */
  lemma MetricsOncePerKeyAndSlot(
    refLe: (Ref, Ref) -> bool, keyLe: ((PhysicalKey, Slot), (PhysicalKey, Slot)) -> bool,
    accounts: Accounts, entities: seq<Entity>, metrics: seq<Metric>)
    requires Total(refLe) && Total(keyLe) && UniqueEntities(entities)
    ensures var view := MetricsPhysical(refLe, keyLe, accounts, entities, metrics);
            && (forall i, j :: 0 <= i < j < |view| ==>
                  view[i].key != view[j].key || view[i].metric.slot != view[j].metric.slot)
            && (forall r :: r in view ==> r.metric in metrics && IsRowOf(refLe, accounts, entities, r))
            && (forall m, e :: m in metrics && e in entities && Measures(m, e) && Coherent(accounts, e) ==>
                  exists i :: 0 <= i < |view| && view[i].key == KeyOf(accounts, e) && view[i].metric.slot == m.slot
                    && var kept := view[i].metric;
                    && kept.ingestedAt >= m.ingestedAt
                    && (kept.ingestedAt == m.ingestedAt ==> kept.revision >= m.revision)
                    && (kept.ingestedAt == m.ingestedAt && kept.revision == m.revision ==>
                          refLe(kept.entityRef, m.entityRef)))
  {
    var o, rows := MetricOrder(refLe, keyLe), MetricRows(refLe, accounts, entities, metrics);
    DistinctOnKeepsFirsts(o, rows);
    var view := DistinctOn(o, rows);
    forall i, j | 0 <= i < j < |view| ensures view[i].key != view[j].key || view[i].metric.slot != view[j].metric.slot {
      assert o.key(view[i]) != o.key(view[j]);
    }
    forall r | r in view ensures r.metric in metrics && IsRowOf(refLe, accounts, entities, r) {
      MetricRowsAre(refLe, accounts, entities, metrics, r);
    }
    forall m, e | m in metrics && e in entities && Measures(m, e) && Coherent(accounts, e)
      ensures exists i :: 0 <= i < |view| && view[i].key == KeyOf(accounts, e) && view[i].metric.slot == m.slot
                && Fresher(refLe, view[i].metric, m)
    {
      var r := CountedHasRow(refLe, accounts, entities, metrics, m);
      MetricRowsAre(refLe, accounts, entities, metrics, r);
      assert Represents(o, view, r);
      var i :| 0 <= i < |view| && o.key(view[i]) == o.key(r) && o.tie(view[i], r);
    }
  }

  /** A metric of a physical entity is counted if and only if it names the account and the business that
      its entity is in; the tables' own foreign keys do not demand the first. */
  lemma CountedExactlyWhenAccountAgrees(accounts: Accounts, entities: seq<Entity>, m: Metric, e: Entity)
    requires UniqueEntities(entities) && e in entities && Coherent(accounts, e)
    requires e.ref == m.entityRef
    ensures Counted(accounts, entities, m) <==> m.accountId == e.accountId && m.businessId == e.businessId
  {
    if m.accountId == e.accountId && m.businessId == e.businessId {
      assert Measures(m, e);
    }
  }

  // ---------------------------------------------------------------------------
  // The two kinds of view agree
  // ---------------------------------------------------------------------------

  /** The reference a metric row carries is that of the one row which the entity view keeps of the same
      physical object. */
  lemma PhysicalRefIsTheKeptEntity(
    refLe: (Ref, Ref) -> bool, keyLe: (PhysicalKey, PhysicalKey) -> bool,
    slotKeyLe: ((PhysicalKey, Slot), (PhysicalKey, Slot)) -> bool,
    accounts: Accounts, entities: seq<Entity>, metrics: seq<Metric>, r: MetricRow)
    requires Total(refLe) && Total(keyLe) && Total(slotKeyLe) && UniqueEntities(entities)
    requires r in MetricsPhysical(refLe, slotKeyLe, accounts, entities, metrics)
    ensures var view := AdEntitiesPhysical(refLe, keyLe, accounts, entities);
            exists i :: 0 <= i < |view| && view[i].key == r.key && view[i].entity.ref == r.physicalRef
  {
    MetricsOncePerKeyAndSlot(refLe, slotKeyLe, accounts, entities, metrics);
    EntitiesOncePerKey(refLe, keyLe, accounts, entities);
    var e :| e in entities && Measures(r.metric, e) && Coherent(accounts, e) && r.key == KeyOf(accounts, e)
      && MinRef(refLe, accounts, accounts[e.accountId], e, entities) == Some(r.physicalRef);
    MinRefIs(refLe, accounts, accounts[e.accountId], e, entities);
    var s :| s in entities && Sibling(accounts, accounts[e.accountId], e, s) && s.ref == r.physicalRef;
    SiblingsShareTheKey(accounts, e, s);
    var view := AdEntitiesPhysical(refLe, keyLe, accounts, entities);
    var i :| 0 <= i < |view| && view[i].key == KeyOf(accounts, s) && refLe(view[i].entity.ref, s.ref);
    assert view[i] in view;
    SiblingsShareTheKey(accounts, e, view[i].entity);
    assert refLe(s.ref, view[i].entity.ref);
  }

  // ---------------------------------------------------------------------------
  // Scan order does not matter
  // ---------------------------------------------------------------------------

  lemma {:induction false} EntityRowsConcat(accounts: Accounts, s: seq<Entity>, t: seq<Entity>)
    ensures EntityRows(accounts, s + t) == EntityRows(accounts, s) + EntityRows(accounts, t)
  {
    if s == [] {
      assert s + t == t;
    } else {
      EntityRowsConcat(accounts, s[1..], t);
      assert (s + t)[1..] == s[1..] + t;
    }
  }

  /** Where the first element of `s` stands in a permutation of it. */
  lemma FirstElsewhere<T>(s: seq<T>, t: seq<T>) returns (i: nat)
    requires s != [] && multiset(s) == multiset(t)
    ensures i < |t| && t[i] == s[0] && multiset(s[1..]) == multiset(t[..i] + t[i + 1..])
    ensures s == [s[0]] + s[1..] && t == t[..i] + ([t[i]] + t[i + 1..])
  {
    SameElements(s, t, s[0]);
    i :| 0 <= i < |t| && t[i] == s[0];
    assert s == [s[0]] + s[1..] && t == t[..i] + ([t[i]] + t[i + 1..]);
    assert multiset(s) == multiset{s[0]} + multiset(s[1..]);
    assert multiset(t) == multiset(t[..i]) + multiset([t[i]] + t[i + 1..]);
    assert multiset([t[i]] + t[i + 1..]) == multiset{t[i]} + multiset(t[i + 1..]);
    assert multiset(s[1..]) == multiset(s) - multiset{s[0]};
    assert multiset(t[..i] + t[i + 1..]) == multiset(t) - multiset{t[i]};
  }

  lemma {:induction false} EntityRowsPermute(accounts: Accounts, s: seq<Entity>, t: seq<Entity>)
    requires multiset(s) == multiset(t)
    ensures multiset(EntityRows(accounts, s)) == multiset(EntityRows(accounts, t))
  {
    if s == [] {
      assert |multiset(t)| == |t| && |multiset(s)| == 0;
    } else {
      var i := FirstElsewhere(s, t);
      EntityRowsPermute(accounts, s[1..], t[..i] + t[i + 1..]);
      EntityRowsConcat(accounts, [s[0]], s[1..]);
      EntityRowsConcat(accounts, t[..i], t[i + 1..]);
      EntityRowsConcat(accounts, t[..i], [t[i]] + t[i + 1..]);
      EntityRowsConcat(accounts, [t[i]], t[i + 1..]);
    }
  }

  lemma EntitiesIgnoreScanOrder(
    refLe: (Ref, Ref) -> bool, keyLe: (PhysicalKey, PhysicalKey) -> bool,
    accounts: Accounts, entities: seq<Entity>, scanned: seq<Entity>)
    requires Total(refLe) && Total(keyLe) && UniqueEntities(entities) && multiset(entities) == multiset(scanned)
    ensures AdEntitiesPhysical(refLe, keyLe, accounts, entities) == AdEntitiesPhysical(refLe, keyLe, accounts, scanned)
  {
    var o, rows := EntityOrder(refLe, keyLe), EntityRows(accounts, entities);
    EntityOrderIsValid(refLe, keyLe);
    EntityRowsPermute(accounts, entities, scanned);
    forall a, b | a in rows && b in rows && o.key(a) == o.key(b) && o.tie(a, b) && o.tie(b, a) ensures a == b {
      EntityRowsAre(accounts, entities, a);
      EntityRowsAre(accounts, entities, b);
      assert refLe(a.entity.ref, b.entity.ref) && refLe(b.entity.ref, a.entity.ref);
    }
    DistinctOnIgnoresScanOrder(o, rows, EntityRows(accounts, scanned));
  }

  lemma {:induction false} MetricRowsConcat(
    le: (Ref, Ref) -> bool, accounts: Accounts, entities: seq<Entity>, s: seq<Metric>, t: seq<Metric>)
    ensures MetricRows(le, accounts, entities, s + t) ==
            MetricRows(le, accounts, entities, s) + MetricRows(le, accounts, entities, t)
  {
    if s == [] {
      assert s + t == t;
    } else {
      MetricRowsConcat(le, accounts, entities, s[1..], t);
      assert (s + t)[1..] == s[1..] + t;
    }
  }

  lemma {:induction false} MetricRowsPermute(
    le: (Ref, Ref) -> bool, accounts: Accounts, entities: seq<Entity>, s: seq<Metric>, t: seq<Metric>)
    requires multiset(s) == multiset(t)
    ensures multiset(MetricRows(le, accounts, entities, s)) == multiset(MetricRows(le, accounts, entities, t))
  {
    if s == [] {
      assert |multiset(t)| == |t| && |multiset(s)| == 0;
    } else {
      var i := FirstElsewhere(s, t);
      MetricRowsPermute(le, accounts, entities, s[1..], t[..i] + t[i + 1..]);
      MetricRowsConcat(le, accounts, entities, [s[0]], s[1..]);
      MetricRowsConcat(le, accounts, entities, t[..i], t[i + 1..]);
      MetricRowsConcat(le, accounts, entities, t[..i], [t[i]] + t[i + 1..]);
      MetricRowsConcat(le, accounts, entities, [t[i]], t[i + 1..]);
    }
  }

  /** Nor does the order in which the subqueries find an entity or its siblings. */
  lemma {:induction false} MetricRowsIgnoreEntityOrder(
    le: (Ref, Ref) -> bool, accounts: Accounts, entities: seq<Entity>, scanned: seq<Entity>, metrics: seq<Metric>)
    requires Total(le) && UniqueEntities(entities) && multiset(entities) == multiset(scanned)
    ensures MetricRows(le, accounts, entities, metrics) == MetricRows(le, accounts, scanned, metrics)
  {
    if metrics != [] {
      MetricRowsIgnoreEntityOrder(le, accounts, entities, scanned, metrics[1..]);
      var m := metrics[0];
      forall e ensures e in entities <==> e in scanned {
        SameElements(entities, scanned, e);
      }
      EntityOfIs(entities, m);
      EntityOfIs(scanned, m);
      assert EntityOf(entities, m) == EntityOf(scanned, m);
      if EntityOf(entities, m).Some? && Coherent(accounts, EntityOf(entities, m).value) {
        var e := EntityOf(entities, m).value;
        MinRefIs(le, accounts, accounts[e.accountId], e, entities);
        MinRefIs(le, accounts, accounts[e.accountId], e, scanned);
      }
    }
  }

  /** Whatever order the tables are scanned in, the metric views are the same, row for row: the
      reference breaks every tie. */
  lemma MetricsIgnoreScanOrder(
    refLe: (Ref, Ref) -> bool, keyLe: ((PhysicalKey, Slot), (PhysicalKey, Slot)) -> bool, accounts: Accounts,
    entities: seq<Entity>, scannedEntities: seq<Entity>, metrics: seq<Metric>, scannedMetrics: seq<Metric>)
    requires Total(refLe) && Total(keyLe) && UniqueEntities(entities) && UniqueMetrics(metrics)
    requires multiset(entities) == multiset(scannedEntities) && multiset(metrics) == multiset(scannedMetrics)
    ensures MetricsPhysical(refLe, keyLe, accounts, entities, metrics) ==
            MetricsPhysical(refLe, keyLe, accounts, scannedEntities, scannedMetrics)
  {
    var o, rows := MetricOrder(refLe, keyLe), MetricRows(refLe, accounts, entities, metrics);
    MetricRowsPermute(refLe, accounts, entities, metrics, scannedMetrics);
    MetricRowsIgnoreEntityOrder(refLe, accounts, entities, scannedEntities, scannedMetrics);
    forall a, b | a in rows && b in rows && o.key(a) == o.key(b) && o.tie(a, b) && o.tie(b, a) ensures a == b {
      MetricRowsAre(refLe, accounts, entities, metrics, a);
      MetricRowsAre(refLe, accounts, entities, metrics, b);
      assert a.metric.entityRef == b.metric.entityRef;
    }
    DistinctOnIgnoresScanOrder(o, rows, MetricRows(refLe, accounts, scannedEntities, scannedMetrics));
  }
}
