/** The backfill that gives every existing runtime job and campaign draft a workspace: six statements
    in order, each a method on the three tables. A job's id is written here as its 32 digits, without
    the hyphens, which is how draft keys hold it. */
module Workspaces {
  import opened Wrappers

  type Id = string

  /** `title` and the draft's fields are what the JSON documents hold under those names, if anything. */
  datatype Job = Job(businessId: Id, slug: string, title: Option<string>, createdAt: int, workspaceId: Option<Id>)

  datatype Draft = Draft(
    businessId: Id, draftKey: string, title: Option<string>, objective: Option<string>, notes: Option<string>,
    updatedAt: int, workspaceId: Option<Id>)

  /** What was carried over from a draft. */
  datatype Intent = Intent(objective: Option<string>, notes: Option<string>)

  datatype Brief = Brief(title: Option<string>, sourceSlug: Option<string>, intent: Option<Intent>)

  datatype Workspace = Workspace(businessId: Id, workspaceKey: string, brief: Brief)

  predicate At(w: Workspace, businessId: Id, key: string) {
    w.businessId == businessId && w.workspaceKey == key
  }

  function LaunchKey(slug: string): string {
    "launch:" + slug
  }

  function DraftKey(draftKey: string): string {
    "draft:" + draftKey
  }

  lemma KeyFamiliesAreApart(s: string, t: string)
    ensures LaunchKey(s)[..7] == "launch:" && LaunchKey(s)[7..] == s
    ensures DraftKey(t)[..6] == "draft:" && DraftKey(t)[6..] == t
    ensures LaunchKey(s) != DraftKey(t)
    ensures LaunchKey(s) == LaunchKey(t) ==> s == t
    ensures DraftKey(s) == DraftKey(t) ==> s == t
  {
    assert LaunchKey(s)[0] == 'l' && DraftKey(t)[0] == 'd';
    assert LaunchKey(s)[7..] == s && LaunchKey(t)[7..] == t;
    assert DraftKey(s)[6..] == s && DraftKey(t)[6..] == t;
  }

  /** The draft was written by the job: its key is the job's id behind a prefix. */
  predicate WrittenBy(d: Draft, jobId: Id, j: Job) {
    d.businessId == j.businessId && d.draftKey == "runtime-" + jobId
  }

  lemma OneWriter(d: Draft, a: Id, j: Job, b: Id, k: Job)
    requires WrittenBy(d, a, j) && WrittenBy(d, b, k)
    ensures a == b
  {
    assert d.draftKey[8..] == a && d.draftKey[8..] == b;
  }

  /** Among the jobs of one slug, none is newer. */
  predicate NewestJob(jobs: map<Id, Job>, id: Id) {
    && id in jobs
    && forall k :: k in jobs && jobs[k].businessId == jobs[id].businessId && jobs[k].slug == jobs[id].slug ==>
         jobs[k].createdAt <= jobs[id].createdAt
  }

  /** Latest change first, then the smaller id. */
  predicate Precedes(idLe: (Id, Id) -> bool, drafts: map<Id, Draft>, a: Id, b: Id)
    requires a in drafts && b in drafts
  {
    drafts[a].updatedAt > drafts[b].updatedAt || (drafts[a].updatedAt == drafts[b].updatedAt && idLe(a, b))
  }

  predicate SameScope(a: Draft, b: Draft) {
    a.businessId == b.businessId && a.workspaceId == b.workspaceId
  }

  predicate LatestDraft(idLe: (Id, Id) -> bool, drafts: map<Id, Draft>, id: Id) {
    && id in drafts
    && forall k :: k in drafts && SameScope(drafts[k], drafts[id]) ==> Precedes(idLe, drafts, id, k)
  }

  ghost predicate TotalIds(idLe: (Id, Id) -> bool) {
    && (forall a, b :: idLe(a, b) || idLe(b, a))
    && (forall a, b, c :: idLe(a, b) && idLe(b, c) ==> idLe(a, c))
  }

  // ---------------------------------------------------------------------------
  // What holds after which statement
  // ---------------------------------------------------------------------------

  /** The unique constraint on workspaces. */
  ghost predicate UniqueKeys(workspaces: map<Id, Workspace>) {
    forall v, w :: v in workspaces && w in workspaces && v != w ==>
      !At(workspaces[v], workspaces[w].businessId, workspaces[w].workspaceKey)
  }

  ghost predicate UniqueDraftKeys(drafts: map<Id, Draft>) {
    forall d, e :: d in drafts && e in drafts && d != e ==>
      drafts[d].businessId != drafts[e].businessId || drafts[d].draftKey != drafts[e].draftKey
  }

  predicate IsLaunch(w: Workspace, j: Job) {
    At(w, j.businessId, LaunchKey(j.slug))
  }

  predicate IsDraftOf(w: Workspace, d: Draft) {
    At(w, d.businessId, DraftKey(d.draftKey))
  }

  /** The row without the column this migration adds. */
  function Bare(j: Job): Job {
    j.(workspaceId := None)
  }

  function BareDraft(d: Draft): Draft {
    d.(workspaceId := None)
  }

  predicate SameJobs(before: map<Id, Job>, after: map<Id, Job>) {
    before.Keys == after.Keys && forall j :: j in before ==> Bare(after[j]) == Bare(before[j])
  }

  predicate SameDrafts(before: map<Id, Draft>, after: map<Id, Draft>) {
    before.Keys == after.Keys && forall d :: d in before ==> BareDraft(after[d]) == BareDraft(before[d])
  }

  /** Every job is in the workspace of its slug, in its own business. */
  ghost predicate JobsAdopted(jobs: map<Id, Job>, workspaces: map<Id, Workspace>) {
    forall j :: j in jobs ==>
      jobs[j].workspaceId.Some? && jobs[j].workspaceId.value in workspaces
        && IsLaunch(workspaces[jobs[j].workspaceId.value], jobs[j])
  }

  ghost predicate HasJob(jobs: map<Id, Job>, d: Draft) {
    exists j :: j in jobs && WrittenBy(d, j, jobs[j])
  }

  /** A draft that a job wrote is in that job's workspace; any other in its own, in its own business. */
  ghost predicate DraftAdopted(jobs: map<Id, Job>, workspaces: map<Id, Workspace>, d: Draft) {
    && d.workspaceId.Some? && d.workspaceId.value in workspaces
    && workspaces[d.workspaceId.value].businessId == d.businessId
    && (forall j :: j in jobs && WrittenBy(d, j, jobs[j]) ==> d.workspaceId == jobs[j].workspaceId)
    && (!HasJob(jobs, d) ==> IsDraftOf(workspaces[d.workspaceId.value], d))
  }

  ghost predicate DraftsAdopted(jobs: map<Id, Job>, drafts: map<Id, Draft>, workspaces: map<Id, Workspace>) {
    forall d :: d in drafts ==> DraftAdopted(jobs, workspaces, drafts[d])
  }

  ghost predicate InUse(jobs: map<Id, Job>, drafts: map<Id, Draft>, id: Id) {
    || (exists j :: j in jobs && jobs[j].workspaceId == Some(id))
    || (exists d :: d in drafts && drafts[d].workspaceId == Some(id))
  }

  /** The title is that of a newest job of the slug, or the slug itself; and the slug is kept. */
  ghost predicate LaunchBrief(jobs: map<Id, Job>, w: Workspace) {
    exists j :: NewestJob(jobs, j) && IsLaunch(w, jobs[j])
      && w.brief.title == Some(if jobs[j].title.Some? then jobs[j].title.value else jobs[j].slug)
      && w.brief.sourceSlug == Some(jobs[j].slug)
  }

  ghost predicate DraftBrief(drafts: map<Id, Draft>, w: Workspace) {
    exists d :: d in drafts && IsDraftOf(w, drafts[d]) && w.brief.title == drafts[d].title && w.brief.sourceSlug.None?
  }

  /** Objective and notes are those of the latest draft of the workspace, if it has any. */
  ghost predicate IntentCarried(idLe: (Id, Id) -> bool, drafts: map<Id, Draft>, id: Id, w: Workspace) {
    && (w.brief.intent.None? ==>
          forall d :: d in drafts ==> drafts[d].workspaceId != Some(id) || drafts[d].businessId != w.businessId)
    && (w.brief.intent.Some? ==>
          exists d :: LatestDraft(idLe, drafts, d) && drafts[d].workspaceId == Some(id)
            && drafts[d].businessId == w.businessId
            && w.brief.intent.value == Intent(drafts[d].objective, drafts[d].notes))
  }

  // ---------------------------------------------------------------------------
  // One row of each UPDATE
  // ---------------------------------------------------------------------------

  ghost predicate JobLinked(workspaces: map<Id, Workspace>, before: Job, after: Job) {
    && Bare(after) == Bare(before)
    && (forall w :: w in workspaces && IsLaunch(workspaces[w], before) ==> after.workspaceId == Some(w))
    && ((forall w :: w in workspaces ==> !IsLaunch(workspaces[w], before)) ==> after == before)
  }

  ghost predicate RuntimeDraftLinked(jobs: map<Id, Job>, before: Draft, after: Draft) {
    && BareDraft(after) == BareDraft(before)
    && (forall j :: j in jobs && WrittenBy(before, j, jobs[j]) ==> after.workspaceId == jobs[j].workspaceId)
    && (!HasJob(jobs, before) ==> after == before)
  }

  lemma RuntimeLinkFits(jobs: map<Id, Job>, d: Draft, j: Id)
    requires j in jobs && WrittenBy(d, j, jobs[j])
    ensures RuntimeDraftLinked(jobs, d, d.(workspaceId := jobs[j].workspaceId))
  {
    forall k | k in jobs && WrittenBy(d, k, jobs[k]) ensures k == j {
      OneWriter(d, k, jobs[k], j, jobs[j]);
    }
  }

  ghost predicate DraftLinked(workspaces: map<Id, Workspace>, before: Draft, after: Draft) {
    && BareDraft(after) == BareDraft(before)
    && (before.workspaceId.Some? ==> after == before)
    && (before.workspaceId.None? ==>
          forall w :: w in workspaces && IsDraftOf(workspaces[w], before) ==> after.workspaceId == Some(w))
  }

  ghost predicate OfJob(jobs: map<Id, Job>, w: Workspace) {
    exists j :: j in jobs && IsLaunch(w, jobs[j])
  }

  function NewWorkspace(d: Draft): Workspace {
    Workspace(d.businessId, DraftKey(d.draftKey), Brief(d.title, None, None))
  }

  /** The workspace was made for a draft without one, none of those in `todo`. */
  ghost predicate OfDraft(drafts: map<Id, Draft>, todo: set<Id>, w: Workspace) {
    exists d :: d in drafts && d !in todo && drafts[d].workspaceId.None? && IsDraftOf(w, drafts[d])
      && w.brief == Brief(drafts[d].title, None, None)
  }

  lemma OfDraftGrows(drafts: map<Id, Draft>, todo: set<Id>, d: Id)
    ensures forall w :: OfDraft(drafts, todo, w) ==> OfDraft(drafts, todo - {d}, w)
    ensures d in drafts && drafts[d].workspaceId.None? ==>
              OfDraft(drafts, todo - {d}, NewWorkspace(drafts[d]))
  {
    forall w | OfDraft(drafts, todo, w) ensures OfDraft(drafts, todo - {d}, w) {
      var e :| e in drafts && e !in todo && drafts[e].workspaceId.None? && IsDraftOf(w, drafts[e])
        && w.brief == Brief(drafts[e].title, None, None);
      assert e !in todo - {d};
    }
    if d in drafts && drafts[d].workspaceId.None? {
      var w := NewWorkspace(drafts[d]);
      assert d !in todo - {d} && IsDraftOf(w, drafts[d]);
    }
  }

  /** A workspace made for a job, or for a draft other than `d`, is not the one that `d` needs: the
      insert meets no workspace of the same business and key. */
  lemma NotTaken(jobs: map<Id, Job>, drafts: map<Id, Draft>, todo: set<Id>, d: Id, w: Workspace)
    requires UniqueDraftKeys(drafts) && d in drafts && d in todo
    requires OfJob(jobs, w) || OfDraft(drafts, todo, w)
    ensures !IsDraftOf(w, drafts[d])
  {
    if OfJob(jobs, w) {
      var j :| j in jobs && IsLaunch(w, jobs[j]);
      KeyFamiliesAreApart(jobs[j].slug, drafts[d].draftKey);
    } else {
      var e :| e in drafts && e !in todo && drafts[e].workspaceId.None? && IsDraftOf(w, drafts[e])
        && w.brief == Brief(drafts[e].title, None, None);
      KeyFamiliesAreApart(drafts[e].draftKey, drafts[d].draftKey);
      assert d != e;
      assert drafts[d].businessId != drafts[e].businessId || drafts[d].draftKey != drafts[e].draftKey;
    }
  }

  ghost predicate HasKey(workspaces: map<Id, Workspace>, businessId: Id, key: string) {
    exists w :: w in workspaces && At(workspaces[w], businessId, key)
  }

  /** How far the first INSERT has come: the jobs still in `todo` are to be seen to. */
  ghost predicate Launching(jobs: map<Id, Job>, todo: set<Id>, workspaces: map<Id, Workspace>) {
    && UniqueKeys(workspaces)
    && (forall j :: j in jobs && j !in todo ==> HasKey(workspaces, jobs[j].businessId, LaunchKey(jobs[j].slug)))
    && (forall w :: w in workspaces ==> LaunchBrief(jobs, workspaces[w]) && workspaces[w].brief.intent.None?)
  }

  lemma AddedKeyIsUnique(workspaces: map<Id, Workspace>, id: Id, w: Workspace)
    requires UniqueKeys(workspaces) && id !in workspaces && !HasKey(workspaces, w.businessId, w.workspaceKey)
    ensures UniqueKeys(workspaces[id := w])
    ensures forall b, k :: HasKey(workspaces, b, k) ==> HasKey(workspaces[id := w], b, k)
    ensures HasKey(workspaces[id := w], w.businessId, w.workspaceKey)
  {
    var after := workspaces[id := w];
    assert At(after[id], w.businessId, w.workspaceKey);
    forall b, k | HasKey(workspaces, b, k) ensures HasKey(after, b, k) {
      var v :| v in workspaces && At(workspaces[v], b, k);
      assert At(after[v], b, k);
    }
  }

  lemma LaunchOne(jobs: map<Id, Job>, todo: set<Id>, workspaces: map<Id, Workspace>, j: Id, id: Id, w: Workspace)
    requires Launching(jobs, todo, workspaces) && j in jobs && j in todo && id !in workspaces
    requires IsLaunch(w, jobs[j]) && !HasKey(workspaces, w.businessId, w.workspaceKey)
    requires LaunchBrief(jobs, w) && w.brief.intent.None?
    ensures Launching(jobs, todo - {j}, workspaces[id := w])
  {
    AddedKeyIsUnique(workspaces, id, w);
  }

  /** Drafts already seen to have their workspace, and nothing else has changed. */
  ghost predicate Placed(drafts: map<Id, Draft>, todo: set<Id>, before: map<Id, Workspace>, after: map<Id, Workspace>) {
    && UniqueKeys(after)
    && (forall w :: w in before ==> w in after && after[w] == before[w])
    && (forall d :: d in drafts && d !in todo && drafts[d].workspaceId.None? ==>
          HasKey(after, drafts[d].businessId, DraftKey(drafts[d].draftKey)))
    && (forall w :: w in after && w !in before ==> OfDraft(drafts, todo, after[w]))
  }

  /** The drafts that the second INSERT is for. */
  function Unplaced(drafts: map<Id, Draft>): set<Id> {
    set d | d in drafts && drafts[d].workspaceId.None?
  }

  /** No insert met a workspace of the same business and key, neither one that was there nor another of
      the new ones: there are as many of these as drafts were seen to. */
  ghost predicate NothingMet(drafts: map<Id, Draft>, todo: set<Id>, before: map<Id, Workspace>,
                             after: map<Id, Workspace>)
  {
    && (forall d :: d in Unplaced(drafts) && d !in todo ==>
          !HasKey(before, drafts[d].businessId, DraftKey(drafts[d].draftKey)))
    && |after| == |before| + |Unplaced(drafts) - todo|
  }

  /** How far the second INSERT has come: the drafts still in `todo` are to be seen to. */
  ghost predicate Inserting(drafts: map<Id, Draft>, todo: set<Id>, before: map<Id, Workspace>,
                            after: map<Id, Workspace>)
  {
    Placed(drafts, todo, before, after) && NothingMet(drafts, todo, before, after)
  }

  lemma KeyIsFree(
    jobs: map<Id, Job>, drafts: map<Id, Draft>, todo: set<Id>, before: map<Id, Workspace>,
    after: map<Id, Workspace>, d: Id)
    requires UniqueDraftKeys(drafts) && Inserting(drafts, todo, before, after)
    requires forall w :: w in before ==> OfJob(jobs, before[w])
    requires d in drafts && d in todo
    ensures !HasKey(after, drafts[d].businessId, DraftKey(drafts[d].draftKey))
    ensures !HasKey(before, drafts[d].businessId, DraftKey(drafts[d].draftKey))
  {
    forall w | w in after ensures !IsDraftOf(after[w], drafts[d]) {
      NotTaken(jobs, drafts, todo, d, after[w]);
    }
  }

  lemma PlaceOne(drafts: map<Id, Draft>, todo: set<Id>, before: map<Id, Workspace>, after: map<Id, Workspace>, d: Id,
                 id: Id)
    requires Placed(drafts, todo, before, after) && d in drafts && d in todo && drafts[d].workspaceId.None?
    requires id !in after && !HasKey(after, drafts[d].businessId, DraftKey(drafts[d].draftKey))
    ensures Placed(drafts, todo - {d}, before, after[id := NewWorkspace(drafts[d])])
  {
    OfDraftGrows(drafts, todo, d);
    AddedKeyIsUnique(after, id, NewWorkspace(drafts[d]));
    var after' := after[id := NewWorkspace(drafts[d])];
    assert forall v :: v in after' && v !in before ==> OfDraft(drafts, todo - {d}, after'[v]);
    forall e | e in drafts && e !in todo - {d} && drafts[e].workspaceId.None?
      ensures HasKey(after', drafts[e].businessId, DraftKey(drafts[e].draftKey))
    {
      assert e != d ==> HasKey(after, drafts[e].businessId, DraftKey(drafts[e].draftKey));
    }
  }

  lemma NothingMetByOne(drafts: map<Id, Draft>, todo: set<Id>, before: map<Id, Workspace>,
                        after: map<Id, Workspace>, d: Id, id: Id, w: Workspace)
    requires NothingMet(drafts, todo, before, after) && d in Unplaced(drafts) && d in todo && id !in after
    requires !HasKey(before, drafts[d].businessId, DraftKey(drafts[d].draftKey))
    ensures NothingMet(drafts, todo - {d}, before, after[id := w])
  {
    assert Unplaced(drafts) - (todo - {d}) == Unplaced(drafts) - todo + {d};
  }

  lemma SkipOne(drafts: map<Id, Draft>, todo: set<Id>, before: map<Id, Workspace>, after: map<Id, Workspace>, d: Id)
    requires Placed(drafts, todo, before, after) && d in drafts && drafts[d].workspaceId.Some?
    ensures Placed(drafts, todo - {d}, before, after)
    ensures Unplaced(drafts) - (todo - {d}) == Unplaced(drafts) - todo
  {
    OfDraftGrows(drafts, todo, d);
  }

  ghost predicate Carried(idLe: (Id, Id) -> bool, drafts: map<Id, Draft>, id: Id, before: Workspace, after: Workspace) {
    && after.(brief := after.brief.(intent := None)) == before.(brief := before.brief.(intent := None))
    && IntentCarried(idLe, drafts, id, after)
  }

  ghost predicate BriefMade(jobs: map<Id, Job>, drafts: map<Id, Draft>, w: Workspace) {
    LaunchBrief(jobs, w) || DraftBrief(drafts, w)
  }

  /** The draft is in the workspace. */
  predicate Within(drafts: map<Id, Draft>, d: Id, id: Id, businessId: Id) {
    d in drafts && drafts[d].workspaceId == Some(id) && drafts[d].businessId == businessId
  }

  /** What a workspace carries is the intent of a draft of its own that no other one of its own was changed
      after, nor at the same time with a smaller id; and it carries none only if it has no draft. */
  lemma CarriedIntentIsTheLatest(idLe: (Id, Id) -> bool, drafts: map<Id, Draft>, id: Id, w: Workspace)
    ensures IntentCarried(idLe, drafts, id, w) <==>
            if w.brief.intent.None? then forall d :: !Within(drafts, d, id, w.businessId)
            else
              exists d :: Within(drafts, d, id, w.businessId)
                && w.brief.intent.value.objective == drafts[d].objective
                && w.brief.intent.value.notes == drafts[d].notes
                && forall k :: Within(drafts, k, id, w.businessId) ==>
                     || drafts[k].updatedAt < drafts[d].updatedAt
                     || (drafts[k].updatedAt == drafts[d].updatedAt && idLe(d, k))
  {
    if w.brief.intent.Some? {
      if IntentCarried(idLe, drafts, id, w) {
        var d :| LatestDraft(idLe, drafts, d) && drafts[d].workspaceId == Some(id)
                 && drafts[d].businessId == w.businessId
                 && w.brief.intent.value == Intent(drafts[d].objective, drafts[d].notes);
        assert Within(drafts, d, id, w.businessId);
      }
      if d :| Within(drafts, d, id, w.businessId)
              && w.brief.intent.value.objective == drafts[d].objective && w.brief.intent.value.notes == drafts[d].notes
              && forall k :: Within(drafts, k, id, w.businessId) ==>
                   || drafts[k].updatedAt < drafts[d].updatedAt
                   || (drafts[k].updatedAt == drafts[d].updatedAt && idLe(d, k)) {
        forall k | k in drafts && SameScope(drafts[k], drafts[d]) ensures Precedes(idLe, drafts, d, k) {
          assert Within(drafts, k, id, w.businessId);
        }
        assert LatestDraft(idLe, drafts, d);
      }
    } else {
      assert forall d :: d in drafts ==>
          Within(drafts, d, id, w.businessId)
          == (drafts[d].workspaceId == Some(id) && drafts[d].businessId == w.businessId);
    }
  }

  /** A launch workspace is titled as one of its own jobs that none of them was created after, and names the
      slug as its source. */
  lemma LaunchTitleIsTheNewest(jobs: map<Id, Job>, w: Workspace)
    ensures LaunchBrief(jobs, w) <==>
            exists j :: j in jobs && jobs[j].businessId == w.businessId && w.workspaceKey == "launch:" + jobs[j].slug
              && w.brief.title == (if jobs[j].title.Some? then jobs[j].title else Some(jobs[j].slug))
              && w.brief.sourceSlug == Some(jobs[j].slug)
              && forall k :: k in jobs && jobs[k].businessId == w.businessId && jobs[k].slug == jobs[j].slug ==>
                   jobs[k].createdAt <= jobs[j].createdAt
  {
    if LaunchBrief(jobs, w) {
      var j :| NewestJob(jobs, j) && IsLaunch(w, jobs[j])
        && w.brief.title == Some(if jobs[j].title.Some? then jobs[j].title.value else jobs[j].slug)
        && w.brief.sourceSlug == Some(jobs[j].slug);
    }
    if j :| j in jobs && jobs[j].businessId == w.businessId && w.workspaceKey == "launch:" + jobs[j].slug
            && w.brief.title == (if jobs[j].title.Some? then jobs[j].title else Some(jobs[j].slug))
            && w.brief.sourceSlug == Some(jobs[j].slug)
            && forall k :: k in jobs && jobs[k].businessId == w.businessId && jobs[k].slug == jobs[j].slug ==>
                 jobs[k].createdAt <= jobs[j].createdAt {
      assert NewestJob(jobs, j) && IsLaunch(w, jobs[j]);
    }
  }

  // ---------------------------------------------------------------------------
  // From one statement to the next
  // ---------------------------------------------------------------------------

  lemma SameBareJob(a: Job, b: Job)
    requires Bare(a) == Bare(b)
    ensures a.businessId == b.businessId && a.slug == b.slug
  {
    assert Bare(a).businessId == Bare(b).businessId && Bare(a).slug == Bare(b).slug;
  }

  lemma LaunchesAreOfJobs(before: map<Id, Job>, jobs: map<Id, Job>, launched: map<Id, Workspace>)
    requires Launching(before, {}, launched)
    requires jobs.Keys == before.Keys && forall j :: j in jobs ==> JobLinked(launched, before[j], jobs[j])
    ensures SameJobs(before, jobs) && JobsAdopted(jobs, launched)
    ensures forall w :: w in launched ==>
              OfJob(jobs, launched[w]) && exists j :: j in jobs && jobs[j].workspaceId == Some(w)
  {
    forall j | j in jobs
      ensures jobs[j].workspaceId.Some? && jobs[j].workspaceId.value in launched
           && IsLaunch(launched[jobs[j].workspaceId.value], jobs[j])
    {
      assert HasKey(launched, before[j].businessId, LaunchKey(before[j].slug));
      var w :| w in launched && IsLaunch(launched[w], before[j]);
      SameBareJob(before[j], jobs[j]);
    }
    forall w | w in launched
      ensures OfJob(jobs, launched[w]) && exists j :: j in jobs && jobs[j].workspaceId == Some(w)
    {
      assert LaunchBrief(before, launched[w]);
      var j :| NewestJob(before, j) && IsLaunch(launched[w], before[j]);
      SameBareJob(before[j], jobs[j]);
      assert jobs[j].workspaceId == Some(w) && IsLaunch(launched[w], jobs[j]);
    }
  }

  lemma SameBareDraft(a: Draft, b: Draft)
    requires BareDraft(a) == BareDraft(b)
    ensures a.businessId == b.businessId && a.draftKey == b.draftKey && a.title == b.title
  {
    assert BareDraft(a).businessId == BareDraft(b).businessId && BareDraft(a).draftKey == BareDraft(b).draftKey
        && BareDraft(a).title == BareDraft(b).title;
  }

  lemma RuntimeDraftsKeepKeys(jobs: map<Id, Job>, before: map<Id, Draft>, drafts: map<Id, Draft>)
    requires UniqueDraftKeys(before) && drafts.Keys == before.Keys
    requires forall d :: d in drafts ==> RuntimeDraftLinked(jobs, before[d], drafts[d])
    ensures SameDrafts(before, drafts) && UniqueDraftKeys(drafts)
  {
    forall d | d in drafts
      ensures drafts[d].businessId == before[d].businessId && drafts[d].draftKey == before[d].draftKey
    {
      SameBareDraft(drafts[d], before[d]);
    }
  }

  lemma AdoptsDraft(jobs: map<Id, Job>, workspaces: map<Id, Workspace>, original: Draft, linked: Draft, after: Draft)
    requires JobsAdopted(jobs, workspaces) && original.workspaceId.None?
    requires RuntimeDraftLinked(jobs, original, linked) && DraftLinked(workspaces, linked, after)
    requires linked.workspaceId.None? ==> HasKey(workspaces, linked.businessId, DraftKey(linked.draftKey))
    ensures BareDraft(after) == BareDraft(original) && DraftAdopted(jobs, workspaces, after)
  {
    SameBareDraft(original, linked);
    SameBareDraft(linked, after);
    forall j | j in jobs ensures WrittenBy(original, j, jobs[j]) <==> WrittenBy(after, j, jobs[j]) {
    }
    if HasJob(jobs, original) {
      var j :| j in jobs && WrittenBy(original, j, jobs[j]);
      assert after.workspaceId == jobs[j].workspaceId;
      assert IsLaunch(workspaces[jobs[j].workspaceId.value], jobs[j]);
    } else {
      var w :| w in workspaces && At(workspaces[w], linked.businessId, DraftKey(linked.draftKey));
      assert IsDraftOf(workspaces[w], linked);
      assert !HasJob(jobs, after);
    }
  }

  lemma AdoptsEverything(
    originalJobs: map<Id, Job>, jobs: map<Id, Job>, launched: map<Id, Workspace>,
    originals: map<Id, Draft>, drafts: map<Id, Draft>, created: map<Id, Workspace>, after: map<Id, Draft>)
    requires JobsAdopted(jobs, launched) && Inserting(drafts, {}, launched, created)
    requires originals.Keys == drafts.Keys == after.Keys && Launching(originalJobs, {}, launched)
    requires forall w :: w in launched ==> exists j :: j in jobs && jobs[j].workspaceId == Some(w)
    requires forall d :: d in drafts ==>
               && originals[d].workspaceId.None? && RuntimeDraftLinked(jobs, originals[d], drafts[d])
               && DraftLinked(created, drafts[d], after[d])
    ensures SameDrafts(originals, after) && JobsAdopted(jobs, created) && DraftsAdopted(jobs, after, created)
    ensures forall w :: w in created ==>
              && InUse(jobs, after, w) && BriefMade(originalJobs, originals, created[w])
              && created[w].brief.intent.None?
  {
    forall d | d in drafts
      ensures BareDraft(after[d]) == BareDraft(originals[d]) && DraftAdopted(jobs, created, after[d])
    {
      AdoptsDraft(jobs, created, originals[d], drafts[d], after[d]);
    }
    forall w | w in created
      ensures InUse(jobs, after, w) && BriefMade(originalJobs, originals, created[w]) && created[w].brief.intent.None?
    {
      if w in launched {
        assert LaunchBrief(originalJobs, launched[w]);
      } else {
        assert OfDraft(drafts, {}, created[w]);
        var d :| d in drafts && drafts[d].workspaceId.None? && IsDraftOf(created[w], drafts[d])
          && created[w].brief == Brief(drafts[d].title, None, None);
        assert after[d].workspaceId == Some(w);
        SameBareDraft(originals[d], drafts[d]);
        assert IsDraftOf(created[w], originals[d]);
        assert DraftBrief(originals, created[w]);
      }
    }
  }

  lemma CarriedKeeps(
    idLe: (Id, Id) -> bool, jobs: map<Id, Job>, originals: map<Id, Draft>, drafts: map<Id, Draft>, id: Id,
    before: Workspace, after: Workspace)
    requires Carried(idLe, drafts, id, before, after) && BriefMade(jobs, originals, before)
    ensures after.businessId == before.businessId && after.workspaceKey == before.workspaceKey
    ensures BriefMade(jobs, originals, after)
  {
    var a, b := after.(brief := after.brief.(intent := None)), before.(brief := before.brief.(intent := None));
    assert a.businessId == b.businessId && a.workspaceKey == b.workspaceKey;
    assert a.brief.title == b.brief.title && a.brief.sourceSlug == b.brief.sourceSlug;
    if LaunchBrief(jobs, before) {
      var j :| NewestJob(jobs, j) && IsLaunch(before, jobs[j])
        && before.brief.title == Some(if jobs[j].title.Some? then jobs[j].title.value else jobs[j].slug)
        && before.brief.sourceSlug == Some(jobs[j].slug);
      assert IsLaunch(after, jobs[j]);
      assert LaunchBrief(jobs, after);
    } else {
      var d :| d in originals && IsDraftOf(before, originals[d]) && before.brief.title == originals[d].title
        && before.brief.sourceSlug.None?;
      assert IsDraftOf(after, originals[d]);
      assert DraftBrief(originals, after);
    }
  }

  lemma CarryingKeepsAdoption(
    idLe: (Id, Id) -> bool, originalJobs: map<Id, Job>, originals: map<Id, Draft>, jobs: map<Id, Job>,
    drafts: map<Id, Draft>,
    before: map<Id, Workspace>, after: map<Id, Workspace>)
    requires before.Keys == after.Keys && forall w :: w in after ==> Carried(idLe, drafts, w, before[w], after[w])
    requires JobsAdopted(jobs, before) && DraftsAdopted(jobs, drafts, before) && UniqueKeys(before)
    requires forall w :: w in before ==> BriefMade(originalJobs, originals, before[w])
    ensures JobsAdopted(jobs, after) && DraftsAdopted(jobs, drafts, after) && UniqueKeys(after)
    ensures forall w :: w in after ==>
              && BriefMade(originalJobs, originals, after[w])
              && after[w].businessId == before[w].businessId && after[w].workspaceKey == before[w].workspaceKey
  {
    forall w | w in after
      ensures after[w].businessId == before[w].businessId && after[w].workspaceKey == before[w].workspaceKey
           && BriefMade(originalJobs, originals, after[w])
    {
      CarriedKeeps(idLe, originalJobs, originals, drafts, w, before[w], after[w]);
    }
    forall d | d in drafts ensures DraftAdopted(jobs, after, drafts[d]) {
      assert DraftAdopted(jobs, before, drafts[d]);
    }
  }

  // ---------------------------------------------------------------------------
  // The statements
  // ---------------------------------------------------------------------------

  class Backfill {
    /** An id for a new workspace, given those taken, and the order of ids. */
    const newId: set<Id> -> Id
    const idLe: (Id, Id) -> bool
    var jobs: map<Id, Job>
    var drafts: map<Id, Draft>
    var workspaces: map<Id, Workspace>

    /** New ids are new; they have nothing to do with the workspace's key. */
    ghost predicate Valid() {
      (forall taken :: newId(taken) !in taken) && TotalIds(idLe)
    }

    constructor (newId: set<Id> -> Id, idLe: (Id, Id) -> bool, jobs: map<Id, Job>, drafts: map<Id, Draft>)
      ensures this.newId == newId && this.idLe == idLe && this.jobs == jobs && this.drafts == drafts
      ensures workspaces == map[]
    {
      this.newId, this.idLe, this.jobs, this.drafts, workspaces := newId, idLe, jobs, drafts, map[];
    }

    method NewestOf(j: Id) returns (newest: Id)
      requires j in jobs
      ensures NewestJob(jobs, newest) && jobs[newest].businessId == jobs[j].businessId
      ensures jobs[newest].slug == jobs[j].slug
    {
      newest := j;
      var todo := jobs.Keys;
      while todo != {}
        invariant todo <= jobs.Keys && newest in jobs
        invariant jobs[newest].businessId == jobs[j].businessId && jobs[newest].slug == jobs[j].slug
        invariant forall k ::
              k in jobs && k !in todo && jobs[k].businessId == jobs[j].businessId && jobs[k].slug == jobs[j].slug ==>
                jobs[k].createdAt <= jobs[newest].createdAt
        decreases |todo|
      {
        var k :| k in todo;
        if jobs[k].businessId == jobs[j].businessId && jobs[k].slug == jobs[j].slug
          && jobs[k].createdAt > jobs[newest].createdAt {
          newest := k;
        }
        todo := todo - {k};
      }
    }

    /** One workspace per business and slug that has a job. */
    method InsertLaunches()
      requires Valid() && workspaces == map[]
      modifies this`workspaces
      ensures Launching(jobs, {}, workspaces)
    {
      var todo := jobs.Keys;
      while todo != {}
        invariant todo <= jobs.Keys && Launching(jobs, todo, workspaces)
        decreases |todo|
      {
        var j :| j in todo;
        if w :| w in workspaces && IsLaunch(workspaces[w], jobs[j]) {
          assert HasKey(workspaces, jobs[j].businessId, LaunchKey(jobs[j].slug));
        } else {
          var newest := NewestOf(j);
          var title := if jobs[newest].title.Some? then jobs[newest].title.value else jobs[newest].slug;
          var w := Workspace(jobs[j].businessId, LaunchKey(jobs[j].slug), Brief(Some(title), Some(jobs[j].slug), None));
          assert IsLaunch(w, jobs[newest]);
          var id := newId(workspaces.Keys);
          LaunchOne(jobs, todo, workspaces, j, id, w);
          workspaces := workspaces[id := w];
        }
        todo := todo - {j};
      }
    }

    method LinkJobs()
      requires Valid() && UniqueKeys(workspaces)
      modifies this`jobs
      ensures jobs.Keys == old(jobs).Keys
      ensures forall j :: j in jobs ==> JobLinked(workspaces, old(jobs)[j], jobs[j])
    {
      var todo := jobs.Keys;
      while todo != {}
        invariant jobs.Keys == old(jobs).Keys && todo <= jobs.Keys
        invariant forall j :: j in jobs ==>
                    if j in todo then jobs[j] == old(jobs)[j] else JobLinked(workspaces, old(jobs)[j], jobs[j])
        decreases |todo|
      {
        var j :| j in todo;
        if w :| w in workspaces && IsLaunch(workspaces[w], jobs[j]) {
          jobs := jobs[j := jobs[j].(workspaceId := Some(w))];
        }
        todo := todo - {j};
      }
    }

    method LinkRuntimeDrafts()
      modifies this`drafts
      ensures drafts.Keys == old(drafts).Keys
      ensures forall d :: d in drafts ==> RuntimeDraftLinked(jobs, old(drafts)[d], drafts[d])
    {
      var todo := drafts.Keys;
      while todo != {}
        invariant drafts.Keys == old(drafts).Keys && todo <= drafts.Keys
        invariant forall d :: d in drafts ==>
                    if d in todo then drafts[d] == old(drafts)[d]
                    else RuntimeDraftLinked(jobs, old(drafts)[d], drafts[d])
        decreases |todo|
      {
        var d :| d in todo;
        if j :| j in jobs && WrittenBy(drafts[d], j, jobs[j]) {
          RuntimeLinkFits(jobs, drafts[d], j);
          drafts := drafts[d := drafts[d].(workspaceId := jobs[j].workspaceId)];
        }
        todo := todo - {d};
      }
    }

    /** One workspace per draft that has none yet: no insert meets a workspace of the same business and
        key, neither one that was there nor another of these. */
    method InsertDraftWorkspaces()
      requires Valid() && UniqueKeys(workspaces) && UniqueDraftKeys(drafts)
      requires forall w :: w in workspaces ==> OfJob(jobs, workspaces[w])
      modifies this`workspaces
      ensures Inserting(drafts, {}, old(workspaces), workspaces)
    {
      var todo := drafts.Keys;
      assert Unplaced(drafts) - todo == {};
      while todo != {}
        invariant todo <= drafts.Keys && Inserting(drafts, todo, old(workspaces), workspaces)
        decreases |todo|
      {
        var d :| d in todo;
        if drafts[d].workspaceId.None? {
          var id := newId(workspaces.Keys);
          KeyIsFree(jobs, drafts, todo, old(workspaces), workspaces, d);
          PlaceOne(drafts, todo, old(workspaces), workspaces, d, id);
          NothingMetByOne(drafts, todo, old(workspaces), workspaces, d, id, NewWorkspace(drafts[d]));
          workspaces := workspaces[id := NewWorkspace(drafts[d])];
        } else {
          SkipOne(drafts, todo, old(workspaces), workspaces, d);
        }
        todo := todo - {d};
      }
    }

    method LinkDrafts()
      requires Valid() && UniqueKeys(workspaces)
      modifies this`drafts
      ensures drafts.Keys == old(drafts).Keys
      ensures forall d :: d in drafts ==> DraftLinked(workspaces, old(drafts)[d], drafts[d])
    {
      var todo := drafts.Keys;
      while todo != {}
        invariant drafts.Keys == old(drafts).Keys && todo <= drafts.Keys
        invariant forall d :: d in drafts ==>
                    if d in todo then drafts[d] == old(drafts)[d]
                    else DraftLinked(workspaces, old(drafts)[d], drafts[d])
        decreases |todo|
      {
        var d :| d in todo;
        if drafts[d].workspaceId.None? {
          if w :| w in workspaces && IsDraftOf(workspaces[w], drafts[d]) {
            drafts := drafts[d := drafts[d].(workspaceId := Some(w))];
          }
        }
        todo := todo - {d};
      }
    }

    method LatestOf(d: Id) returns (latest: Id)
      requires Valid() && d in drafts
      ensures LatestDraft(idLe, drafts, latest) && SameScope(drafts[latest], drafts[d])
    {
      latest := d;
      var todo := drafts.Keys;
      while todo != {}
        invariant todo <= drafts.Keys && latest in drafts && SameScope(drafts[latest], drafts[d])
        invariant forall k :: k in drafts && k !in todo && SameScope(drafts[k], drafts[d]) ==>
                    Precedes(idLe, drafts, latest, k)
        decreases |todo|
      {
        var k :| k in todo;
        assert idLe(k, k) && (idLe(latest, k) || idLe(k, latest));
        if SameScope(drafts[k], drafts[d]) && !Precedes(idLe, drafts, latest, k) {
          latest := k;
        }
        todo := todo - {k};
      }
    }

    /** The brief with the objective and the notes of the workspace's latest draft, if it has any. */
    method BriefWithIntent(id: Id, w: Workspace) returns (brief: Brief)
      requires Valid() && w.brief.intent.None?
      ensures Carried(idLe, drafts, id, w, w.(brief := brief))
    {
      brief := w.brief;
      if d :| d in drafts && drafts[d].workspaceId == Some(id) && drafts[d].businessId == w.businessId {
        var latest := LatestOf(d);
        brief := w.brief.(intent := Some(Intent(drafts[latest].objective, drafts[latest].notes)));
      }
    }

    method CarryIntents()
      requires Valid() && forall w :: w in workspaces ==> workspaces[w].brief.intent.None?
      modifies this`workspaces
      ensures workspaces.Keys == old(workspaces).Keys
      ensures forall w :: w in workspaces ==> Carried(idLe, drafts, w, old(workspaces)[w], workspaces[w])
    {
      var todo := workspaces.Keys;
      while todo != {}
        invariant workspaces.Keys == old(workspaces).Keys && todo <= workspaces.Keys
        invariant forall w :: w in workspaces && w in todo ==> workspaces[w] == old(workspaces)[w]
        invariant forall w :: w in workspaces && w !in todo ==>
                    Carried(idLe, drafts, w, old(workspaces)[w], workspaces[w])
        decreases |todo|
      {
        var w :| w in todo;
        var brief := BriefWithIntent(w, workspaces[w]);
        workspaces := workspaces[w := workspaces[w].(brief := brief)];
        todo := todo - {w};
      }
    }

    /** The whole backfill, on tables whose new columns are empty. Every job and every draft ends up in
        exactly one workspace, of its own business; no two workspaces of a business share a key; every
        workspace holds a job or a draft; and nothing else in jobs and drafts has changed. */
    method Upgrade()
      requires Valid() && workspaces == map[] && UniqueDraftKeys(drafts)
      requires forall j :: j in jobs ==> jobs[j].workspaceId.None?
      requires forall d :: d in drafts ==> drafts[d].workspaceId.None?
      modifies this
      ensures SameJobs(old(jobs), jobs) && SameDrafts(old(drafts), drafts)
      ensures JobsAdopted(jobs, workspaces) && DraftsAdopted(jobs, drafts, workspaces)
      ensures UniqueKeys(workspaces)
      ensures forall w :: w in workspaces ==> InUse(jobs, drafts, w)
      ensures forall w :: w in workspaces ==>
                BriefMade(old(jobs), old(drafts), workspaces[w]) && IntentCarried(idLe, drafts, w, workspaces[w])
    {
      InsertLaunches();
      ghost var launched := workspaces;
      LinkJobs();
      LinkRuntimeDrafts();
      ghost var runtimeDrafts := drafts;
      LaunchesAreOfJobs(old(jobs), jobs, launched);
      RuntimeDraftsKeepKeys(jobs, old(drafts), runtimeDrafts);
      InsertDraftWorkspaces();
      LinkDrafts();
      ghost var created := workspaces;
      AdoptsEverything(old(jobs), jobs, launched, old(drafts), runtimeDrafts, created, drafts);
      CarryIntents();
      CarryingKeepsAdoption(idLe, old(jobs), old(drafts), jobs, drafts, created, workspaces);
    }
  }
}
