/** The one-shot confirmation protocol of the panel: a first, read-only request draws a challenge
    from the server; only an explicit click sends the frozen snapshot again, with the challenge's
    token. Requests resolve at any later moment, in any order.

    A state is what the hook holds (`Panel`) and what it has done so far (a `Log`). `Step` is one
    event; the theorems are about `Run`, every sequence of events. */
module ConfirmedMutations {
  import opened Wrappers
  import opened ApiErrors
  import opened ChallengeLedger

  /** The variables of an action, cloned and frozen: a value from then on. */
  type Snapshot = string
  type Scope = string
  /** A function captured from the render in which the action was prepared. */
  type Handle = nat

  /** What a preparation freezes. */
  datatype Content = Content(
    variables: Snapshot, summary: seq<string>, scope: Scope, mutate: Handle, onSuccess: Handle)

  datatype Action = Action(content: Content, token: Option<string>, expires: int)

  datatype Message = NotChallenged | PreparationFailed | ConfirmationExpired | OutcomeUnknown

  /** The hook's refs and its rendered state. */
  datatype Panel = Panel(
    pending: Option<Action>, generation: nat, busy: bool, mounted: bool, scope: Scope,
    view: Option<Action>, submitting: bool, error: Option<Message>)

  /** `drawnBy` is the preparation that the pending action comes from. */
  datatype State = State(panel: Panel, drawnBy: nat, log: Log<Content>)

  datatype Outcome = Fulfilled | Rejected(error: ApiError)

  datatype Event =
    | Start(variables: Snapshot, summary: seq<string>, rendered: Scope, mutate: Handle, onSuccess: Handle)
    | Resolve(request: nat, outcome: Outcome)
    | Confirm
    | Cancel
    | ChangeScope(scope: Scope)
    | Unmount
    | Mount
    | Tick(ms: nat)

  function Initial(scope: Scope, now: int): State {
    State(Panel(None, 0, false, true, scope, None, false, None), 0, Log(now, [], map[], []))
  }

  /** Whether a response still belongs to what is on screen. */
  predicate Current(p: Panel, r: Request<Content>) {
    p.mounted && r.generation == p.generation && p.scope == r.content.scope
  }

  function Shown(p: Panel): Option<Content> {
    if p.view.Some? then Some(p.view.value.content) else None
  }

  function StartStep(s: State, e: Event): State
    requires e.Start?
  {
    if s.panel.busy || s.panel.pending.Some? then s
    else
      var content := Content(e.variables, e.summary, e.rendered, e.mutate, e.onSuccess);
      var action := Action(content, None, 0);
      var id := s.panel.generation + 1;
      var index := |s.log.requests|;
      State(s.panel.(pending := Some(action), generation := id, busy := true, view := Some(action),
                     error := None, submitting := true),
            index,
            Send(s.log, Request(content, None, id, index, s.log.now, Some(content), false)))
  }

  function ConfirmStep(s: State): State {
    var p := s.panel;
    if p.pending.None? || p.pending.value.token.None? || p.busy || p.scope != p.pending.value.content.scope then s
    else
      var action := p.pending.value;
      var spent := Some(action.(token := None));
      if s.log.now >= action.expires then
        s.(panel := p.(pending := spent, view := spent, error := Some(ConfirmationExpired)))
      else
        State(p.(pending := spent, view := spent, busy := true, submitting := true, error := None),
              s.drawnBy,
              Send(s.log, Request(action.content, action.token, p.generation, s.drawnBy, s.log.now, Shown(p), false)))
  }

  function PreparationResolved(s: State, i: nat, outcome: Outcome): State
    requires i < |s.log.requests|
  {
    var idle := s.panel.(busy := false, submitting := false);
    match outcome
    case Fulfilled => s.(panel := idle.(error := Some(NotChallenged)))
    case Rejected(error) =>
      match ChallengeFrom(error, s.log.now)
      case None => s.(panel := idle.(error := Some(PreparationFailed)))
      case Some(c) =>
        var ready := Some(Action(s.log.requests[i].content, Some(c.token), c.expiresAt));
        State(idle.(pending := ready, view := ready), i, Accept(s.log, i, c, s.log.requests[i].content))
  }

  function ConfirmationResolved(s: State, i: nat, outcome: Outcome): State {
    var idle := s.panel.(busy := false, submitting := false);
    match outcome
    case Fulfilled =>
      s.(panel := idle.(pending := None, view := None), log := Report(s.log, i))
    case Rejected(_) => s.(panel := idle.(error := Some(OutcomeUnknown)))
  }

  function ResolveStep(s: State, i: nat, outcome: Outcome): State {
    if i >= |s.log.requests| || s.log.requests[i].resolved then s
    else
      var r, marked := s.log.requests[i], s.(log := MarkResolved(s.log, i));
      if !Current(s.panel, r) then marked
      else if r.token.None? then PreparationResolved(marked, i, outcome)
      else ConfirmationResolved(marked, i, outcome)
  }

  function CancelStep(p: Panel): Panel {
    if p.busy then p
    else p.(generation := p.generation + 1, pending := None, view := None, error := None)
  }

  function ScopeStep(p: Panel, scope: Scope): Panel {
    p.(scope := scope, generation := p.generation + 1, pending := None, busy := false,
       view := None, error := None, submitting := false)
  }

  function Step(s: State, e: Event): State {
    match e
    case Start(_, _, _, _, _) => StartStep(s, e)
    case Resolve(i, outcome) => ResolveStep(s, i, outcome)
    case Confirm => ConfirmStep(s)
    case Cancel => s.(panel := CancelStep(s.panel))
    case ChangeScope(scope) => s.(panel := ScopeStep(s.panel, scope))
    case Unmount =>
      s.(panel := s.panel.(mounted := false, generation := s.panel.generation + 1, pending := None))
    case Mount => s.(panel := ScopeStep(s.panel, s.panel.scope).(mounted := true))
    case Tick(ms) => s.(log := s.log.(now := s.log.now + ms))
  }

  function Run(s: State, events: seq<Event>): State {
    if events == [] then s
    else Step(Run(s, events[..|events| - 1]), events[|events| - 1])
  }

  // ---------------------------------------------------------------------------
  // What every run keeps
  // ---------------------------------------------------------------------------

  /** What is about to be confirmed is an unspent accepted challenge, and it is on screen. */
  ghost predicate PendingSound(s: State) {
    && (s.panel.mounted ==> s.panel.view == s.panel.pending)
    && (s.panel.pending.Some? && s.panel.pending.value.token.Some? ==>
          && s.panel.mounted
          && s.drawnBy in s.log.accepted && AcceptedSound(s.log, s.drawnBy) && !Spent(s.log, s.drawnBy)
          && var action, c := s.panel.pending.value, s.log.accepted[s.drawnBy].challenge;
          && action.token.value == c.token && action.expires == c.expiresAt
          && action.content == s.log.requests[s.drawnBy].content)
  }

  /** A challenge is for what its preparation froze. */
  ghost predicate FrozenFirst(log: Log<Content>) {
    forall i :: i in log.accepted ==> i < |log.requests| && log.accepted[i].content == log.requests[i].content
  }

  ghost predicate Inv(s: State) {
    LogSound(s.log) && FrozenFirst(s.log) && PendingSound(s)
  }

  lemma ResolveFreezes(s: State, i: nat, outcome: Outcome)
    requires FrozenFirst(s.log)
    ensures FrozenFirst(ResolveStep(s, i, outcome).log)
  {
  }

  lemma ResolveKeeps(s: State, i: nat, outcome: Outcome)
    requires LogSound(s.log) && PendingSound(s)
    ensures var s' := ResolveStep(s, i, outcome); LogSound(s'.log) && PendingSound(s')
  {
    if i < |s.log.requests| && !s.log.requests[i].resolved {
      MarkSound(s.log, i);
      assert AcceptedSound(s.log, i);
      var log := MarkResolved(s.log, i);
      if Current(s.panel, s.log.requests[i]) && s.log.requests[i].token.None? && outcome.Rejected? {
        var c := ChallengeFrom(outcome.error, log.now);
        if c.Some? {
          AcceptSound(log, i, c.value, s.log.requests[i].content);
        }
      } else {
        SameRequestsSound(log, ResolveStep(s, i, outcome).log);
      }
    }
  }

  lemma ResolveInv(s: State, i: nat, outcome: Outcome)
    requires Inv(s)
    ensures Inv(ResolveStep(s, i, outcome))
  {
    ResolveFreezes(s, i, outcome);
    ResolveKeeps(s, i, outcome);
  }

  lemma StepInv(s: State, e: Event)
    requires Inv(s)
    ensures Inv(Step(s, e))
  {
    match e
    case Start(_, _, _, _, _) =>
      var s' := StartStep(s, e);
      if s' != s {
        SendSound(s.log, s'.log.requests[|s.log.requests|]);
      }
    case Resolve(i, outcome) =>
      ResolveInv(s, i, outcome);
    case Confirm =>
      var s' := ConfirmStep(s);
      if |s'.log.requests| > |s.log.requests| {
        SendSound(s.log, s'.log.requests[|s.log.requests|]);
      }
    case Tick(_) =>
      SameRequestsSound(s.log, Step(s, e).log);
    case _ =>
  }

  lemma {:induction false} RunInv(scope: Scope, now: int, events: seq<Event>)
    ensures Inv(Run(Initial(scope, now), events))
  {
    if events != [] {
      RunInv(scope, now, events[..|events| - 1]);
      StepInv(Run(Initial(scope, now), events[..|events| - 1]), events[|events| - 1]);
    }
  }

  // ---------------------------------------------------------------------------
  // Safety of tokens
  // ---------------------------------------------------------------------------

  /** In every run, each request that carries a token carries the token of a challenge accepted
      from the answer to a preparation, strictly before that challenge's expiry and within the
      admitted window; it repeats exactly what that preparation froze, while its summary is on
      screen; and no other request answers the same challenge. */
  lemma TokensAreSentOnceAndInTime(scope: Scope, start: int, events: seq<Event>, i: nat)
    requires i < |Run(Initial(scope, start), events).log.requests|
    requires Run(Initial(scope, start), events).log.requests[i].token.Some?
    ensures var log := Run(Initial(scope, start), events).log;
            var sent := log.requests[i];
            && sent.preparation < |log.requests| && sent.preparation in log.accepted
            && var prepared, a := log.requests[sent.preparation], log.accepted[sent.preparation];
            && prepared.token.None? && prepared.resolved
            && sent.token.value == a.challenge.token
            && a.at <= sent.sentAt < a.challenge.expiresAt <= a.at + MAX_TTL_MS
            && sent.content == prepared.content && sent.shown == Some(prepared.content)
            && forall j :: 0 <= j < |log.requests| && j != i && log.requests[j].token.Some? ==>
                 log.requests[j].preparation != sent.preparation
  {
    RunInv(scope, start, events);
    var log := Run(Initial(scope, start), events).log;
    assert Confirms(log, log.requests[i]);
  }

  /** If the server never issues one token twice, no token is ever sent twice. */
  lemma DistinctTokensAreSentOnce(scope: Scope, start: int, events: seq<Event>, i: nat, j: nat)
    requires var log := Run(Initial(scope, start), events).log;
             && i < j < |log.requests| && log.requests[i].token.Some? && log.requests[j].token.Some?
             && forall a, b :: a in log.accepted && b in log.accepted && a != b ==>
                  log.accepted[a].challenge.token != log.accepted[b].challenge.token
    ensures var log := Run(Initial(scope, start), events).log;
            log.requests[i].token != log.requests[j].token
  {
    TokensAreSentOnceAndInTime(scope, start, events, i);
    TokensAreSentOnceAndInTime(scope, start, events, j);
  }

  /** Only an explicit click sends a token, and it sends one at most. */
  lemma OnlyConfirmSendsTokens(s: State, e: Event)
    ensures var before, after := s.log.requests, Step(s, e).log.requests;
            && |before| <= |after| <= |before| + 1
            && (forall i :: 0 <= i < |before| ==> after[i].token == before[i].token)
            && (|after| > |before| && after[|before|].token.Some? ==> e.Confirm?)
  {
  }

  /** A challenge whose token was not sent yet is waiting for the click, in the scope it was drawn in and
      with time left, and nothing is under way. */
  predicate Confirmable(s: State) {
    && s.panel.pending.Some? && s.panel.pending.value.token.Some? && !s.panel.busy
    && s.drawnBy in s.log.accepted
    && s.log.accepted[s.drawnBy].content.scope == s.panel.scope
    && s.log.now < s.log.accepted[s.drawnBy].challenge.expiresAt
  }

  /** In every reachable state a click sends something if and only if a challenge is waiting in time; and
      then it sends one request, with that challenge's token and what its preparation froze. */
  lemma ConfirmSendsExactly(scope: Scope, start: int, events: seq<Event>)
    ensures var s := Run(Initial(scope, start), events);
            var before, after := s.log.requests, Step(s, Confirm).log.requests;
            && (after != before <==> Confirmable(s))
            && (Confirmable(s) ==>
                  && s.drawnBy < |before| && !Spent(s.log, s.drawnBy)
                  && var a, prepared := s.log.accepted[s.drawnBy], before[s.drawnBy];
                  after == before + [Request(prepared.content, Some(a.challenge.token), s.panel.generation, s.drawnBy,
                                             s.log.now, Some(prepared.content), false)])
  {
    RunInv(scope, start, events);
  }

  /** In every reachable state a start sends something if and only if nothing is under way or pending;
      and then one request without a token, for what the start was given. */
  lemma StartSendsExactly(s: State, e: Event)
    requires e.Start?
    ensures var before, after := s.log.requests, Step(s, e).log.requests;
            && (after != before <==> !s.panel.busy && s.panel.pending.None?)
            && (after != before ==>
                  && |after| == |before| + 1 && after[..|before|] == before && after[|before|].token.None?
                  && after[|before|].content == Content(e.variables, e.summary, e.rendered, e.mutate, e.onSuccess))
  {
  }

  /** Each preparation in the log was sent by one start, and is for exactly what that start was given. */
  lemma {:induction false} PreparationsAreTheirStarts(scope: Scope, start: int, events: seq<Event>, i: nat)
    returns (n: nat)
    requires i < |Run(Initial(scope, start), events).log.requests|
    requires Run(Initial(scope, start), events).log.requests[i].token.None?
    ensures n < |events| && events[n].Start?
    ensures |Run(Initial(scope, start), events[..n]).log.requests| == i
    ensures var e := events[n];
            Run(Initial(scope, start), events).log.requests[i].content
            == Content(e.variables, e.summary, e.rendered, e.mutate, e.onSuccess)
  {
    var last := |events| - 1;
    var before, e := Run(Initial(scope, start), events[..last]), events[last];
    OnlyConfirmSendsTokens(before, e);
    if i < |before.log.requests| {
      n := PreparationsAreTheirStarts(scope, start, events[..last], i);
      assert events[..last][..n] == events[..n];
    } else {
      n := last;
    }
  }

  lemma RunSnoc(s: State, events: seq<Event>, e: Event)
    ensures Run(s, events + [e]) == Step(Run(s, events), e)
  {
    assert (events + [e])[..|events|] == events;
  }

  /** From a start to the click: challenged for `ttl` milliseconds, and confirmed after `delay`. */
  function ConfirmedRun(e: Event, token: string, ttl: int, delay: nat): seq<Event> {
    [e] + [Resolve(0, Rejected(ApiRequestError(428, "CONFIRMATION_REQUIRED", Some(token), Some(ttl))))] + [Tick(delay)]
    + [Confirm]
  }

  lemma ChallengedAndWaiting(e: Event, token: string, ttl: int, delay: nat)
    requires e.Start? && 1 <= |token| <= 2048 && 0 < ttl <= 125_000
    ensures var challenge := Rejected(ApiRequestError(428, "CONFIRMATION_REQUIRED", Some(token), Some(ttl)));
            var s := Run(Initial(e.rendered, 0), [e] + [Resolve(0, challenge)] + [Tick(delay)]);
            var content := Content(e.variables, e.summary, e.rendered, e.mutate, e.onSuccess);
            && s.panel.pending == Some(Action(content, Some(token), ttl)) && !s.panel.busy
            && s.panel.scope == e.rendered && s.panel.view == s.panel.pending
            && s.log.now == delay && |s.log.requests| == 1 && s.drawnBy == 0
  {
    var challenge := Rejected(ApiRequestError(428, "CONFIRMATION_REQUIRED", Some(token), Some(ttl)));
    var s0 := Initial(e.rendered, 0);
    RunSnoc(s0, [], e);
    RunSnoc(s0, [e], Resolve(0, challenge));
    RunSnoc(s0, [e] + [Resolve(0, challenge)], Tick(delay));
  }

  /** Such a run sends the token, with the variables of its start, if and only if the click comes before
      the challenge expires. */
  lemma ConfirmingInTimeSends(e: Event, token: string, ttl: int, delay: nat)
    requires e.Start? && 1 <= |token| <= 2048 && 0 < ttl <= 125_000
    ensures var requests := Run(Initial(e.rendered, 0), ConfirmedRun(e, token, ttl, delay)).log.requests;
            && (|requests| == 2 <==> delay < ttl)
            && (delay < ttl ==> requests[1].token == Some(token) && requests[1].content.variables == e.variables)
  {
    var s0 := Initial(e.rendered, 0);
    ChallengedAndWaiting(e, token, ttl, delay);
    var challenge := Rejected(ApiRequestError(428, "CONFIRMATION_REQUIRED", Some(token), Some(ttl)));
    RunSnoc(s0, [e] + [Resolve(0, challenge)] + [Tick(delay)], Confirm);
  }

  /** Every reported success is that of a confirmed request, reported once. */
  ghost predicate SuccessesSound(log: Log<Content>) {
    && (forall k :: 0 <= k < |log.succeeded| ==>
          && log.succeeded[k] < |log.requests|
          && log.requests[log.succeeded[k]].token.Some? && log.requests[log.succeeded[k]].resolved)
    && (forall j, k :: 0 <= j < k < |log.succeeded| ==> log.succeeded[j] != log.succeeded[k])
  }

  lemma StepSuccesses(s: State, e: Event)
    requires SuccessesSound(s.log)
    ensures SuccessesSound(Step(s, e).log)
  {
  }

  /** `onSuccess` is called at most once per challenge, and never for an action that was merely
      prepared. */
  lemma {:induction false} SuccessIsReportedOnce(scope: Scope, start: int, events: seq<Event>)
    ensures SuccessesSound(Run(Initial(scope, start), events).log)
  {
    if events != [] {
      var init := events[..|events| - 1];
      SuccessIsReportedOnce(scope, start, init);
      StepSuccesses(Run(Initial(scope, start), init), events[|events| - 1]);
    }
  }

  /** The request is open and was sent from what the panel still shows: mounted, in the same scope, and
      with nothing started, cancelled or changed since. */
  predicate Awaited(s: State, i: nat) {
    && i < |s.log.requests| && !s.log.requests[i].resolved && s.panel.mounted
    && s.log.requests[i].generation == s.panel.generation && s.log.requests[i].content.scope == s.panel.scope
  }

  /** `onSuccess` is called if and only if the answer to an awaited confirmation says that it was carried
      out; and the dialog then closes. */
  lemma SuccessIsReportedExactly(s: State, i: nat, outcome: Outcome)
    ensures var s' := Step(s, Resolve(i, outcome));
            var reports := Awaited(s, i) && s.log.requests[i].token.Some? && outcome.Fulfilled?;
            && s'.log.succeeded == (if reports then s.log.succeeded + [i] else s.log.succeeded)
            && (reports ==> s'.panel.pending.None? && s'.panel.view.None? && !s'.panel.busy)
  {
  }

  /** A challenge is accepted if and only if the answer to an awaited preparation is a 428 with a token of
      up to 2048 characters that expires within 125 seconds; and then it waits for the click, on screen.
      Otherwise the panel says whether the action was carried out unasked or could not be prepared. */
  lemma ChallengeIsAcceptedExactly(scope: Scope, start: int, events: seq<Event>, i: nat, outcome: Outcome)
    requires Awaited(Run(Initial(scope, start), events), i)
    requires Run(Initial(scope, start), events).log.requests[i].token.None?
    ensures var s := Run(Initial(scope, start), events);
            var s' := Step(s, Resolve(i, outcome));
            var challenged :=
              && outcome.Rejected? && outcome.error.ApiRequestError?
              && outcome.error.status == 428 && outcome.error.code == "CONFIRMATION_REQUIRED"
              && outcome.error.token.Some? && 1 <= |outcome.error.token.value| <= 2048
              && outcome.error.expires.Some? && s.log.now < outcome.error.expires.value <= s.log.now + 125_000;
            && !s'.panel.busy && i !in s.log.accepted && (i in s'.log.accepted <==> challenged)
            && (challenged ==>
                  && s'.panel.pending == s'.panel.view && s'.drawnBy == i
                  && s'.panel.pending == Some(Action(s.log.requests[i].content, outcome.error.token,
                                                     outcome.error.expires.value)))
            && (!challenged ==>
                  s'.panel.error == Some(if outcome.Fulfilled? then NotChallenged else PreparationFailed))
  {
    RunInv(scope, start, events);
    assert AcceptedSound(Run(Initial(scope, start), events).log, i);
  }

  // ---------------------------------------------------------------------------
  // Stale responses
  // ---------------------------------------------------------------------------

  ghost predicate GenerationsSound(s: State) {
    forall i :: 0 <= i < |s.log.requests| ==> s.log.requests[i].generation <= s.panel.generation
  }

  /** `s'` comes later than `s`: its generation is no smaller and its requests extend those of `s`. */
  ghost predicate Later(s: State, s': State) {
    && s.panel.generation <= s'.panel.generation
    && |s.log.requests| <= |s'.log.requests|
    && forall i :: 0 <= i < |s.log.requests| ==>
         s'.log.requests[i].(resolved := false) == s.log.requests[i].(resolved := false)
  }

  lemma StepLater(s: State, e: Event)
    ensures Later(s, Step(s, e))
    ensures GenerationsSound(s) ==> GenerationsSound(Step(s, e))
  {
  }

  lemma {:induction false} RunLater(s: State, events: seq<Event>)
    ensures Later(s, Run(s, events))
    ensures GenerationsSound(s) ==> GenerationsSound(Run(s, events))
  {
    if events != [] {
      var init := events[..|events| - 1];
      RunLater(s, init);
      StepLater(Run(s, init), events[|events| - 1]);
    }
  }

  /** After the scope changes or the component unmounts, the answer to any earlier request changes
      nothing but that request's own status, however much happens in between: neither the pending
      action, the view, the error nor `busy`, and `onSuccess` is not called. */
  lemma StaleResponsesAreInert(
    scope: Scope, start: int, before: seq<Event>, change: Event, after: seq<Event>, i: nat, outcome: Outcome)
    requires change.ChangeScope? || change.Unmount?
    requires i < |Run(Initial(scope, start), before).log.requests|
    ensures var s := Run(Step(Run(Initial(scope, start), before), change), after);
            && Step(s, Resolve(i, outcome)).panel == s.panel
            && Step(s, Resolve(i, outcome)).log.succeeded == s.log.succeeded
            && Step(s, Resolve(i, outcome)).log.accepted == s.log.accepted
  {
    var s0 := Run(Initial(scope, start), before);
    RunLater(Initial(scope, start), before);
    var s1 := Step(s0, change);
    StepLater(s0, change);
    RunLater(s1, after);
  }

  /** The panel is left or reset: cancelled while nothing is under way, or its scope or mounting changes. */
  predicate Withdraws(s: State, e: Event) {
    (e.Cancel? && !s.panel.busy) || e.ChangeScope? || e.Unmount? || e.Mount?
  }

  /** Of the first `n` requests none is awaited any more, and none of their challenges is waiting or was
      sent after them. */
  ghost predicate OldAreGone(s: State, n: nat, generation: nat) {
    && n <= |s.log.requests| && generation <= s.panel.generation
    && (forall i :: 0 <= i < n ==> s.log.requests[i].generation < generation)
    && (s.panel.pending.Some? && s.panel.pending.value.token.Some? ==> s.drawnBy >= n)
    && (forall j :: n <= j < |s.log.requests| && s.log.requests[j].token.Some? ==> s.log.requests[j].preparation >= n)
  }

  lemma OldStayGone(s: State, e: Event, n: nat, generation: nat)
    requires OldAreGone(s, n, generation)
    ensures OldAreGone(Step(s, e), n, generation)
  {
  }

  lemma {:induction false} OldStayGoneThroughout(s: State, events: seq<Event>, n: nat, generation: nat)
    requires OldAreGone(s, n, generation)
    ensures OldAreGone(Run(s, events), n, generation)
  {
    if events != [] {
      var init := events[..|events| - 1];
      OldStayGoneThroughout(s, init, n, generation);
      OldStayGone(Run(s, init), events[|events| - 1], n, generation);
    }
  }

  /** What was withdrawn is never confirmed: no request sent afterwards, in any further run, answers a
      challenge of a request from before. */
  lemma WithdrawnIsNeverSent(scope: Scope, start: int, before: seq<Event>, e: Event, after: seq<Event>, j: nat)
    requires Withdraws(Run(Initial(scope, start), before), e)
    requires var n := |Run(Initial(scope, start), before).log.requests|;
             var later := Run(Step(Run(Initial(scope, start), before), e), after);
             n <= j < |later.log.requests| && later.log.requests[j].token.Some?
    ensures var n := |Run(Initial(scope, start), before).log.requests|;
            Run(Step(Run(Initial(scope, start), before), e), after).log.requests[j].preparation >= n
  {
    var s := Run(Initial(scope, start), before);
    RunLater(Initial(scope, start), before);
    OldStayGoneThroughout(Step(s, e), after, |s.log.requests|, s.panel.generation + 1);
  }

  // ---------------------------------------------------------------------------
  // What is on screen
  // ---------------------------------------------------------------------------

  /** The scope that the run last changed to. */
  function LatestScope(scope: Scope, events: seq<Event>): Scope {
    if events == [] then scope
    else if events[|events| - 1].ChangeScope? then events[|events| - 1].scope
    else LatestScope(scope, events[..|events| - 1])
  }

  /** Whether the component was last mounted, or never unmounted. */
  predicate LatelyMounted(events: seq<Event>) {
    if events == [] then true
    else if events[|events| - 1].Mount? || events[|events| - 1].Unmount? then events[|events| - 1].Mount?
    else LatelyMounted(events[..|events| - 1])
  }

  lemma SetByEvents(s: State, e: Event)
    requires s.panel.submitting == s.panel.busy
    ensures var p := Step(s, e).panel;
            && p.scope == (if e.ChangeScope? then e.scope else s.panel.scope)
            && p.mounted == (if e.Mount? || e.Unmount? then e.Mount? else s.panel.mounted)
            && p.submitting == p.busy
  {
  }

  /** In every reachable state the panel is in the latest scope, mounted if it was lately, and shows that it
      is waiting exactly while something is under way. */
  lemma {:induction false} ScopeIsTheLatest(scope: Scope, start: int, events: seq<Event>)
    ensures var p := Run(Initial(scope, start), events).panel;
            p.scope == LatestScope(scope, events) && p.mounted == LatelyMounted(events) && p.submitting == p.busy
  {
    if events != [] {
      var init := events[..|events| - 1];
      ScopeIsTheLatest(scope, start, init);
      SetByEvents(Run(Initial(scope, start), init), events[|events| - 1]);
    }
  }

  /** The requests of the current generation come from the preparation of the pending action. */
  ghost predicate OneAction(s: State) {
    forall i :: 0 <= i < |s.log.requests| && s.log.requests[i].generation == s.panel.generation ==>
      (if s.log.requests[i].token.None? then i else s.log.requests[i].preparation) == s.drawnBy
  }

  /** At most one request is awaited, and while it is the pending action has no token. */
  ghost predicate OneAwaited(s: State) {
    && (forall i: nat :: Awaited(s, i) ==> s.panel.busy && s.panel.pending.Some? && s.panel.pending.value.token.None?)
    && (forall i: nat, j: nat :: Awaited(s, i) && Awaited(s, j) ==> i == j)
  }

  lemma AnswerIsAwaited(s: State, i: nat, outcome: Outcome)
    requires OneAwaited(s)
    ensures OneAwaited(Step(s, Resolve(i, outcome)))
  {
    var s' := Step(s, Resolve(i, outcome));
    assert forall j: nat :: Awaited(s', j) <==> Awaited(s, j) && j != i;
    if Awaited(s, i) {
      assert forall j: nat :: !Awaited(s', j);
    }
  }

  lemma OneAwaitedStays(s: State, e: Event)
    requires GenerationsSound(s) && OneAwaited(s)
    ensures OneAwaited(Step(s, e))
  {
    var s' := Step(s, e);
    if e.Resolve? {
      AnswerIsAwaited(s, e.request, e.outcome);
    } else {
      StepLater(s, e);
      forall i: nat | Awaited(s', i)
        ensures i < |s.log.requests| ==> Awaited(s, i)
        ensures s'.panel.busy && s'.panel.pending.Some? && s'.panel.pending.value.token.None?
      {
        if i < |s.log.requests| {
          assert s.log.requests[i].generation <= s.panel.generation;
          assert Awaited(s, i);
        } else {
          assert e.Start? || e.Confirm?;
        }
      }
    }
  }

  /** A dialog says something if and only if it can no longer be confirmed and nothing is under way, and what
      it says is so: the challenge expired, a token was sent, or the preparation drew no challenge. */
  ghost predicate Told(s: State) {
    && (s.panel.busy ==> s.panel.error.None?)
    && (s.panel.mounted ==>
          (s.panel.error.Some? <==>
           s.panel.view.Some? && s.panel.view.value.token.None? && !s.panel.busy))
    && (s.panel.error.Some? ==>
          match s.panel.error.value
          case ConfirmationExpired =>
            s.drawnBy in s.log.accepted && s.log.accepted[s.drawnBy].challenge.expiresAt <= s.log.now
          case OutcomeUnknown => Spent(s.log, s.drawnBy)
          case _ =>
            s.drawnBy < |s.log.requests| && s.log.requests[s.drawnBy].resolved && s.drawnBy !in s.log.accepted)
  }

  lemma OneActionStays(s: State, e: Event)
    requires GenerationsSound(s) && OneAction(s)
    requires s.panel.pending.Some? && s.panel.pending.value.token.Some? ==> s.panel.mounted
    ensures OneAction(Step(s, e))
  {
  }

  lemma SpentStays(s: State, e: Event, i: nat)
    requires Spent(s.log, i)
    ensures Spent(Step(s, e).log, i)
  {
    StepLater(s, e);
    var j :| 0 <= j < |s.log.requests| && s.log.requests[j].token.Some? && s.log.requests[j].preparation == i;
    assert Step(s, e).log.requests[j].(resolved := false) == s.log.requests[j].(resolved := false);
  }

  lemma TellsAnswer(s: State, i: nat, outcome: Outcome)
    requires Inv(s) && OneAction(s) && OneAwaited(s) && Told(s)
    ensures Told(Step(s, Resolve(i, outcome)))
  {
    if Awaited(s, i) {
      assert AcceptedSound(s.log, i);
      if s.log.requests[i].token.Some? {
        assert Spent(s.log, s.drawnBy);
        SpentStays(s, Resolve(i, outcome), s.drawnBy);
      }
    } else if s.panel.error == Some(OutcomeUnknown) {
      SpentStays(s, Resolve(i, outcome), s.drawnBy);
    }
  }

  lemma TellsStep(s: State, e: Event)
    requires Inv(s) && OneAction(s) && OneAwaited(s) && Told(s)
    ensures Told(Step(s, e))
  {
    if e.Resolve? {
      TellsAnswer(s, e.request, e.outcome);
    } else if s.panel.error == Some(OutcomeUnknown) {
      SpentStays(s, e, s.drawnBy);
    }
  }

  /** In every reachable state what the dialog says is true, and a dialog that is stuck says why. */
  lemma {:induction false} MessagesAreTrue(scope: Scope, start: int, events: seq<Event>)
    ensures var s := Run(Initial(scope, start), events); OneAction(s) && OneAwaited(s) && Told(s)
  {
    if events != [] {
      var init := events[..|events| - 1];
      MessagesAreTrue(scope, start, init);
      RunInv(scope, start, init);
      RunLater(Initial(scope, start), init);
      OneAwaitedStays(Run(Initial(scope, start), init), events[|events| - 1]);
      OneActionStays(Run(Initial(scope, start), init), events[|events| - 1]);
      TellsStep(Run(Initial(scope, start), init), events[|events| - 1]);
    }
  }

  // ---------------------------------------------------------------------------
  // The busy flag
  // ---------------------------------------------------------------------------

  ghost predicate InFlight(s: State, i: nat) {
    i < |s.log.requests| && !s.log.requests[i].resolved && Current(s.panel, s.log.requests[i])
  }

  /** While mounted, `busy` says that exactly one unresolved request belongs to what is on screen. */
  ghost predicate BusyExact(s: State) {
    s.panel.mounted ==>
      && (s.panel.busy <==> exists i :: InFlight(s, i))
      && (forall i, j :: InFlight(s, i) && InFlight(s, j) ==> i == j)
  }

  /** An action started from a render whose scope is no longer the current one. */
  ghost predicate StaleStart(s: State, e: Event) {
    e.Start? && !s.panel.busy && s.panel.pending.None? && s.panel.mounted && e.rendered != s.panel.scope
  }

  lemma BusyStart(s: State, e: Event)
    requires e.Start? && GenerationsSound(s) && BusyExact(s)
    ensures BusyExact(StartStep(s, e)) <==> !StaleStart(s, e)
  {
    var s' := StartStep(s, e);
    var n := |s.log.requests|;
    if !s.panel.busy && s.panel.pending.None? {
      assert forall i: nat :: i < n ==> !InFlight(s', i);
      assert InFlight(s', n) <==> s.panel.mounted && e.rendered == s.panel.scope;
    }
  }

  lemma BusyConfirm(s: State)
    requires Inv(s) && BusyExact(s)
    ensures BusyExact(ConfirmStep(s))
  {
    var s' := ConfirmStep(s);
    var n := |s.log.requests|;
    assert forall i: nat :: i < n ==> InFlight(s', i) == InFlight(s, i);
    if |s'.log.requests| > n {
      assert InFlight(s', n);
    }
  }

  lemma BusyResolve(s: State, i: nat, outcome: Outcome)
    requires BusyExact(s)
    ensures BusyExact(ResolveStep(s, i, outcome))
  {
    var s' := ResolveStep(s, i, outcome);
    assert forall j: nat :: InFlight(s', j) <==> InFlight(s, j) && j != i;
    if InFlight(s, i) {
      assert forall j :: !InFlight(s', j);
    }
  }

  /** One event keeps the flag exact precisely when it is not a start from an outdated render. */
  lemma BusyStep(s: State, e: Event)
    requires Inv(s) && GenerationsSound(s) && BusyExact(s)
    ensures BusyExact(Step(s, e)) <==> !StaleStart(s, e)
  {
    var s' := Step(s, e);
    match e
    case Start(_, _, _, _, _) => BusyStart(s, e);
    case Resolve(i, outcome) => BusyResolve(s, i, outcome);
    case Confirm => BusyConfirm(s);
    case Tick(_) => assert forall i: nat :: InFlight(s', i) == InFlight(s, i);
    case _ =>
      if s'.panel.generation > s.panel.generation {
        assert forall i: nat :: !InFlight(s', i);
      }
  }

  function Upto(scope: Scope, start: int, events: seq<Event>, n: nat): State
    requires n <= |events|
  {
    Run(Initial(scope, start), events[..n])
  }

  lemma UptoStep(scope: Scope, start: int, events: seq<Event>, n: nat)
    requires n < |events|
    ensures Upto(scope, start, events, n + 1) == Step(Upto(scope, start, events, n), events[n])
    ensures Inv(Upto(scope, start, events, n)) && GenerationsSound(Upto(scope, start, events, n))
  {
    assert events[..n + 1][..n] == events[..n];
    RunInv(scope, start, events[..n]);
    RunLater(Initial(scope, start), events[..n]);
  }

  lemma {:induction false} BusyExactUpto(scope: Scope, start: int, events: seq<Event>, n: nat)
    requires n <= |events|
    requires forall m: nat :: m < |events| ==> !StaleStart(Upto(scope, start, events, m), events[m])
    ensures BusyExact(Upto(scope, start, events, n))
  {
    if n > 0 {
      BusyExactUpto(scope, start, events, n - 1);
      UptoStep(scope, start, events, n - 1);
      BusyStep(Upto(scope, start, events, n - 1), events[n - 1]);
    }
  }

  /** The flag is exact at every moment of a run if and only if the run never starts an action from
      a render whose scope is outdated. */
  lemma BusyIsExactUnlessStaleStart(scope: Scope, start: int, events: seq<Event>)
    ensures (forall n: nat :: n <= |events| ==> BusyExact(Upto(scope, start, events, n)))
       <==> (forall n: nat :: n < |events| ==> !StaleStart(Upto(scope, start, events, n), events[n]))
  {
    if forall n: nat :: n < |events| ==> !StaleStart(Upto(scope, start, events, n), events[n]) {
      forall n: nat | n <= |events| ensures BusyExact(Upto(scope, start, events, n)) {
        BusyExactUpto(scope, start, events, n);
      }
    }
    if forall n: nat :: n <= |events| ==> BusyExact(Upto(scope, start, events, n)) {
      forall n: nat | n < |events| ensures !StaleStart(Upto(scope, start, events, n), events[n]) {
        UptoStep(scope, start, events, n);
        assert BusyExact(Upto(scope, start, events, n + 1));
        BusyStep(Upto(scope, start, events, n), events[n]);
      }
    }
  }

  /** A start from an outdated render leaves the panel busy with nothing to release it. */
  lemma StaleStartSticks(scope: Scope, rendered: Scope, content: Content)
    requires rendered != scope
    ensures var s := Run(Initial(scope, 0),
                         [Start(content.variables, content.summary, rendered, content.mutate, content.onSuccess)]);
            s.panel.mounted && s.panel.busy && forall i :: !InFlight(s, i)
  {
    var e := Start(content.variables, content.summary, rendered, content.mutate, content.onSuccess);
    assert [e][..0] == [];
    assert Run(Initial(scope, 0), []) == Initial(scope, 0);
  }

  // ---------------------------------------------------------------------------
  // The hook, in place
  // ---------------------------------------------------------------------------

  /** The hook's refs. `log` and `drawnBy` only record what it does; each continuation receives
      what its closure captured when the request was issued. */
  class ConfirmedMutation {
    var pending: Option<Action>
    var generation: nat
    var busy: bool
    var mounted: bool
    var scope: Scope
    var view: Option<Action>
    var submitting: bool
    var error: Option<Message>
    ghost var drawnBy: nat
    ghost var log: Log<Content>

    ghost function Value(): State
      reads this
    {
      State(Panel(pending, generation, busy, mounted, scope, view, submitting, error), drawnBy, log)
    }

    constructor (scope: Scope, ghost now: int)
      ensures Value() == Initial(scope, now)
    {
      pending, generation, busy, mounted := None, 0, false, true;
      this.scope := scope;
      view, submitting, error := None, false, None;
      drawnBy, log := 0, Log(now, [], map[], []);
    }

    method Prepare(variables: Snapshot, summary: seq<string>, rendered: Scope, mutate: Handle, onSuccess: Handle)
      modifies this
      ensures Value() == StartStep(old(Value()), Start(variables, summary, rendered, mutate, onSuccess))
    {
      if busy || pending.Some? {
        return;
      }
      var content := Content(variables, summary, rendered, mutate, onSuccess);
      var action := Action(content, None, 0);
      generation := generation + 1;
      var id := generation;
      pending := Some(action);
      busy := true;
      view := Some(action);
      error := None;
      submitting := true;
      drawnBy := |log.requests|;
      log := Send(log, Request(content, None, id, |log.requests|, log.now, Some(content), false));
    }

    method PreparationAnswered(ghost i: nat, action: Action, id: nat, outcome: Outcome, now: int)
      requires i < |log.requests| && !log.requests[i].resolved && now == log.now
      requires log.requests[i].content == action.content && log.requests[i].generation == id
      requires log.requests[i].token.None?
      modifies this
      ensures Value() == ResolveStep(old(Value()), i, outcome)
    {
      log := MarkResolved(log, i);
      if !(mounted && id == generation && scope == action.content.scope) {
        return;
      }
      match outcome {
        case Fulfilled =>
          error := Some(NotChallenged);
        case Rejected(e) =>
          var challenge := ChallengeFrom(e, now);
          if challenge.Some? {
            var ready := action.(token := Some(challenge.value.token), expires := challenge.value.expiresAt);
            pending := Some(ready);
            view := Some(ready);
            drawnBy := i;
            log := Accept(log, i, challenge.value, action.content);
          } else {
            error := Some(PreparationFailed);
          }
      }
      busy := false;
      submitting := false;
    }

    method ConfirmPending(now: int)
      requires now == log.now
      modifies this
      ensures Value() == ConfirmStep(old(Value()))
    {
      if pending.None? || pending.value.token.None? || busy || scope != pending.value.content.scope {
        return;
      }
      var action := pending.value;
      ghost var shown := Shown(Value().panel);
      pending := Some(action.(token := None));
      view := pending;
      if now >= action.expires {
        error := Some(ConfirmationExpired);
        return;
      }
      busy := true;
      submitting := true;
      error := None;
      log := Send(log, Request(action.content, action.token, generation, drawnBy, log.now, shown, false));
    }

    method ConfirmationAnswered(ghost i: nat, action: Action, id: nat, outcome: Outcome)
      requires i < |log.requests| && !log.requests[i].resolved
      requires log.requests[i].content == action.content && log.requests[i].generation == id
      requires log.requests[i].token.Some?
      modifies this
      ensures Value() == ResolveStep(old(Value()), i, outcome)
    {
      log := MarkResolved(log, i);
      if !(mounted && id == generation && scope == action.content.scope) {
        return;
      }
      if outcome.Fulfilled? {
        pending := None;
        view := None;
        log := Report(log, i);
      } else {
        error := Some(OutcomeUnknown);
      }
      busy := false;
      submitting := false;
    }

    method CancelPending()
      modifies this
      ensures Value() == Step(old(Value()), Cancel)
    {
      if busy {
        return;
      }
      generation := generation + 1;
      pending := None;
      view := None;
      error := None;
    }

    method ScopeChanged(scope: Scope)
      modifies this
      ensures Value() == Step(old(Value()), ChangeScope(scope))
    {
      this.scope := scope;
      generation := generation + 1;
      pending := None;
      busy := false;
      view := None;
      error := None;
      submitting := false;
    }

    method Unmounted()
      modifies this
      ensures Value() == Step(old(Value()), Unmount)
    {
      mounted := false;
      generation := generation + 1;
      pending := None;
    }

    method Mounted()
      modifies this
      ensures Value() == Step(old(Value()), Mount)
    {
      mounted := true;
      ScopeChanged(scope);
    }
  }
}
