/** The two flows that ask for a fresh proof of presence before the confirmation: revoking an MCP
    grant and changing an account's hard caps. An attempt, which any start or presence proof may
    send at any time, either applies, asks for presence, fails, or draws the challenge; only then
    does the dialog open, and only then are the variables frozen: what the caller's object holds at
    that moment is what is shown and confirmed, whatever was attempted.

    Both hooks run the same protocol; they differ in what a failed attempt leaves on screen. */
module PresenceConfirmations {
  import opened Wrappers
  import opened ApiErrors
  import opened ChallengeLedger

  type Variables = string

  datatype Flow = RevokeGrant | HardCaps

  datatype Dialog = Dialog(variables: Variables, token: Option<string>, expiresAt: int)

  datatype Message = ConfirmationExpired | ConfirmationFailed(error: ApiError)

  datatype Panel = Panel(
    flow: Flow, pending: Option<Dialog>, generation: nat, busy: bool, mounted: bool,
    view: Option<Dialog>, submitting: bool, error: Option<Message>, submitError: Option<ApiError>)

  datatype State = State(panel: Panel, drawnBy: nat, log: Log<Variables>)

  datatype Outcome = Fulfilled | Rejected(error: ApiError)

  datatype Event =
    | Attempt(variables: Variables)
    // `held` is what the object that was attempted with holds when the answer arrives. An attempt that
    // the hook repeats by itself is with one already frozen, which holds what was attempted.
    | Resolve(request: nat, outcome: Outcome, held: Variables)
    | Confirm
    | Cancel
    | Unmount
    | Tick(ms: nat)

  function Initial(flow: Flow, now: int): State {
    State(Panel(flow, None, 0, false, true, None, false, None, None), 0, Log(now, [], map[], []))
  }

  function Shown(p: Panel): Option<Variables> {
    if p.view.Some? then Some(p.view.value.variables) else None
  }

  /** No attempt waits for `busy`, and none takes a generation. */
  function AttemptStep(s: State, variables: Variables): State {
    var index := |s.log.requests|;
    s.(panel := s.panel.(submitError := None),
       log := Send(s.log, Request(variables, None, s.panel.generation, index, s.log.now, Shown(s.panel), false)))
  }

  function AttemptResolved(s: State, i: nat, outcome: Outcome, held: Variables): State
    requires i < |s.log.requests|
  {
    match outcome
    case Fulfilled => s.(log := Report(s.log, i))
    case Rejected(error) =>
      match ChallengeFrom(error, s.log.now)
      case Some(c) =>
        if !s.panel.mounted then s
        else
          var ready := Some(Dialog(held, Some(c.token), c.expiresAt));
          State(s.panel.(generation := s.panel.generation + 1, pending := ready, view := ready, error := None),
                i, Accept(s.log, i, c, held))
      case None =>
        if s.panel.flow.HardCaps? && s.panel.mounted && !NeedsPresence(error) then
          s.(panel := s.panel.(submitError := Some(error)))
        else s
  }

  function ConfirmStep(s: State): State {
    var p := s.panel;
    if p.pending.None? || p.pending.value.token.None? || p.busy then s
    else
      var dialog := p.pending.value;
      var spent := Some(dialog.(token := None));
      if s.log.now >= dialog.expiresAt then
        s.(panel := p.(pending := spent, view := spent, error := Some(ConfirmationExpired)))
      else
        State(p.(pending := spent, view := spent, busy := true, submitting := true, error := None),
              s.drawnBy,
              Send(s.log, Request(dialog.variables, dialog.token, p.generation, s.drawnBy, s.log.now,
                                  Shown(p), false)))
  }

  predicate Current(p: Panel, r: Request<Variables>) {
    p.mounted && r.generation == p.generation
  }

  function ConfirmationResolved(s: State, i: nat, outcome: Outcome): State
    requires i < |s.log.requests|
  {
    var r := s.log.requests[i];
    if !Current(s.panel, r) then s
    else
      var idle := s.panel.(busy := false, submitting := false);
      match outcome
      case Fulfilled => s.(panel := idle.(pending := None, view := None), log := Report(s.log, i))
      case Rejected(error) =>
        // The proof of presence lapsed between the two dialogs: start over from the first.
        if NeedsPresence(error) then AttemptStep(s.(panel := idle.(pending := None, view := None)), r.content)
        else s.(panel := idle.(error := Some(ConfirmationFailed(error))))
  }

  function ResolveStep(s: State, i: nat, outcome: Outcome, held: Variables): State {
    if i >= |s.log.requests| || s.log.requests[i].resolved then s
    else
      var marked := s.(log := MarkResolved(s.log, i));
      if s.log.requests[i].token.None? then AttemptResolved(marked, i, outcome, held)
      else ConfirmationResolved(marked, i, outcome)
  }

  function CancelStep(p: Panel): Panel {
    if p.busy then p
    else p.(generation := p.generation + 1, pending := None, view := None, error := None)
  }

  function Step(s: State, e: Event): State {
    match e
    case Attempt(variables) => AttemptStep(s, variables)
    case Resolve(i, outcome, held) => ResolveStep(s, i, outcome, held)
    case Confirm => ConfirmStep(s)
    case Cancel => s.(panel := CancelStep(s.panel))
    case Unmount =>
      s.(panel := s.panel.(mounted := false, generation := s.panel.generation + 1, pending := None))
    case Tick(ms) => s.(log := s.log.(now := s.log.now + ms))
  }

  function Run(s: State, events: seq<Event>): State {
    if events == [] then s
    else Step(Run(s, events[..|events| - 1]), events[|events| - 1])
  }

  // ---------------------------------------------------------------------------
  // Safety of tokens
  // ---------------------------------------------------------------------------

  ghost predicate PendingSound(s: State) {
    && (s.panel.mounted ==> s.panel.view == s.panel.pending)
    && (s.panel.pending.Some? && s.panel.pending.value.token.Some? ==>
          && s.panel.mounted
          && s.drawnBy in s.log.accepted && AcceptedSound(s.log, s.drawnBy) && !Spent(s.log, s.drawnBy)
          && var dialog, c := s.panel.pending.value, s.log.accepted[s.drawnBy].challenge;
          && dialog.token.value == c.token && dialog.expiresAt == c.expiresAt
          && dialog.variables == s.log.accepted[s.drawnBy].content)
  }

  ghost predicate Inv(s: State) {
    LogSound(s.log) && PendingSound(s)
  }

  lemma AttemptInv(s: State, variables: Variables)
    requires Inv(s)
    ensures Inv(AttemptStep(s, variables))
  {
    var s' := AttemptStep(s, variables);
    SendSound(s.log, s'.log.requests[|s.log.requests|]);
    assert forall i: nat :: Spent(s'.log, i) ==> Spent(s.log, i);
  }

  lemma ResolveInv(s: State, i: nat, outcome: Outcome, held: Variables)
    requires Inv(s)
    ensures Inv(ResolveStep(s, i, outcome, held))
  {
    if i < |s.log.requests| && !s.log.requests[i].resolved {
      MarkSound(s.log, i);
      assert AcceptedSound(s.log, i);
      var marked := s.(log := MarkResolved(s.log, i));
      if s.log.requests[i].token.None? {
        if outcome.Rejected? && ChallengeFrom(outcome.error, s.log.now).Some? {
          AcceptSound(marked.log, i, ChallengeFrom(outcome.error, s.log.now).value, held);
        } else {
          SameRequestsSound(marked.log, ResolveStep(s, i, outcome, held).log);
        }
      } else if Current(s.panel, s.log.requests[i]) {
        var idle := s.panel.(busy := false, submitting := false, pending := None, view := None);
        if outcome.Rejected? && NeedsPresence(outcome.error) {
          AttemptInv(marked.(panel := idle), s.log.requests[i].content);
        } else {
          SameRequestsSound(marked.log, ResolveStep(s, i, outcome, held).log);
        }
      }
    }
  }

  lemma StepInv(s: State, e: Event)
    requires Inv(s)
    ensures Inv(Step(s, e))
  {
    match e
    case Attempt(variables) => AttemptInv(s, variables);
    case Resolve(i, outcome, held) => ResolveInv(s, i, outcome, held);
    case Confirm =>
      var s' := ConfirmStep(s);
      if |s'.log.requests| > |s.log.requests| {
        SendSound(s.log, s'.log.requests[|s.log.requests|]);
      }
    case Tick(_) => SameRequestsSound(s.log, Step(s, e).log);
    case _ =>
  }

  lemma {:induction false} RunInv(flow: Flow, now: int, events: seq<Event>)
    ensures Inv(Run(Initial(flow, now), events))
  {
    if events != [] {
      var init := events[..|events| - 1];
      RunInv(flow, now, init);
      StepInv(Run(Initial(flow, now), init), events[|events| - 1]);
    }
  }

  /** In every run of either flow, each request with a token answers one accepted challenge, in
      time, with the variables frozen when that challenge arrived, which the dialog showed; and no
      other request answers that challenge. */
  lemma TokensAreSentOnceAndInTime(flow: Flow, start: int, events: seq<Event>, i: nat)
    requires i < |Run(Initial(flow, start), events).log.requests|
    requires Run(Initial(flow, start), events).log.requests[i].token.Some?
    ensures var log := Run(Initial(flow, start), events).log;
            var sent := log.requests[i];
            && sent.preparation < |log.requests| && sent.preparation in log.accepted
            && var prepared, a := log.requests[sent.preparation], log.accepted[sent.preparation];
            && prepared.token.None? && prepared.resolved
            && sent.token.value == a.challenge.token
            && a.at <= sent.sentAt < a.challenge.expiresAt <= a.at + MAX_TTL_MS
            && sent.content == a.content && sent.shown == Some(a.content)
            && forall j :: 0 <= j < |log.requests| && j != i && log.requests[j].token.Some? ==>
                 log.requests[j].preparation != sent.preparation
  {
    RunInv(flow, start, events);
    var log := Run(Initial(flow, start), events).log;
    assert Confirms(log, log.requests[i]);
  }

  ghost predicate GenerationsSound(s: State) {
    forall i :: 0 <= i < |s.log.requests| ==> s.log.requests[i].generation <= s.panel.generation
  }

  lemma {:induction false} RunGenerations(flow: Flow, now: int, events: seq<Event>)
    ensures GenerationsSound(Run(Initial(flow, now), events))
  {
    if events != [] {
      var init := events[..|events| - 1];
      RunGenerations(flow, now, init);
    }
  }

  function Upto(flow: Flow, start: int, events: seq<Event>, n: nat): State
    requires n <= |events|
  {
    Run(Initial(flow, start), events[..n])
  }

  lemma UptoStep(flow: Flow, start: int, events: seq<Event>, n: nat)
    requires n < |events|
    ensures Upto(flow, start, events, n + 1) == Step(Upto(flow, start, events, n), events[n])
    ensures Inv(Upto(flow, start, events, n)) && GenerationsSound(Upto(flow, start, events, n))
  {
    assert events[..n + 1][..n] == events[..n];
    RunInv(flow, start, events[..n]);
    RunGenerations(flow, start, events[..n]);
  }

  // ---------------------------------------------------------------------------
  // What is sent, and when
  // ---------------------------------------------------------------------------

  /** A challenge whose token was not sent yet is waiting for the click, with time left, and nothing is
      under way. */
  predicate Confirmable(s: State) {
    && s.panel.pending.Some? && s.panel.pending.value.token.Some? && !s.panel.busy
    && s.drawnBy in s.log.accepted && s.log.now < s.log.accepted[s.drawnBy].challenge.expiresAt
  }

  lemma ConfirmSends(s: State)
    requires Inv(s)
    ensures var before, after := s.log.requests, Step(s, Confirm).log.requests;
            && (after != before <==> Confirmable(s))
            && (Confirmable(s) ==>
                  && !Spent(s.log, s.drawnBy)
                  && var a := s.log.accepted[s.drawnBy];
                  after == before + [Request(a.content, Some(a.challenge.token), s.panel.generation, s.drawnBy,
                                             s.log.now, Some(a.content), false)])
  {
  }

  /** In every reachable state a click sends something if and only if a challenge is waiting in time; and
      then it sends one request, with that challenge's token and what was frozen when it came. */
  lemma ConfirmSendsExactly(flow: Flow, start: int, events: seq<Event>)
    ensures var s := Run(Initial(flow, start), events);
            var before, after := s.log.requests, Step(s, Confirm).log.requests;
            && (after != before <==> Confirmable(s))
            && (Confirmable(s) ==>
                  && !Spent(s.log, s.drawnBy)
                  && var a := s.log.accepted[s.drawnBy];
                  after == before + [Request(a.content, Some(a.challenge.token), s.panel.generation, s.drawnBy,
                                             s.log.now, Some(a.content), false)])
  {
    RunInv(flow, start, events);
    ConfirmSends(Run(Initial(flow, start), events));
  }

  /** Every attempt sends one request without a token, for what it was given. */
  lemma AttemptsAreSent(s: State, variables: Variables)
    ensures var before, after := s.log.requests, Step(s, Attempt(variables)).log.requests;
            && |after| == |before| + 1 && after[..|before|] == before
            && after[|before|].token.None? && after[|before|].content == variables
  {
  }

  /** A confirmation is answered, while current, with the demand for another proof of presence. */
  predicate AsksAgain(s: State, e: Event, content: Variables) {
    && e.Resolve? && e.request < |s.log.requests| && !s.log.requests[e.request].resolved
    && s.log.requests[e.request].token.Some? && s.log.requests[e.request].content == content
    && s.panel.mounted && s.log.requests[e.request].generation == s.panel.generation
    && e.outcome.Rejected? && e.outcome.error.ApiRequestError? && e.outcome.error.code == "REAUTH_REQUIRED"
  }

  lemma OneRequestAtMost(s: State, e: Event)
    ensures var before, after := s.log.requests, Step(s, e).log.requests;
            && |before| <= |after| <= |before| + 1
            && (forall i :: 0 <= i < |before| ==>
                  after[i].token == before[i].token && after[i].content == before[i].content)
            && (|after| > |before| ==>
                  if after[|before|].token.Some? then e.Confirm?
                  else e == Attempt(after[|before|].content) || AsksAgain(s, e, after[|before|].content))
            && (forall content :: AsksAgain(s, e, content) ==> |after| > |before| && after[|before|].content == content)
  {
  }

  /** Each request without a token was sent by an attempt, for exactly what that was given, or repeats one
      whose proof of presence lapsed. */
  lemma {:induction false} AttemptsHaveTheirReason(flow: Flow, start: int, events: seq<Event>, i: nat) returns (n: nat)
    requires i < |Run(Initial(flow, start), events).log.requests|
    requires Run(Initial(flow, start), events).log.requests[i].token.None?
    ensures n < |events| && |Run(Initial(flow, start), events[..n]).log.requests| == i
    ensures var content := Run(Initial(flow, start), events).log.requests[i].content;
            events[n] == Attempt(content) || AsksAgain(Run(Initial(flow, start), events[..n]), events[n], content)
  {
    var last := |events| - 1;
    var before, e := Run(Initial(flow, start), events[..last]), events[last];
    OneRequestAtMost(before, e);
    if i < |before.log.requests| {
      n := AttemptsHaveTheirReason(flow, start, events[..last], i);
      assert events[..last][..n] == events[..n];
    } else {
      n := last;
    }
  }

  /** The success of an attempt is reported as such; that of a confirmation if and only if it is current,
      and then the dialog closes. */
  lemma SuccessIsReportedExactly(s: State, i: nat, outcome: Outcome, held: Variables)
    ensures var s' := Step(s, Resolve(i, outcome, held));
            var open := i < |s.log.requests| && !s.log.requests[i].resolved;
            var current := open && s.panel.mounted && s.log.requests[i].generation == s.panel.generation;
            && s'.log.succeeded ==
               (if open && outcome.Fulfilled? && (s.log.requests[i].token.Some? ==> current)
                then s.log.succeeded + [i] else s.log.succeeded)
            && (current && s.log.requests[i].token.Some? && outcome.Fulfilled? ==>
                  s'.panel.pending.None? && s'.panel.view.None? && !s'.panel.busy)
  {
  }

  lemma {:induction false} FlowStays(flow: Flow, start: int, events: seq<Event>)
    ensures Run(Initial(flow, start), events).panel.flow == flow
  {
    if events != [] {
      FlowStays(flow, start, events[..|events| - 1]);
    }
  }

  /** A challenge is accepted if and only if the answer to an open attempt of a mounted panel is a 428 with
      a token of up to 2048 characters that expires within 125 seconds; it then waits for the click, on
      screen, with what the object holds. An error that is neither a challenge nor a demand for presence is
      shown by the hard caps flow and by no other. */
  lemma ChallengeIsAcceptedExactly(
    flow: Flow, start: int, events: seq<Event>, i: nat, outcome: Outcome, held: Variables)
    requires i < |Run(Initial(flow, start), events).log.requests|
    requires var r := Run(Initial(flow, start), events).log.requests[i]; !r.resolved && r.token.None?
    ensures var s := Run(Initial(flow, start), events);
            var s' := Step(s, Resolve(i, outcome, held));
            var challenged :=
              && s.panel.mounted && outcome.Rejected? && outcome.error.ApiRequestError?
              && outcome.error.status == 428 && outcome.error.code == "CONFIRMATION_REQUIRED"
              && outcome.error.token.Some? && 1 <= |outcome.error.token.value| <= 2048
              && outcome.error.expires.Some? && s.log.now < outcome.error.expires.value <= s.log.now + 125_000;
            && i !in s.log.accepted && (i in s'.log.accepted <==> challenged)
            && (challenged ==>
                  && s'.panel.pending == s'.panel.view && s'.drawnBy == i
                  && s'.panel.pending == Some(Dialog(held, outcome.error.token, outcome.error.expires.value)))
            && s'.panel.submitError ==
               (if flow.HardCaps? && s.panel.mounted && outcome.Rejected? && !challenged
                  && !(outcome.error.ApiRequestError? && outcome.error.code == "REAUTH_REQUIRED")
                then Some(outcome.error) else s.panel.submitError)
  {
    RunInv(flow, start, events);
    FlowStays(flow, start, events);
    assert AcceptedSound(Run(Initial(flow, start), events).log, i);
  }

  // ---------------------------------------------------------------------------
  // What was withdrawn
  // ---------------------------------------------------------------------------

  /** The dialog is cancelled while nothing is under way, or its component goes. */
  predicate Withdraws(s: State, e: Event) {
    (e.Cancel? && !s.panel.busy) || e.Unmount?
  }

  /** None of the challenges in `past` is waiting, and none was sent by a request from the `n`th on. */
  ghost predicate OldAreGone(s: State, past: set<nat>, n: nat) {
    && n <= |s.log.requests|
    && (forall i :: i in past ==> i < |s.log.requests| && s.log.requests[i].resolved)
    && (s.panel.pending.Some? && s.panel.pending.value.token.Some? ==> s.drawnBy !in past)
    && (forall j :: n <= j < |s.log.requests| && s.log.requests[j].token.Some? ==>
          s.log.requests[j].preparation !in past)
  }

  lemma OldStayGone(s: State, e: Event, past: set<nat>, n: nat)
    requires OldAreGone(s, past, n)
    ensures OldAreGone(Step(s, e), past, n)
  {
  }

  lemma {:induction false} OldStayGoneThroughout(s: State, events: seq<Event>, past: set<nat>, n: nat)
    requires OldAreGone(s, past, n)
    ensures OldAreGone(Run(s, events), past, n)
  {
    if events != [] {
      var init := events[..|events| - 1];
      OldStayGoneThroughout(s, init, past, n);
      OldStayGone(Run(s, init), events[|events| - 1], past, n);
    }
  }

  lemma WithdrawnAreGone(s: State, e: Event)
    requires LogSound(s.log) && Withdraws(s, e)
    ensures OldAreGone(Step(s, e), s.log.accepted.Keys, |s.log.requests|)
  {
    forall i | i in s.log.accepted ensures i < |s.log.requests| && s.log.requests[i].resolved {
      assert AcceptedSound(s.log, i);
    }
  }

  /** What was withdrawn is never confirmed: no request sent afterwards, in any further run, answers a
      challenge accepted before. */
  lemma WithdrawnIsNeverSent(flow: Flow, start: int, before: seq<Event>, e: Event, after: seq<Event>, j: nat)
    requires Withdraws(Run(Initial(flow, start), before), e)
    requires var n := |Run(Initial(flow, start), before).log.requests|;
             var later := Run(Step(Run(Initial(flow, start), before), e), after);
             n <= j < |later.log.requests| && later.log.requests[j].token.Some?
    ensures var later := Run(Step(Run(Initial(flow, start), before), e), after);
            later.log.requests[j].preparation !in Run(Initial(flow, start), before).log.accepted
  {
    var s := Run(Initial(flow, start), before);
    RunInv(flow, start, before);
    WithdrawnAreGone(s, e);
    OldStayGoneThroughout(Step(s, e), after, s.log.accepted.Keys, |s.log.requests|);
  }

  // ---------------------------------------------------------------------------
  // What is confirmed against what was attempted
  // ---------------------------------------------------------------------------

  /** The caller changed the object between the attempt and its challenge. */
  predicate ChangedMeanwhile(s: State, e: Event) {
    && e.Resolve? && e.request < |s.log.requests|
    && e.request in Step(s, e).log.accepted && e.request !in s.log.accepted
    && e.held != s.log.requests[e.request].content
  }

  /** What is to be confirmed is what was attempted. */
  ghost predicate AsAttempted(s: State) {
    forall i :: i in s.log.accepted ==> i < |s.log.requests| && s.log.accepted[i].content == s.log.requests[i].content
  }

  lemma ContentsStay(s: State, e: Event)
    ensures var before, after := s.log.requests, Step(s, e).log.requests;
            |before| <= |after| && forall i :: 0 <= i < |before| ==> after[i].content == before[i].content
  {
  }

  /** A challenge is accepted with what the object holds. */
  lemma AcceptedStep(s: State, e: Event)
    requires Inv(s)
    ensures var before, after := s.log.accepted, Step(s, e).log.accepted;
            || after == before
            || (e.Resolve? && e.request < |s.log.requests| && e.request !in before && e.request in after
                && after == before[e.request := after[e.request]] && after[e.request].content == e.held)
  {
    if e.Resolve? && e.request < |s.log.requests| {
      assert AcceptedSound(s.log, e.request);
    }
  }

  lemma AsAttemptedStep(s: State, e: Event)
    requires Inv(s) && AsAttempted(s)
    ensures AsAttempted(Step(s, e)) <==> !ChangedMeanwhile(s, e)
  {
    ContentsStay(s, e);
    AcceptedStep(s, e);
  }

  lemma {:induction false} AsAttemptedUpto(flow: Flow, start: int, events: seq<Event>, n: nat)
    requires n <= |events|
    requires forall m: nat :: m < n ==> !ChangedMeanwhile(Upto(flow, start, events, m), events[m])
    ensures AsAttempted(Upto(flow, start, events, n))
  {
    if n > 0 {
      AsAttemptedUpto(flow, start, events, n - 1);
      UptoStep(flow, start, events, n - 1);
      AsAttemptedStep(Upto(flow, start, events, n - 1), events[n - 1]);
    }
  }

  /** Every challenge is for what was attempted, at every moment of a run, if and only if no object is
      changed between an attempt and its challenge: the snapshot is taken only then. */
  lemma ConfirmedAsAttemptedExactlyWhenUnchanged(flow: Flow, start: int, events: seq<Event>)
    ensures (forall n: nat :: n <= |events| ==> AsAttempted(Upto(flow, start, events, n)))
       <==> (forall n: nat :: n < |events| ==> !ChangedMeanwhile(Upto(flow, start, events, n), events[n]))
  {
    if forall n: nat :: n < |events| ==> !ChangedMeanwhile(Upto(flow, start, events, n), events[n]) {
      forall n: nat | n <= |events| ensures AsAttempted(Upto(flow, start, events, n)) {
        AsAttemptedUpto(flow, start, events, n);
      }
    }
    if forall n: nat :: n <= |events| ==> AsAttempted(Upto(flow, start, events, n)) {
      forall n: nat | n < |events| ensures !ChangedMeanwhile(Upto(flow, start, events, n), events[n]) {
        UptoStep(flow, start, events, n);
        assert AsAttempted(Upto(flow, start, events, n + 1));
        AsAttemptedStep(Upto(flow, start, events, n), events[n]);
      }
    }
  }

  lemma RunSnoc(s: State, events: seq<Event>, e: Event)
    ensures Run(s, events + [e]) == Step(Run(s, events), e)
  {
    assert (events + [e])[..|events|] == events;
  }

  /** From an attempt to the click: challenged for `ttl` milliseconds, and confirmed after `delay`. */
  function ConfirmedRun(variables: Variables, token: string, ttl: int, delay: nat): seq<Event> {
    var challenge := Rejected(ApiRequestError(428, "CONFIRMATION_REQUIRED", Some(token), Some(ttl)));
    [Attempt(variables)] + [Resolve(0, challenge, variables)] + [Tick(delay)] + [Confirm]
  }

  /** Such a run sends the token, with the variables attempted, if and only if the click comes before the
      challenge expires. */
  lemma ConfirmingInTimeSends(flow: Flow, variables: Variables, token: string, ttl: int, delay: nat)
    requires 1 <= |token| <= 2048 && 0 < ttl <= 125_000
    ensures var requests := Run(Initial(flow, 0), ConfirmedRun(variables, token, ttl, delay)).log.requests;
            && (|requests| == 2 <==> delay < ttl)
            && (delay < ttl ==> requests[1].token == Some(token) && requests[1].content == variables)
  {
    var challenge := Rejected(ApiRequestError(428, "CONFIRMATION_REQUIRED", Some(token), Some(ttl)));
    var s0, drawn := Initial(flow, 0), [Attempt(variables)] + [Resolve(0, challenge, variables)];
    RunSnoc(s0, [], Attempt(variables));
    RunSnoc(s0, [Attempt(variables)], Resolve(0, challenge, variables));
    assert Run(s0, drawn).panel.pending == Some(Dialog(variables, Some(token), ttl));
    RunSnoc(s0, drawn, Tick(delay));
    RunSnoc(s0, drawn + [Tick(delay)], Confirm);
  }

  /** A run that does: the object is attempted with, changed, and then challenged. */
  lemma ChangingMeanwhileIsReachable(flow: Flow) returns (events: seq<Event>)
    ensures |events| == 2 && ChangedMeanwhile(Upto(flow, 0, events, 1), events[1])
    ensures !AsAttempted(Upto(flow, 0, events, 2))
  {
    var challenge := ApiRequestError(428, "CONFIRMATION_REQUIRED", Some("t"), Some(100));
    assert ChallengeFrom(challenge, 0) == Some(Challenge("t", 100));
    events := [Attempt("a")] + [Resolve(0, Rejected(challenge), "b")];
    RunSnoc(Initial(flow, 0), [], Attempt("a"));
    assert events[..1] == [Attempt("a")] && events[..2] == events && events[..1][..0] == [];
    UptoStep(flow, 0, events, 0);
    UptoStep(flow, 0, events, 1);
    AsAttemptedUpto(flow, 0, events, 1);
    AsAttemptedStep(Upto(flow, 0, events, 1), events[1]);
  }

  // ---------------------------------------------------------------------------
  // The busy flag
  // ---------------------------------------------------------------------------

  ghost predicate InFlight(s: State, i: nat) {
    && i < |s.log.requests| && s.log.requests[i].token.Some?
    && !s.log.requests[i].resolved && Current(s.panel, s.log.requests[i])
  }

  /** While mounted, `busy` says that exactly one unresolved confirmation will release it. */
  ghost predicate BusyExact(s: State) {
    s.panel.mounted ==>
      && (s.panel.busy <==> exists i :: InFlight(s, i))
      && (forall i, j :: InFlight(s, i) && InFlight(s, j) ==> i == j)
  }

  /** An attempt's challenge that arrives while a confirmation is in flight. */
  ghost predicate ChallengedWhileBusy(s: State, e: Event) {
    && s.panel.mounted && s.panel.busy
    && e.Resolve? && e.request < |s.log.requests|
    && s.log.requests[e.request].token.None? && !s.log.requests[e.request].resolved
    && e.outcome.Rejected? && ChallengeFrom(e.outcome.error, s.log.now).Some?
  }

  lemma BusyAttempt(s: State, variables: Variables)
    requires BusyExact(s)
    ensures BusyExact(AttemptStep(s, variables))
  {
    var s' := AttemptStep(s, variables);
    assert forall i: nat :: InFlight(s', i) == InFlight(s, i);
  }

  lemma BusyConfirm(s: State)
    requires Inv(s) && BusyExact(s)
    ensures BusyExact(ConfirmStep(s))
  {
    var s' := ConfirmStep(s);
    var n := |s.log.requests|;
    assert forall i: nat :: i < n ==> InFlight(s', i) == InFlight(s, i);
    if |s'.log.requests| > n {
      assert InFlight(s', n);
    }
  }

  lemma BusyAttemptResolved(s: State, i: nat, outcome: Outcome, held: Variables)
    requires GenerationsSound(s) && BusyExact(s)
    requires i < |s.log.requests| && s.log.requests[i].token.None? && !s.log.requests[i].resolved
    ensures BusyExact(ResolveStep(s, i, outcome, held)) <==> !ChallengedWhileBusy(s, Resolve(i, outcome, held))
  {
    var s' := ResolveStep(s, i, outcome, held);
    if s'.panel.generation > s.panel.generation {
      assert forall j: nat :: !InFlight(s', j);
    } else {
      assert forall j: nat :: InFlight(s', j) == InFlight(s, j);
    }
  }

  lemma BusyConfirmationResolved(s: State, i: nat, outcome: Outcome, held: Variables)
    requires BusyExact(s)
    requires i < |s.log.requests| && s.log.requests[i].token.Some? && !s.log.requests[i].resolved
    ensures BusyExact(ResolveStep(s, i, outcome, held))
  {
    var s' := ResolveStep(s, i, outcome, held);
    assert forall j: nat :: InFlight(s', j) <==> InFlight(s, j) && j != i;
    if InFlight(s, i) {
      assert forall j :: !InFlight(s', j);
    }
  }

  /** One event keeps the flag exact precisely when it is not a challenge arriving while busy. */
  lemma BusyStep(s: State, e: Event)
    requires Inv(s) && GenerationsSound(s) && BusyExact(s)
    ensures BusyExact(Step(s, e)) <==> !ChallengedWhileBusy(s, e)
  {
    var s' := Step(s, e);
    match e
    case Attempt(variables) => BusyAttempt(s, variables);
    case Confirm => BusyConfirm(s);
    case Resolve(i, outcome, held) =>
      if i < |s.log.requests| && !s.log.requests[i].resolved {
        if s.log.requests[i].token.None? {
          BusyAttemptResolved(s, i, outcome, held);
        } else {
          BusyConfirmationResolved(s, i, outcome, held);
        }
      }
    case Tick(_) => assert forall i: nat :: InFlight(s', i) == InFlight(s, i);
    case _ =>
      if s'.panel.generation > s.panel.generation {
        assert forall i: nat :: !InFlight(s', i);
      }
  }

  lemma {:induction false} BusyExactUpto(flow: Flow, start: int, events: seq<Event>, n: nat)
    requires n <= |events|
    requires forall m: nat :: m < |events| ==> !ChallengedWhileBusy(Upto(flow, start, events, m), events[m])
    ensures BusyExact(Upto(flow, start, events, n))
  {
    if n > 0 {
      BusyExactUpto(flow, start, events, n - 1);
      UptoStep(flow, start, events, n - 1);
      BusyStep(Upto(flow, start, events, n - 1), events[n - 1]);
    }
  }

  /** The flag is exact at every moment of a run if and only if no challenge arrives while a
      confirmation is in flight. */
  lemma BusyIsExactUnlessChallenged(flow: Flow, start: int, events: seq<Event>)
    ensures (forall n: nat :: n <= |events| ==> BusyExact(Upto(flow, start, events, n)))
       <==> (forall n: nat :: n < |events| ==> !ChallengedWhileBusy(Upto(flow, start, events, n), events[n]))
  {
    if forall n: nat :: n < |events| ==> !ChallengedWhileBusy(Upto(flow, start, events, n), events[n]) {
      forall n: nat | n <= |events| ensures BusyExact(Upto(flow, start, events, n)) {
        BusyExactUpto(flow, start, events, n);
      }
    }
    if forall n: nat :: n <= |events| ==> BusyExact(Upto(flow, start, events, n)) {
      forall n: nat | n < |events| ensures !ChallengedWhileBusy(Upto(flow, start, events, n), events[n]) {
        UptoStep(flow, start, events, n);
        assert BusyExact(Upto(flow, start, events, n + 1));
        BusyStep(Upto(flow, start, events, n), events[n]);
      }
    }
  }

  /** Busy, with nothing in flight to release it. */
  ghost predicate Stuck(s: State) {
    s.panel.mounted && s.panel.busy && forall i :: !InFlight(s, i)
  }

  lemma StuckStep(s: State, e: Event)
    requires GenerationsSound(s) && Stuck(s) && !e.Unmount?
    ensures var s' := Step(s, e);
            && Stuck(s')
            && |s.log.requests| <= |s'.log.requests|
            && (forall i :: 0 <= i < |s.log.requests| ==> s'.log.requests[i].token == s.log.requests[i].token)
            && forall i :: |s.log.requests| <= i < |s'.log.requests| ==> s'.log.requests[i].token.None?
  {
    if e.Resolve? && e.request < |s.log.requests| {
      assert !InFlight(s, e.request);
    }
    var s' := Step(s, e);
    forall i: nat ensures !InFlight(s', i) {
      assert !InFlight(s, i);
    }
  }

  /** Once stuck, the dialog stays so until it unmounts: it can be neither cancelled nor confirmed,
      and no token is ever sent again. */
  lemma {:induction false} StuckUntilUnmount(s: State, events: seq<Event>)
    requires GenerationsSound(s) && Stuck(s)
    requires forall n :: 0 <= n < |events| ==> !events[n].Unmount?
    ensures var s' := Run(s, events);
            && Stuck(s') && GenerationsSound(s')
            && |s.log.requests| <= |s'.log.requests|
            && forall i :: |s.log.requests| <= i < |s'.log.requests| ==> s'.log.requests[i].token.None?
  {
    if events != [] {
      var init, e := events[..|events| - 1], events[|events| - 1];
      StuckUntilUnmount(s, init);
      var before := Run(s, init);
      StuckStep(before, e);
    }
  }

  /** A run that gets stuck: a second attempt is answered while the first one's confirmation is
      out, and the confirmation then succeeds without releasing the dialog. */
  lemma SecondAttemptSticks(flow: Flow) returns (events: seq<Event>)
    ensures |events| == 6 && events[5] == Resolve(2, Fulfilled, "a")
    ensures Stuck(Run(Initial(flow, 0), events))
  {
    var challenge := ApiRequestError(428, "CONFIRMATION_REQUIRED", Some("t"), Some(100));
    assert ChallengeFrom(challenge, 0) == Some(Challenge("t", 100));
    var s := Initial(flow, 0);
    var twice := [Attempt("a")] + [Attempt("b")];
    RunSnoc(s, [], Attempt("a"));
    RunSnoc(s, [Attempt("a")], Attempt("b"));
    RunSnoc(s, twice, Resolve(0, Rejected(challenge), "a"));
    var ready := twice + [Resolve(0, Rejected(challenge), "a")];
    assert Run(s, ready).panel.pending == Some(Dialog("a", Some("t"), 100));
    RunSnoc(s, ready, Confirm);
    var sent := ready + [Confirm];
    assert Run(s, sent).log.requests[2].generation == 1;
    RunSnoc(s, sent, Resolve(1, Rejected(challenge), "b"));
    var replaced := sent + [Resolve(1, Rejected(challenge), "b")];
    assert Run(s, replaced).panel.busy && Run(s, replaced).panel.generation == 2;
    RunSnoc(s, replaced, Resolve(2, Fulfilled, "a"));
    events := replaced + [Resolve(2, Fulfilled, "a")];
  }

  // ---------------------------------------------------------------------------
  // What is on screen
  // ---------------------------------------------------------------------------

  /** The confirmations of the current generation answer the challenge last accepted, and the dialog of one
      in flight has no token left. */
  ghost predicate OneDialog(s: State) {
    && (forall i :: 0 <= i < |s.log.requests| && s.log.requests[i].token.Some?
                    && s.log.requests[i].generation == s.panel.generation ==>
                      s.log.requests[i].preparation == s.drawnBy)
    && (forall i: nat :: InFlight(s, i) ==>
          s.panel.busy && s.panel.pending.Some? && s.panel.pending.value.token.None?)
    && (forall i: nat, j: nat :: InFlight(s, i) && InFlight(s, j) ==> i == j)
  }

  /** A dialog says something if and only if it can no longer be confirmed and nothing is under way, and what
      it says is so: the challenge expired, or its token was sent and refused. */
  ghost predicate Told(s: State) {
    && s.panel.submitting == s.panel.busy && (s.panel.busy ==> s.panel.error.None?)
    && (s.panel.mounted ==>
          (s.panel.error.Some? <==>
           s.panel.view.Some? && s.panel.view.value.token.None? && !s.panel.busy))
    && (s.panel.error.Some? ==>
          match s.panel.error.value
          case ConfirmationExpired =>
            s.drawnBy in s.log.accepted && s.log.accepted[s.drawnBy].challenge.expiresAt <= s.log.now
          case ConfirmationFailed(error) =>
            Spent(s.log, s.drawnBy) && !(error.ApiRequestError? && error.code == "REAUTH_REQUIRED"))
  }

  lemma RequestsStay(s: State, e: Event, i: nat)
    requires i < |s.log.requests|
    ensures i < |Step(s, e).log.requests|
    ensures Step(s, e).log.requests[i].(resolved := false) == s.log.requests[i].(resolved := false)
    ensures s.log.requests[i].resolved ==> Step(s, e).log.requests[i].resolved
  {
  }

  lemma SpentStays(s: State, e: Event, i: nat)
    requires Spent(s.log, i)
    ensures Spent(Step(s, e).log, i)
  {
    var j :| 0 <= j < |s.log.requests| && s.log.requests[j].token.Some? && s.log.requests[j].preparation == i;
    RequestsStay(s, e, j);
  }

  lemma OneDialogStays(s: State, e: Event)
    requires GenerationsSound(s) && OneDialog(s)
    ensures OneDialog(Step(s, e))
  {
    var s' := Step(s, e);
    forall i: nat | InFlight(s', i)
      ensures s'.panel.busy && s'.panel.pending.Some? && s'.panel.pending.value.token.None?
      ensures i < |s.log.requests| ==> InFlight(s, i)
    {
      if i < |s.log.requests| {
        RequestsStay(s, e, i);
        assert s.log.requests[i].generation <= s.panel.generation;
        assert InFlight(s, i) && !(e.Resolve? && e.request == i);
        assert !(e.Resolve? && InFlight(s, e.request));
      } else {
        OneRequestAtMost(s, e);
        assert e.Confirm?;
      }
    }
  }

  lemma TellsStep(s: State, e: Event)
    requires Inv(s) && OneDialog(s) && Told(s)
    ensures Told(Step(s, e))
  {
    if e.Resolve? && e.request < |s.log.requests| {
      assert AcceptedSound(s.log, e.request);
      if InFlight(s, e.request) {
        assert Spent(s.log, s.drawnBy);
      }
    }
    if Spent(s.log, s.drawnBy) {
      SpentStays(s, e, s.drawnBy);
    }
  }

  /** In every reachable state what the dialog says is true, and a dialog that is stuck says why. */
  lemma {:induction false} MessagesAreTrue(flow: Flow, start: int, events: seq<Event>)
    ensures var s := Run(Initial(flow, start), events); OneDialog(s) && Told(s)
  {
    if events != [] {
      var init := events[..|events| - 1];
      MessagesAreTrue(flow, start, init);
      RunInv(flow, start, init);
      RunGenerations(flow, start, init);
      OneDialogStays(Run(Initial(flow, start), init), events[|events| - 1]);
      TellsStep(Run(Initial(flow, start), init), events[|events| - 1]);
    }
  }

  // ---------------------------------------------------------------------------
  // The hooks, in place
  // ---------------------------------------------------------------------------

  /** The refs both hooks keep. `log` and `drawnBy` only record what is done; each continuation
      receives what its closure captured when the request was issued. */
  class PresenceConfirmation {
    const flow: Flow
    var pending: Option<Dialog>
    var generation: nat
    var busy: bool
    var mounted: bool
    var view: Option<Dialog>
    var submitting: bool
    var error: Option<Message>
    var submitError: Option<ApiError>
    ghost var drawnBy: nat
    ghost var log: Log<Variables>

    ghost function Value(): State
      reads this
    {
      State(Panel(flow, pending, generation, busy, mounted, view, submitting, error, submitError), drawnBy, log)
    }

    constructor (flow: Flow, ghost now: int)
      ensures Value() == Initial(flow, now)
    {
      this.flow := flow;
      pending, generation, busy, mounted := None, 0, false, true;
      view, submitting, error, submitError := None, false, None, None;
      drawnBy, log := 0, Log(now, [], map[], []);
    }

    method AttemptWith(variables: Variables)
      modifies this
      ensures Value() == AttemptStep(old(Value()), variables)
    {
      ghost var shown := Shown(Value().panel);
      submitError := None;
      log := Send(log, Request(variables, None, generation, |log.requests|, log.now, shown, false));
    }

    /** `variables` is the object that was attempted with, as it is now. */
    method AttemptAnswered(ghost i: nat, variables: Variables, outcome: Outcome, now: int)
      requires i < |log.requests| && !log.requests[i].resolved && now == log.now
      requires log.requests[i].token.None?
      modifies this
      ensures Value() == ResolveStep(old(Value()), i, outcome, variables)
    {
      log := MarkResolved(log, i);
      if outcome.Fulfilled? {
        log := Report(log, i);
        return;
      }
      var challenge := ChallengeFrom(outcome.error, now);
      if challenge.None? {
        if flow.HardCaps? && !NeedsPresence(outcome.error) && mounted {
          submitError := Some(outcome.error);
        }
        return;
      }
      if !mounted {
        return;
      }
      generation := generation + 1;
      var ready := Dialog(variables, Some(challenge.value.token), challenge.value.expiresAt);
      pending := Some(ready);
      error := None;
      view := Some(ready);
      drawnBy := i;
      log := Accept(log, i, challenge.value, variables);
    }

    method ConfirmPending(now: int)
      requires now == log.now
      modifies this
      ensures Value() == ConfirmStep(old(Value()))
    {
      if pending.None? || pending.value.token.None? || busy {
        return;
      }
      var dialog := pending.value;
      ghost var shown := Shown(Value().panel);
      pending := Some(dialog.(token := None));
      view := pending;
      if now >= dialog.expiresAt {
        error := Some(ConfirmationExpired);
        return;
      }
      busy := true;
      submitting := true;
      error := None;
      log := Send(log, Request(dialog.variables, dialog.token, generation, drawnBy, log.now, shown, false));
    }

    method ConfirmationAnswered(ghost i: nat, variables: Variables, id: nat, outcome: Outcome)
      requires i < |log.requests| && !log.requests[i].resolved
      requires log.requests[i].content == variables && log.requests[i].generation == id
      requires log.requests[i].token.Some?
      modifies this
      ensures Value() == ResolveStep(old(Value()), i, outcome, variables)
    {
      log := MarkResolved(log, i);
      if !(mounted && id == generation) {
        return;
      }
      if outcome.Fulfilled? {
        pending := None;
        view := None;
        log := Report(log, i);
      } else if NeedsPresence(outcome.error) {
        pending := None;
        view := None;
        AttemptWith(variables);
      } else {
        error := Some(ConfirmationFailed(outcome.error));
      }
      busy := false;
      submitting := false;
    }

    method CancelPending()
      modifies this
      ensures Value() == Step(old(Value()), Cancel)
    {
      if busy {
        return;
      }
      generation := generation + 1;
      pending := None;
      view := None;
      error := None;
    }

    method Unmounted()
      modifies this
      ensures Value() == Step(old(Value()), Unmount)
    {
      mounted := false;
      generation := generation + 1;
      pending := None;
    }
  }
}
