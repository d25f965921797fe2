/** What a confirmation flow has done: the requests it has issued and the challenges it has accepted
    from their answers. Kept apart from the flows themselves, which only send, resolve and accept. */
module ChallengeLedger {
  import opened Wrappers
  import opened ApiErrors

  /** A request carrying the `content`; with a `token` when it confirms. `preparation` is the
      index of the request that drew the challenge being confirmed, or its own index; `shown` what
      the dialog displayed when the request left. */
  datatype Request<C> = Request(
    content: C, token: Option<string>, generation: nat, preparation: nat,
    sentAt: int, shown: Option<C>, resolved: bool)

  /** A challenge with the content that was to be confirmed under it. */
  datatype Accepted<C> = Accepted(challenge: Challenge, at: int, content: C)

  /** The clock, the requests, the accepted challenges by preparation, and the requests whose success
      was reported to the caller. */
  datatype Log<C> = Log(now: int, requests: seq<Request<C>>, accepted: map<nat, Accepted<C>>, succeeded: seq<nat>)

  function Send<C>(log: Log<C>, r: Request<C>): Log<C> {
    log.(requests := log.requests + [r])
  }

  function MarkResolved<C>(log: Log<C>, i: nat): Log<C>
    requires i < |log.requests|
  {
    log.(requests := log.requests[i := log.requests[i].(resolved := true)])
  }

  function Accept<C>(log: Log<C>, i: nat, c: Challenge, content: C): Log<C> {
    log.(accepted := log.accepted[i := Accepted(c, log.now, content)])
  }

  function Report<C>(log: Log<C>, i: nat): Log<C> {
    log.(succeeded := log.succeeded + [i])
  }

  ghost predicate AcceptedSound<C>(log: Log<C>, i: nat) {
    i in log.accepted ==>
      && i < |log.requests| && log.requests[i].token.None? && log.requests[i].resolved
      && var a := log.accepted[i];
      && a.at <= log.now && a.at < a.challenge.expiresAt <= a.at + MAX_TTL_MS
      && 1 <= |a.challenge.token| <= MAX_TOKEN_LENGTH
  }

  /** `r`, when it carries a token, carries that of an accepted challenge of its preparation,
      before the challenge's expiry, with the content accepted with it and while that was shown. */
  ghost predicate Confirms<C>(log: Log<C>, r: Request<C>) {
    r.token.Some? ==>
      && r.preparation in log.accepted && AcceptedSound(log, r.preparation)
      && var a := log.accepted[r.preparation];
      && r.token.value == a.challenge.token
      && a.at <= r.sentAt < a.challenge.expiresAt
      && r.content == a.content && r.shown == Some(a.content)
  }

  /** Whether challenge `i` has been sent back. */
  ghost predicate Spent<C>(log: Log<C>, i: nat) {
    exists j :: 0 <= j < |log.requests| && log.requests[j].token.Some? && log.requests[j].preparation == i
  }

  /** No challenge is spent twice. */
  ghost predicate SpentOnce<C>(log: Log<C>) {
    forall i, j ::
      0 <= i < j < |log.requests| && log.requests[i].token.Some? && log.requests[j].token.Some? ==>
        log.requests[i].preparation != log.requests[j].preparation
  }

  ghost predicate LogSound<C>(log: Log<C>) {
    && (forall i: nat :: AcceptedSound(log, i))
    && (forall i :: 0 <= i < |log.requests| ==> Confirms(log, log.requests[i]))
    && (forall i :: 0 <= i < |log.requests| && log.requests[i].token.None? ==> log.requests[i].preparation == i)
    && SpentOnce(log)
  }

  lemma SendSound<C>(log: Log<C>, r: Request<C>)
    requires LogSound(log) && Confirms(log, r)
    requires if r.token.Some? then !Spent(log, r.preparation) else r.preparation == |log.requests|
    ensures LogSound(Send(log, r))
  {
    var log' := Send(log, r);
    assert forall i: nat :: AcceptedSound(log, i) ==> AcceptedSound(log', i);
    assert forall i :: 0 <= i < |log.requests| ==> log'.requests[i] == log.requests[i];
    assert forall i :: 0 <= i < |log.requests| && Confirms(log, log.requests[i]) ==> Confirms(log', log'.requests[i]);
  }

  lemma MarkSound<C>(log: Log<C>, i: nat)
    requires LogSound(log) && i < |log.requests|
    ensures LogSound(MarkResolved(log, i))
    ensures forall j: nat :: Spent(MarkResolved(log, i), j) ==> Spent(log, j)
  {
    var log' := MarkResolved(log, i);
    forall j: nat ensures AcceptedSound(log', j) {
      assert AcceptedSound(log, j);
    }
    forall j | 0 <= j < |log'.requests| ensures Confirms(log', log'.requests[j]) {
      assert Confirms(log, log.requests[j]);
    }
  }

  lemma AcceptSound<C>(log: Log<C>, i: nat, c: Challenge, content: C)
    requires LogSound(log) && i < |log.requests| && log.requests[i].token.None? && log.requests[i].resolved
    requires i !in log.accepted
    requires log.now < c.expiresAt <= log.now + MAX_TTL_MS && 1 <= |c.token| <= MAX_TOKEN_LENGTH
    ensures LogSound(Accept(log, i, c, content)) && !Spent(Accept(log, i, c, content), i)
  {
    var log' := Accept(log, i, c, content);
    forall j: nat ensures AcceptedSound(log', j) {
      assert AcceptedSound(log, j);
    }
    forall j | 0 <= j < |log'.requests| ensures Confirms(log', log'.requests[j]) {
      assert Confirms(log, log.requests[j]);
    }
  }

  /** Neither time nor reported successes bear on which requests were legitimate. */
  lemma SameRequestsSound<C>(log: Log<C>, log': Log<C>)
    requires LogSound(log) && log.now <= log'.now
    requires log'.requests == log.requests && log'.accepted == log.accepted
    ensures LogSound(log')
    ensures forall i: nat :: Spent(log', i) ==> Spent(log, i)
  {
    assert forall i: nat :: AcceptedSound(log, i) ==> AcceptedSound(log', i);
    assert forall i :: 0 <= i < |log.requests| && Confirms(log, log.requests[i]) ==> Confirms(log', log.requests[i]);
  }
}
