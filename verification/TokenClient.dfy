// The administration client's token cache and its single retry. Token holds
// the lock from the check of the cache until the token response has been
// stored; invalidate takes the same lock. Times are in seconds.

module TokenClient {
  import opened Wrappers

  // Served from the cache only with more time left than this.
  const MARGIN := 30
  // The HTTP client gives up on any request after this long.
  const HTTP_TIMEOUT := 30

  // A token response as issued: grants are numbered by the server.
  datatype Grant = Grant(serial: nat, issuedAt: int, lifetime: int)

  // A stored token and the expiry the client computed on receipt.
  datatype Held = Held(grant: Grant, expires: int)

  function Serve(held: Option<Held>, now: int): (r: Option<Grant>)
  {
    if held.Some? && held.value.expires - now > MARGIN then Some(held.value.grant) else None
  }

  function Receive(grant: Grant, now: int): (r: Held)
  {
    Held(grant, now + grant.lifetime)
  }

  // When a stored token is served: while more than thirty seconds of its
  // lifetime, counted from its arrival, are left.
  lemma ServedIff(grant: Grant, received: int, now: int)
    ensures Serve(None, now) == None
    ensures Serve(Some(Receive(grant, received)), now) ==
            if now + 30 < received + grant.lifetime then Some(grant) else None
  {
  }

  // The grant arrived after it was issued and within the timeout of a request
  // that preceded it.
  predicate Timely(held: Held)
  {
    var expiry := held.grant.issuedAt + held.grant.lifetime;
    expiry <= held.expires <= expiry + HTTP_TIMEOUT
  }

  // A token served from the cache has not expired on the server either.
  lemma ServedIsAlive(held: Held, now: int)
    requires Timely(held) && Serve(Some(held), now).Some?
    ensures now < held.grant.issuedAt + held.grant.lifetime
  {
  }

  // Conversely one that is alive on the server for longer than the margin is
  // served.
  lemma AliveIsServed(held: Held, now: int)
    requires Timely(held) && now + 30 < held.grant.issuedAt + held.grant.lifetime
    ensures Serve(Some(held), now) == Some(held.grant)
  {
  }

  // ------------------------------------------------------- One call alone

  datatype Answer = Succeeded | NotFound | Conflict | Unauthorized | OtherError

  // The reply to a request; decodes says whether its body, if one is wanted,
  // can be read.
  datatype Reply = NoReply | Reply(status: int, decodes: bool)

  function Classify(r: Reply): (a: Answer)
    ensures a.Unauthorized? <==> r.Reply? && r.status in {401, 403}
    ensures a.NotFound? <==> r.Reply? && r.status == 404
    ensures a.Conflict? <==> r.Reply? && r.status == 409
    ensures a.Succeeded? <==> r.Reply? && 200 <= r.status <= 299 && r.decodes
  {
    if r.NoReply? then OtherError
    else if 200 <= r.status < 300 then if r.decodes then Succeeded else OtherError
    else if r.status == 404 then NotFound
    else if r.status == 409 then Conflict
    else if Rejecting(r.status) then Unauthorized
    else OtherError
  }

  datatype TokenResult = Granted(grant: Grant) | Denied | Failed

  // The token endpoint's response, as in sections 5.1 and 5.2 of RFC 6749.
  datatype Body = Undecodable | Body(accessToken: string, expiresIn: int, error: string)
  datatype Response = NoResponse | Response(status: int, body: Body)

  predicate Rejecting(status: int)
  {
    status == 401 || status == 403
  }

  // A token came back.
  predicate Issues(r: Response)
  {
    r.Response? && r.status == 200 && r.body.Body? && r.body.accessToken != ""
  }

  // The credentials were refused, by status or by a response without a token.
  predicate Refuses(r: Response)
  {
    r.Response? && (Rejecting(r.status) || (r.status == 200 && r.body.Body? && r.body.accessToken == ""))
  }

  // What an attempt answers: without a token the failure to get one, otherwise
  // what the reply says.
  function Attempt(sent: bool, response: Response, reply: Reply): (r: Answer)
  {
    if sent then Classify(reply) else if Refuses(response) then Unauthorized else OtherError
  }

  class AdminClient {
    var held: Option<Held>
    // The number of tokens the server has issued.
    var issued: nat

    constructor ()
      ensures held == None && issued == 0
    {
      held, issued := None, 0;
    }

    // A cached token with time left, or a new one; received is the time its
    // response arrives. A failed refresh leaves the old token where it is.
    method Token(now: int, received: int, response: Response) returns (r: TokenResult)
      modifies this
      ensures Serve(old(held), now).Some? ==>
                r == Granted(Serve(old(held), now).value) && held == old(held) && issued == old(issued)
      ensures Serve(old(held), now).None? ==>
                && (r.Granted? <==> Issues(response))
                && (r.Denied? <==> Refuses(response))
      ensures Serve(old(held), now).None? && response.Response? ==>
                && (response.status in {401, 403} ==> r.Denied?)
                && (response.status !in {200, 401, 403} ==> r.Failed?)
                && (response.status == 200 && response.body.Body? ==>
                      if response.body.accessToken == "" then r.Denied? else r.Granted?)
      ensures Serve(old(held), now).None? && r.Granted? ==>
                && old(issued) <= r.grant.serial < issued && r.grant.lifetime == response.body.expiresIn
                && held == Some(Receive(r.grant, received))
                && (now <= received <= now + HTTP_TIMEOUT ==> Timely(held.value))
      ensures !r.Granted? ==> held == old(held)
      ensures issued >= old(issued)
    {
      var cached := Serve(held, now);
      if cached.Some? {
        return Granted(cached.value);
      }
      if response.NoResponse? {
        return Failed;
      }
      if Rejecting(response.status) {
        return Denied;
      }
      if response.status != 200 {
        return Failed;
      }
      if response.body.Undecodable? {
        return Failed;
      }
      if response.body.accessToken == "" {
        return Denied;
      }
      var grant := Grant(issued, now, response.body.expiresIn);
      issued := issued + 1;
      held := Some(Receive(grant, received));
      r := Granted(grant);
    }

    method Invalidate()
      modifies this`held
      ensures held == None
    {
      held := None;
    }

    // One attempt; sent is the token of the request, which is made exactly if
    // there is one.
    method DoOnce(now: int, received: int, response: Response, reply: Reply)
      returns (answer: Answer, sent: Option<Grant>)
      modifies this
      ensures sent.Some? <==> Serve(old(held), now).Some? || Issues(response)
      ensures answer == Attempt(sent.Some?, response, reply)
      ensures Serve(old(held), now).Some? ==> sent == Serve(old(held), now)
      ensures Serve(old(held), now).None? && sent.Some? ==> old(issued) <= sent.value.serial < issued
      ensures held.Some? ==> held == old(held) || old(issued) <= held.value.grant.serial < issued
      ensures issued >= old(issued)
    {
      var token := Token(now, received, response);
      if token.Denied? {
        return Unauthorized, None;
      }
      if token.Failed? {
        return OtherError, None;
      }
      answer := Classify(reply);
      sent := Some(token.grant);
    }

    // A request is repeated once, exactly after an authentication failure, with
    // a token granted after the rejected one was dropped, and then the second
    // attempt decides.
    method Do(now: int, received: int, response: Response, reply: Reply,
              later: int, receivedLater: int, responseLater: Response, replyLater: Reply)
      returns (answer: Answer, first: Option<Grant>, retried: bool, second: Option<Grant>)
      requires held.Some? ==> held.value.grant.serial < issued
      modifies this
      ensures held.Some? ==> held.value.grant.serial < issued
      ensures first.Some? <==> Serve(old(held), now).Some? || Issues(response)
      ensures Serve(old(held), now).Some? ==> first == Serve(old(held), now)
      ensures retried <==> Attempt(first.Some?, response, reply).Unauthorized?
      ensures !retried ==> answer == Attempt(first.Some?, response, reply) && second.None?
      ensures retried ==> (second.Some? <==> Issues(responseLater))
      ensures retried ==> answer == Attempt(second.Some?, responseLater, replyLater)
      ensures first.Some? && second.Some? ==> first.value.serial < second.value.serial
      ensures second.Some? ==> old(issued) <= second.value.serial < issued
    {
      retried, second := false, None;
      answer, first := DoOnce(now, received, response, reply);
      if !answer.Unauthorized? {
        return;
      }
      Invalidate();
      retried := true;
      answer, second := DoOnce(later, receivedLater, responseLater, replyLater);
    }
  }

  // ------------------------------------------------------ Concurrent calls

  // Where a call of Do stands. Holding, Asking and Issued hold the lock.
  datatype Phase =
    | Waiting
    | Holding
    | Asking(started: int)
    | Issued(started: int, grant: Grant)
    | Armed(grant: Grant)
    | Sent(grant: Grant)
    | Rejected
    | Over(answer: Answer)

  datatype Message = Message(attempt: nat, grant: Grant)
  datatype Hit = Hit(held: Held, at: int)
  datatype Verdict = Verdict(attempt: nat, answer: Answer)

  // sent: the requests made. mark: the number of grants at the invalidation,
  // once there was one. hits: tokens taken from the cache, with the time of the
  // check. verdicts: how the attempts ended.
  datatype Call = Call(phase: Phase, attempt: nat, sent: seq<Message>, authFailures: nat, mark: nat,
                       hits: seq<Hit>, verdicts: seq<Verdict>)

  datatype State = State(now: int, held: Option<Held>, lock: Option<nat>, issued: nat, calls: map<nat, Call>)

  datatype Step =
    | Tick(seconds: nat)
    | Begin(t: nat)
    | Acquire(t: nat)
    | Check(t: nat)
    | Issue(t: nat, lifetime: int)
    | TokenReply(t: nat, answer: Answer)
    | Request(t: nat)
    | Answered(t: nat, answer: Answer)
    | Invalidate(t: nat)

  function With(s: State, t: nat, c: Call): (r: State)
  {
    s.(calls := s.calls[t := c])
  }

  // The end of an attempt.
  function Ended(c: Call, answer: Answer): (r: Call)
  {
    var c' := c.(verdicts := c.verdicts + [Verdict(c.attempt, answer)]);
    if answer.Unauthorized? then c'.(phase := Rejected, authFailures := c.authFailures + 1)
    else c'.(phase := Over(answer))
  }

  // What a call does with its next step; steps that do not apply change nothing.
  function Advance(s: State, t: nat, c: Call, step: Step): (r: State)
  {
    if step.Acquire? && c.phase.Waiting? && s.lock.None? then
      With(s, t, c.(phase := Holding)).(lock := Some(t))
    else if step.Check? && c.phase.Holding? then
      var served := Serve(s.held, s.now);
      if served.Some?
      then With(s, t, c.(phase := Armed(served.value), hits := c.hits + [Hit(s.held.value, s.now)])).(lock := None)
      else With(s, t, c.(phase := Asking(s.now)))
    else if step.Issue? && c.phase.Asking? then
      var grant := Grant(s.issued, s.now, step.lifetime);
      With(s, t, c.(phase := Issued(c.phase.started, grant))).(issued := s.issued + 1)
    else if step.TokenReply? && c.phase.Asking? then
      With(s, t, Ended(c, if step.answer.Succeeded? then OtherError else step.answer)).(lock := None)
    else if step.TokenReply? && c.phase.Issued? then
      if step.answer.Succeeded? && s.now - c.phase.started <= HTTP_TIMEOUT
      then With(s, t, c.(phase := Armed(c.phase.grant))).(held := Some(Receive(c.phase.grant, s.now)), lock := None)
      else With(s, t, Ended(c, OtherError)).(lock := None)
    else if step.Request? && c.phase.Armed? then
      With(s, t, c.(phase := Sent(c.phase.grant), sent := c.sent + [Message(c.attempt, c.phase.grant)]))
    else if step.Answered? && c.phase.Sent? then
      With(s, t, Ended(c, step.answer))
    else if step.Invalidate? && c.phase.Rejected? then
      if c.attempt == 1 then
        if s.lock.None? then With(s, t, c.(phase := Waiting, attempt := 2, mark := s.issued)).(held := None) else s
      else With(s, t, c.(phase := Over(Unauthorized)))
    else s
  }

  function Next(s: State, step: Step): (r: State)
  {
    if step.Tick? then s.(now := s.now + step.seconds)
    else if step.Begin? then
      if step.t in s.calls then s else With(s, step.t, Call(Waiting, 1, [], 0, 0, [], []))
    else if step.t in s.calls then Advance(s, step.t, s.calls[step.t], step)
    else s
  }

  function Run(s: State, steps: seq<Step>): (r: State)
  {
    if steps == [] then s else Next(Run(s, steps[..|steps| - 1]), steps[|steps| - 1])
  }

  function Start(now: int): (r: State)
  {
    State(now, None, None, 0, map[])
  }

  // ------------------------------------------------------------- Invariant

  predicate Locks(p: Phase)
  {
    p.Holding? || p.Asking? || p.Issued?
  }

  // The lock is held by the one call inside Token.
  ghost predicate Exclusive(s: State)
  {
    forall t :: t in s.calls && Locks(s.calls[t].phase) ==> s.lock == Some(t)
  }

  // Still to send the request of the current attempt.
  predicate Unsent(p: Phase)
  {
    p.Waiting? || Locks(p) || p.Armed?
  }

  // One request an attempt; the second attempt follows a failure.
  predicate Counted(c: Call)
  {
    && 1 <= c.attempt <= 2 && (c.attempt == 2 ==> c.authFailures >= 1)
    && (c.phase.Rejected? ==> c.authFailures >= 1)
    && (forall m :: m in c.sent ==> 1 <= m.attempt <= c.attempt && (Unsent(c.phase) ==> m.attempt < c.attempt))
    && (forall i, j :: 0 <= i < j < |c.sent| ==> c.sent[i].attempt < c.sent[j].attempt)
  }

  // Every attempt that ended left one verdict; all but the last were
  // authentication failures, and so was the last one unless the call is over.
  predicate Judged(c: Call)
  {
    && |c.verdicts| == (if c.phase.Rejected? || c.phase.Over? then c.attempt else c.attempt - 1)
    && (forall i :: 0 <= i < |c.verdicts| ==> c.verdicts[i].attempt == i + 1)
    && (forall i :: 0 <= i < |c.verdicts| && (i < |c.verdicts| - 1 || !c.phase.Over?) ==>
          c.verdicts[i].answer.Unauthorized?)
    && (c.phase.Sent? ==> Message(c.attempt, c.phase.grant) in c.sent)
    && (forall v :: v in c.verdicts && v.answer.Succeeded? ==> exists m :: m in c.sent && m.attempt == v.attempt)
    && (c.phase.Over? ==>
          && c.verdicts != [] && c.verdicts[|c.verdicts| - 1].answer == c.phase.answer
          && (c.phase.answer.Unauthorized? ==> c.attempt == 2))
  }

  // A token obtained in the current attempt: in the second, granted after the
  // mark.
  predicate Recent(c: Call, issued: nat, g: Grant)
  {
    g.serial < issued && (c.attempt == 2 ==> c.mark <= g.serial)
  }

  // Tokens of the first attempt precede the mark.
  predicate Dated(c: Call, issued: nat)
  {
    && (c.attempt == 2 ==> c.mark <= issued)
    && (c.phase.Issued? || c.phase.Armed? || c.phase.Sent? ==> Recent(c, issued, c.phase.grant))
    && (forall m :: m in c.sent ==>
          if m.attempt == c.attempt then Recent(c, issued, m.grant) else m.grant.serial < c.mark)
  }

  predicate Clocked(c: Call, now: int)
  {
    && (c.phase.Asking? ==> c.phase.started <= now)
    && (c.phase.Issued? ==> c.phase.started <= c.phase.grant.issuedAt <= now)
    && (forall h :: h in c.hits ==> Timely(h.held) && h.held.expires - h.at > MARGIN)
  }

  predicate Good(s: State, c: Call)
  {
    && Counted(c) && Judged(c) && Dated(c, s.issued) && Clocked(c, s.now)
    && (c.attempt == 2 && s.held.Some? ==> c.mark <= s.held.value.grant.serial)
  }

  // A grant on its way was issued after every invalidation so far.
  ghost predicate PendingRecent(s: State)
  {
    forall t, u :: t in s.calls && u in s.calls && s.calls[t].attempt == 2 && s.calls[u].phase.Issued? ==>
      s.calls[t].mark <= s.calls[u].phase.grant.serial
  }

  predicate HeldOk(s: State)
  {
    s.held.Some? ==> s.held.value.grant.serial < s.issued && Timely(s.held.value)
  }

  ghost predicate Invariant(s: State)
  {
    && Exclusive(s) && PendingRecent(s) && HeldOk(s)
    && forall t :: t in s.calls ==> Good(s, s.calls[t])
  }

  lemma AdvanceCounted(s: State, t: nat, c: Call, step: Step)
    requires t in s.calls && c == s.calls[t] && Counted(c)
    ensures var s' := Advance(s, t, c, step); t in s'.calls && Counted(s'.calls[t])
  {
    hide Serve, Receive;
  }

  lemma EndedJudged(c: Call, answer: Answer)
    requires Counted(c) && Judged(c) && !c.phase.Rejected? && !c.phase.Over?
    requires answer.Succeeded? ==> c.phase.Sent?
    ensures Judged(Ended(c, answer))
  {
    var c' := Ended(c, answer);
    forall v | v in c'.verdicts && v.answer.Succeeded?
      ensures exists m :: m in c'.sent && m.attempt == v.attempt
    {
      if v !in c.verdicts {
        assert Message(c.attempt, c.phase.grant) in c'.sent;
      }
    }
  }

  lemma AdvanceJudged(s: State, t: nat, c: Call, step: Step)
    requires t in s.calls && c == s.calls[t] && Counted(c) && Judged(c)
    ensures var s' := Advance(s, t, c, step); t in s'.calls && Judged(s'.calls[t])
  {
    if step.Answered? && c.phase.Sent? {
      EndedJudged(c, step.answer);
    } else if step.TokenReply? && Locks(c.phase) {
      EndedJudged(c, OtherError);
      EndedJudged(c, if step.answer.Succeeded? then OtherError else step.answer);
    }
    hide Serve, Receive, Ended, Counted;
    var c' := Advance(s, t, c, step).calls[t];
    if step.Request? && c.phase.Armed? {
      assert forall m :: m in c.sent ==> m in c'.sent;
    }
  }

  lemma AdvanceDated(s: State, t: nat, c: Call, step: Step)
    requires t in s.calls && c == s.calls[t] && Good(s, c) && HeldOk(s)
    ensures var s' := Advance(s, t, c, step); t in s'.calls && Dated(s'.calls[t], s'.issued)
  {
    hide Receive, Clocked, Timely;
  }

  lemma AdvanceClocked(s: State, t: nat, c: Call, step: Step)
    requires t in s.calls && c == s.calls[t] && Clocked(c, s.now) && HeldOk(s)
    ensures var s' := Advance(s, t, c, step); t in s'.calls && Clocked(s'.calls[t], s'.now)
  {
    hide Receive, Timely;
  }

  // What a step of one call does to the rest.
  lemma AdvanceFrame(s: State, t: nat, c: Call, step: Step)
    requires t in s.calls && c == s.calls[t]
    ensures var s' := Advance(s, t, c, step);
            && s'.now == s.now && s.issued <= s'.issued && s'.calls.Keys == s.calls.Keys
            && (forall u :: u in s.calls && u != t ==> s'.calls[u] == s.calls[u])
            && (s'.held == s.held || s'.held.None? || (c.phase.Issued? && s'.held.value.grant == c.phase.grant))
  {
    hide Serve;
  }

  // The grant a call holds pending, or the one it gets issued now.
  lemma AdvanceIssues(s: State, t: nat, c: Call, step: Step)
    requires t in s.calls && c == s.calls[t]
    ensures var s' := Advance(s, t, c, step); var c' := s'.calls[t];
            && ((c'.attempt == c.attempt && c'.mark == c.mark)
                || (c'.attempt == 2 && c'.mark == s.issued && s.lock.None? && s'.held.None? && !c'.phase.Issued?))
            && (c'.phase.Issued? ==> c'.phase == c.phase || c'.phase.grant.serial == s.issued)
  {
    hide Serve;
  }

  lemma AdvanceLocks(s: State, t: nat, c: Call, step: Step)
    requires t in s.calls && c == s.calls[t] && Exclusive(s)
    ensures Exclusive(Advance(s, t, c, step))
  {
    hide Serve, Receive;
  }

  lemma AdvanceHeld(s: State, t: nat, c: Call, step: Step)
    requires t in s.calls && c == s.calls[t] && Clocked(c, s.now) && Dated(c, s.issued) && HeldOk(s)
    ensures HeldOk(Advance(s, t, c, step))
  {
    hide Serve;
  }

  lemma AdvancePending(s: State, t: nat, c: Call, step: Step)
    requires t in s.calls && c == s.calls[t] && Invariant(s)
    ensures PendingRecent(Advance(s, t, c, step))
  {
    hide Advance, Counted, Judged, Clocked, Recent, Timely;
    AdvanceFrame(s, t, c, step);
    AdvanceIssues(s, t, c, step);
    var s' := Advance(s, t, c, step);
    assert forall u :: u in s.calls && s.calls[u].attempt == 2 ==> s.calls[u].mark <= s.issued;
    assert s.lock.None? ==> forall u :: u in s.calls ==> !s.calls[u].phase.Issued?;
    hide Good, Dated, Exclusive, HeldOk, Locks;
  }

  lemma AdvanceKeeps(s: State, t: nat, c: Call, step: Step)
    requires t in s.calls && c == s.calls[t] && Invariant(s)
    ensures Invariant(Advance(s, t, c, step))
  {
    hide Advance, Counted, Judged, Clocked, Timely;
    var s' := Advance(s, t, c, step);
    AdvanceFrame(s, t, c, step);
    AdvanceIssues(s, t, c, step);
    AdvanceCounted(s, t, c, step);
    AdvanceJudged(s, t, c, step);
    AdvanceDated(s, t, c, step);
    AdvanceClocked(s, t, c, step);
    AdvanceLocks(s, t, c, step);
    AdvanceHeld(s, t, c, step);
    AdvancePending(s, t, c, step);
    forall u | u in s'.calls
      ensures Good(s', s'.calls[u])
    {
      assert Good(s, s.calls[u]);
    }
  }

  lemma TickKeeps(s: State, seconds: nat)
    requires Invariant(s)
    ensures Invariant(s.(now := s.now + seconds))
  {
    hide Counted, Judged, Dated, Timely;
    var s' := s.(now := s.now + seconds);
    forall u | u in s'.calls
      ensures Good(s', s'.calls[u])
    {
      assert Good(s, s.calls[u]);
    }
  }

  lemma BeginKeeps(s: State, t: nat)
    requires Invariant(s) && t !in s.calls
    ensures Invariant(With(s, t, Call(Waiting, 1, [], 0, 0, [], [])))
  {
    var c := Call(Waiting, 1, [], 0, 0, [], []);
    var s' := With(s, t, c);
    assert Good(s', c);
    hide Counted, Judged, Dated, Clocked, Timely;
    assert PendingRecent(s');
    forall u | u in s'.calls
      ensures Good(s', s'.calls[u])
    {
      assert u != t ==> Good(s, s.calls[u]);
    }
  }

  lemma NextKeeps(s: State, step: Step)
    requires Invariant(s)
    ensures Invariant(Next(s, step))
  {
    hide Advance, Invariant;
    if step.Tick? {
      TickKeeps(s, step.seconds);
    } else if step.Begin? {
      if step.t !in s.calls {
        BeginKeeps(s, step.t);
      }
    } else if step.t in s.calls {
      AdvanceKeeps(s, step.t, s.calls[step.t], step);
    }
  }

  lemma {:induction false} RunKeeps(now: int, steps: seq<Step>)
    ensures Invariant(Run(Start(now), steps))
  {
    hide Next;
    if steps != [] {
      RunKeeps(now, steps[..|steps| - 1]);
      NextKeeps(Run(Start(now), steps[..|steps| - 1]), steps[|steps| - 1]);
    }
  }

  lemma AtMostTwo(c: Call)
    requires Counted(c)
    ensures |c.sent| <= 2
  {
    if c.sent != [] {
      Rising(c, |c.sent| - 1);
    }
  }

  lemma {:induction false} Rising(c: Call, i: nat)
    requires Counted(c) && i < |c.sent|
    ensures i + 1 <= c.sent[i].attempt <= 2
  {
    assert c.sent[i] in c.sent;
    if i > 0 {
      Rising(c, i - 1);
    }
  }

  // In every interleaving: at most two requests, the second only after an
  // authentication failure, and with a token granted after the first one's was
  // dropped.
  lemma RetryOnce(now: int, steps: seq<Step>, t: nat)
    requires t in Run(Start(now), steps).calls
    ensures var c := Run(Start(now), steps).calls[t];
            && |c.sent| <= 2
            && (|c.sent| == 2 ==>
                  && c.authFailures >= 1
                  && c.sent[0].grant.serial < c.mark <= c.sent[1].grant.serial
                  && c.sent[0].grant != c.sent[1].grant)
            && (forall m :: m in c.sent && m.attempt == 2 ==> c.mark <= m.grant.serial)
  {
    var s := Run(Start(now), steps);
    RunKeeps(now, steps);
    hide Run;
    var c := s.calls[t];
    assert Good(s, c);
    AtMostTwo(c);
    if |c.sent| == 2 {
      assert c.sent[0] in c.sent && c.sent[1] in c.sent;
    }
  }

  // In every interleaving a call that is over answers what its last attempt
  // ended with, it made a second attempt exactly if the first failed to
  // authenticate, and it succeeds only with a request in that last attempt.
  lemma LastAttemptDecides(now: int, steps: seq<Step>, t: nat)
    requires t in Run(Start(now), steps).calls && Run(Start(now), steps).calls[t].phase.Over?
    ensures var c := Run(Start(now), steps).calls[t];
            && 1 <= |c.verdicts| <= 2 && c.verdicts[|c.verdicts| - 1] == Verdict(c.attempt, c.phase.answer)
            && (|c.verdicts| == 2 <==> c.verdicts[0].answer.Unauthorized?)
            && (c.phase.answer.Succeeded? ==> exists m :: m in c.sent && m.attempt == c.attempt)
  {
    var s := Run(Start(now), steps);
    RunKeeps(now, steps);
    hide Run;
    assert Good(s, s.calls[t]);
    assert s.calls[t].verdicts[|s.calls[t].verdicts| - 1] in s.calls[t].verdicts;
  }

  // What a call inside Token does with the cache: it takes the stored token if
  // more than thirty seconds are left of it, and asks for a new one otherwise.
  lemma CheckServesIff(s: State, t: nat)
    requires t in s.calls && s.calls[t].phase.Holding?
    ensures var c' := Next(s, Check(t)).calls[t];
            if s.held.Some? && s.now + 30 < s.held.value.expires then c'.phase == Armed(s.held.value.grant)
            else c'.phase == Asking(s.now)
  {
  }

  // A token request that fails ends the attempt with that failure.
  lemma TokenFailureDecides(s: State, t: nat, answer: Answer)
    requires t in s.calls && s.calls[t].phase.Asking? && !answer.Succeeded?
    ensures var c, c' := s.calls[t], Next(s, TokenReply(t, answer)).calls[t];
            && c'.phase == (if answer.Unauthorized? then Rejected else Over(answer))
            && c'.verdicts == c.verdicts + [Verdict(c.attempt, answer)] && c'.sent == c.sent
  {
  }

  // In every interleaving, a token served from the cache had more than thirty
  // seconds left by the client's clock and was still alive on the server.
  lemma CacheHitsAreAlive(now: int, steps: seq<Step>, t: nat, h: Hit)
    requires t in Run(Start(now), steps).calls && h in Run(Start(now), steps).calls[t].hits
    ensures h.held.expires - h.at > MARGIN
    ensures h.at < h.held.grant.issuedAt + h.held.grant.lifetime
  {
    RunKeeps(now, steps);
    assert Good(Run(Start(now), steps), Run(Start(now), steps).calls[t]);
    ServedIsAlive(h.held, h.at);
  }

  // The lock is never held by two calls.
  lemma OneInside(now: int, steps: seq<Step>, t: nat, u: nat)
    requires t in Run(Start(now), steps).calls && u in Run(Start(now), steps).calls
    requires Locks(Run(Start(now), steps).calls[t].phase) && Locks(Run(Start(now), steps).calls[u].phase)
    ensures t == u
  {
    RunKeeps(now, steps);
  }

  // ------------------------------------------------------------------ Runs

  lemma RunMore(s: State, steps: seq<Step>, step: Step)
    ensures Run(s, steps + [step]) == Next(Run(s, steps), step)
  {
    assert (steps + [step])[..|steps|] == steps;
  }

  // A call gets a token of its own.
  function Obtaining(t: nat, lifetime: int): (r: seq<Step>)
  {
    [] + [Begin(t)] + [Acquire(t)] + [Check(t)] + [Issue(t, lifetime)] + [TokenReply(t, Succeeded)]
  }

  // A call finds the token of another.
  function Finding(t: nat): (r: seq<Step>)
  {
    [] + [Begin(t)] + [Acquire(t)] + [Check(t)]
  }

  // A call with a token sends its request and gets an answer.
  function Sending(t: nat, answer: Answer): (r: seq<Step>)
  {
    [] + [Request(t)] + [Answered(t, answer)]
  }

  const NEW_CALL := Call(Waiting, 1, [], 0, 0, [], [])

  // Where nothing is held or locked, a call stores and uses a new grant, which
  // expires with its lifetime from its arrival.
  lemma ObtainingRun(s: State, t: nat, lifetime: int)
    requires s.held.None? && s.lock.None? && t !in s.calls
    ensures var grant := Grant(s.issued, s.now, lifetime);
            Run(s, Obtaining(t, lifetime)) ==
            With(s, t, NEW_CALL.(phase := Armed(grant))).(held := Some(Held(grant, s.now + lifetime)),
              issued := s.issued + 1)
  {
    var grant := Grant(s.issued, s.now, lifetime);
    var s1 := With(s, t, NEW_CALL);
    var s2 := With(s1, t, NEW_CALL.(phase := Holding)).(lock := Some(t));
    var s3 := With(s2, t, NEW_CALL.(phase := Asking(s.now)));
    var s4 := With(s3, t, NEW_CALL.(phase := Issued(s.now, grant))).(issued := s.issued + 1);
    var s5 := With(s4, t, NEW_CALL.(phase := Armed(grant))).(held := Some(Held(grant, s.now + lifetime)), lock := None);
    assert Next(s, Begin(t)) == s1 && Next(s1, Acquire(t)) == s2 && Next(s2, Check(t)) == s3;
    assert Next(s3, Issue(t, lifetime)) == s4 && Next(s4, TokenReply(t, Succeeded)) == s5;
    assert s5 == With(s, t, NEW_CALL.(phase := Armed(grant))).(held := Some(Held(grant, s.now + lifetime)),
      issued := s.issued + 1);
    hide Next, With;
    RunMore(s, [], Begin(t));
    RunMore(s, [] + [Begin(t)], Acquire(t));
    RunMore(s, [] + [Begin(t)] + [Acquire(t)], Check(t));
    RunMore(s, [] + [Begin(t)] + [Acquire(t)] + [Check(t)], Issue(t, lifetime));
    RunMore(s, [] + [Begin(t)] + [Acquire(t)] + [Check(t)] + [Issue(t, lifetime)], TokenReply(t, Succeeded));
    assert Run(s, []) == s;
    hide Run;
  }

  // While more than thirty seconds are left of the stored token, the next call
  // takes it: one grant serves both.
  lemma FindingRun(s: State, t: nat)
    requires s.held.Some? && s.lock.None? && t !in s.calls && s.now + 30 < s.held.value.expires
    ensures Run(s, Finding(t)) ==
            With(s, t, NEW_CALL.(phase := Armed(s.held.value.grant), hits := [Hit(s.held.value, s.now)]))
  {
    var s1 := With(s, t, NEW_CALL);
    var s2 := With(s1, t, NEW_CALL.(phase := Holding)).(lock := Some(t));
    var s3 := With(s, t, NEW_CALL.(phase := Armed(s.held.value.grant), hits := [Hit(s.held.value, s.now)]));
    assert Next(s, Begin(t)) == s1 && Next(s1, Acquire(t)) == s2;
    assert s2.calls[t := s3.calls[t]] == s3.calls && s3.calls[t].hits == [] + [Hit(s.held.value, s.now)];
    assert Next(s2, Check(t)) == s3;
    hide Next, With;
    RunMore(s, [], Begin(t));
    RunMore(s, [] + [Begin(t)], Acquire(t));
    RunMore(s, [] + [Begin(t)] + [Acquire(t)], Check(t));
    assert Run(s, []) == s;
    hide Run;
  }

  // A call with a token sends it and is over with the answer it gets, unless
  // that is an authentication failure.
  lemma SendingRun(s: State, t: nat, answer: Answer)
    requires t in s.calls && s.calls[t].phase.Armed?
    ensures t in Run(s, Sending(t, answer)).calls
    ensures var c, c' := s.calls[t], Run(s, Sending(t, answer)).calls[t];
            && c'.sent == c.sent + [Message(c.attempt, c.phase.grant)]
            && c'.phase == (if answer.Unauthorized? then Rejected else Over(answer))
  {
    RunMore(s, [], Request(t));
    RunMore(s, [] + [Request(t)], Answered(t, answer));
    assert Run(s, []) == s;
    hide Run;
  }
}
