/**
  The guards that renew a session and hand the new cookies to the browser: the route wrappers of
  brain-landing/lib/server-auth.ts and the page guard of brain-landing/middleware.ts, driven by a
  browser that sends one request at a time.
 */
module SessionRenewal {
  import opened Collections
  import opened TokenRefresh

  datatype Cookies = Cookies(access: Option<nat>, refresh: Option<Token>)

  /** A provider that did not rotate leaves the old refresh cookie standing. */
  function WithTokens(c: Cookies, tokens: RefreshedTokens): Cookies {
    Cookies(Some(tokens.access), if tokens.refresh.Some? then tokens.refresh else c.refresh)
  }

  class CookieJar {
    var access: Option<nat>
    var refresh: Option<Token>

    function Contents(): Cookies
      reads this
    {
      Cookies(access, refresh)
    }

    /** On a response jar. */
    method SetSessionCookies(tokens: RefreshedTokens)
      modifies this
      ensures Contents() == WithTokens(old(Contents()), tokens)
    {
      access := Some(tokens.access);
      if tokens.refresh.Some? {
        refresh := tokens.refresh;
      }
    }

    /** On a request jar, once the exchange it awaited has answered `exchanged`. */
    method RenewSession(exchanged: Option<RefreshedTokens>) returns (renewed: Option<RefreshedTokens>)
      modifies this
      ensures renewed == if old(refresh).None? then None else exchanged
      ensures Contents() == if renewed.Some? then WithTokens(old(Contents()), renewed.value) else old(Contents())
    {
      if refresh.None? || exchanged.None? {
        return None;
      }
      SetSessionCookies(exchanged.value);
      return exchanged;
    }
  }

  // ---- the guards ---------------------------------------------------------------------------

  datatype Guard = WithSession | WithUser | WithAdmin | EdgeApp | EdgeAdmin
  {
    predicate Edge() { EdgeApp? || EdgeAdmin? }
    predicate AdminOnly() { WithAdmin? || EdgeAdmin? }
  }

  /** What verifying a token says. */
  datatype Claims = Claims(valid: bool, admin: bool)

  /** One request of the browser: when it comes, where it goes, what verifying its own token and
      a renewed one says, and how the provider and the network treat an exchange it causes. */
  datatype Ask = Ask(pause: nat, guard: Guard, bearer: bool, current: Claims, renewed: Claims,
                     verdict: Verdict, lag: nat, heard: bool)

  datatype Outcome = Ran(session: bool) | Unauthorized | Login

  datatype Answer = Answer(outcome: Outcome, setCookies: Option<RefreshedTokens>)

  /** The request gets as far as presenting its refresh cookie. */
  predicate Renews(ask: Ask, jar: Cookies) {
    !ask.current.valid && (ask.guard.Edge() || !ask.bearer) && jar.refresh.Some?
  }

  function VerifiedSession(ask: Ask, jar: Cookies, exchanged: Option<RefreshedTokens>)
    : Option<(Claims, Option<RefreshedTokens>)>
  {
    if ask.current.valid then Some((ask.current, None))
    else if ask.bearer then None
    else if jar.refresh.None? || exchanged.None? then None
    else if ask.renewed.valid then Some((ask.renewed, exchanged))
    else None
  }

  /** The answer to a request; `exchanged` is what its refresh cookie was answered with. */
  function Respond(ask: Ask, jar: Cookies, exchanged: Option<RefreshedTokens>): Answer {
    if ask.guard.Edge() then
      if ask.current.valid then
        if ask.guard.EdgeAdmin? && !ask.current.admin then Answer(Login, None) else Answer(Ran(true), None)
      else if jar.refresh.None? || exchanged.None? then Answer(Login, None)
      else if !ask.renewed.valid || (ask.guard.EdgeAdmin? && !ask.renewed.admin) then Answer(Login, None)
      else Answer(Ran(true), exchanged)
    else
      match VerifiedSession(ask, jar, exchanged)
      case None => if ask.guard.WithSession? then Answer(Ran(false), None) else Answer(Unauthorized, None)
      case Some((claims, renewed)) =>
        if ask.guard.WithAdmin? && !claims.admin then Answer(Unauthorized, None)
        else Answer(Ran(true), renewed)
  }

  predicate Passes(ask: Ask) {
    ask.renewed.valid && (ask.guard.AdminOnly() ==> ask.renewed.admin)
  }

  /** New cookies leave the server exactly when an exchange came to something and the renewed
      token passes the guard. */
  lemma CookiesExactlyWhen(ask: Ask, jar: Cookies, exchanged: Option<RefreshedTokens>)
    ensures Respond(ask, jar, exchanged).setCookies
         == if Renews(ask, jar) && Passes(ask) then exchanged else None
  {
  }

  /** Who gets through: a request whose own token is valid, or else one that is not a bearer call to
      a wrapper and whose refresh cookie was answered with a valid token; the token that counts must
      be an admin's where the guard is for admins. Everyone else is sent to log in at the edge,
      runs without a session under `withSession`, and is unauthorized otherwise. */
  lemma RunsExactlyWhen(ask: Ask, jar: Cookies, exchanged: Option<RefreshedTokens>)
    ensures var edge, admins := ask.guard in {EdgeApp, EdgeAdmin}, ask.guard in {WithAdmin, EdgeAdmin};
      var own := ask.current.valid && (admins ==> ask.current.admin);
      var anew := !ask.current.valid && (ask.bearer ==> edge) && jar.refresh.Some? && exchanged.Some?
        && ask.renewed.valid && (admins ==> ask.renewed.admin);
      && (Respond(ask, jar, exchanged).outcome == Ran(true) <==> own || anew)
      && (Respond(ask, jar, exchanged).outcome == Login <==> edge && !own && !anew)
      && (Respond(ask, jar, exchanged).outcome == Ran(false) <==> ask.guard == WithSession && !own && !anew)
      && (Respond(ask, jar, exchanged).outcome == Unauthorized
        <==> ask.guard in {WithUser, WithAdmin} && !own && !anew)
  {
  }

  /** The cookies of a browser whose renewal ran to its end, by what the provider answered: the new
      access token, and the new refresh token if there is one; both as they were otherwise. */
  lemma CookiesAfter(jar: Cookies, ask: Ask, f: Flight)
    requires f.stage.Settled? && Renews(ask, jar)
    ensures var sent := Respond(ask, jar, f.Result()).setCookies;
      var after := if sent.Some? then WithTokens(jar, sent.value) else jar;
      if !f.stage.heard || f.stage.reply.Refused? || !Passes(ask) then after == jar
      else
        && after.access == Some(f.stage.reply.access)
        && after.refresh == if f.stage.reply.Rotated? then Some(f.stage.reply.next) else jar.refresh
  {
    CookiesExactlyWhen(ask, jar, f.Result());
  }

  // ---- one browser, one request at a time ---------------------------------------------------

  datatype Client = Client(system: System, jar: Cookies)

  ghost predicate AllSettled(s: System) {
    forall i :: 0 <= i < |s.flights| ==> s.flights[i].stage.Settled?
  }

  /** A request for `t` runs to the end of the exchange it awaits: the state then, and the answer. */
  function Renew(s: System, t: Token, ask: Ask): (System, Option<RefreshedTokens>)
    requires MemoryPoints(s) && AllSettled(s)
  {
    var asked := Next(s, Present(t));
    if t in Swept(s.memory, s.now) then
      (asked, asked.flights[s.memory[t].flight].Result())
    else
      var f := |s.flights|;
      var handled := Next(Next(asked, Process(f, ask.verdict)), Tick(ask.lag));
      var settled := Next(handled, Settle(f, ask.heard));
      (settled, settled.flights[f].Result())
  }

  function Serve(c: Client, ask: Ask): Client
    requires MemoryPoints(c.system) && AllSettled(c.system)
  {
    var s := Next(c.system, Tick(ask.pause));
    if !Renews(ask, c.jar) then c.(system := s)
    else
      var (after, tokens) := Renew(s, c.jar.refresh.value, ask);
      var answer := Respond(ask, c.jar, tokens);
      Client(after, if answer.setCookies.Some? then WithTokens(c.jar, answer.setCookies.value) else c.jar)
  }

  /** Between two requests of this browser. */
  ghost predicate Idle(c: Client) {
    Inv(c.system) && AllSettled(c.system)
  }

  ghost predicate InFamily(p: Provider, f: nat, t: Token) {
    t in p.family && p.family[t] == f
  }

  /** `t` is the one token of its family that still works. */
  ghost predicate Live(p: Provider, t: Token) {
    && t in p.family && p.family[t] !in p.revoked && t !in p.rotated
    && (forall u :: InFamily(p, p.family[t], u) && u != t ==> u in p.rotated)
  }

  ghost predicate HoldsLiveToken(c: Client) {
    c.jar.refresh.Some? && Live(c.system.provider, c.jar.refresh.value)
  }

  /** The request makes the provider rotate, and the new cookies do not reach the browser: the
      renewed token fails the guard, or the provider's answer was lost. */
  ghost predicate Drops(c: Client, ask: Ask) {
    && Renews(ask, c.jar)
    && c.jar.refresh.value !in Swept(c.system.memory, c.system.now + ask.pause)
    && ask.verdict.Rotate?
    && !(ask.heard && Passes(ask))
  }

  /** What one exchange of a live token does at the provider. */
  lemma LiveExchange(p: Provider, t: Token, v: Verdict)
    requires Live(p, t) && (forall u :: u in p.family ==> u < p.mint) && p.rotated <= p.family.Keys
    ensures v.Rotate? ==> Exchange(p, t, v).1 == Rotated(p.mint, p.mint + 1)
    ensures v.Rotate? ==> Live(Exchange(p, t, v).0, p.mint + 1) && !Live(Exchange(p, t, v).0, t)
    ensures !v.Rotate? ==> Live(Exchange(p, t, v).0, t) && !Exchange(p, t, v).1.Rotated?
  {
    var q := Exchange(p, t, v).0;
    assert forall u :: InFamily(q, p.family[t], u) ==> InFamily(p, p.family[t], u) || u == p.mint + 1;
  }

  /** A live cookie either joins a remembered exchange that did not rotate it ... */
  lemma Joined(s: System, t: Token, ask: Ask)
    requires Inv(s) && AllSettled(s) && Live(s.provider, t) && t in Swept(s.memory, s.now)
    ensures var (n, tokens) := Renew(s, t, ask);
      && Inv(n) && AllSettled(n) && n.provider == s.provider
      && (tokens.Some? ==> tokens.value.refresh.None?)
  {
    PresentKeeps(s, t);
    assert !s.flights[s.memory[t].flight].HasRotated();
  }

  /** ... or starts one of its own: first the exchange is on its way ... */
  lemma StartedSends(s: System, t: Token)
    requires Inv(s) && AllSettled(s) && t !in s.provider.rotated && t !in Swept(s.memory, s.now)
    ensures var n := Next(s, Present(t));
      && Inv(n) && n.provider == s.provider && n.now == s.now
      && n.flights == s.flights + [Flight(t, s.now, Sent)]
  {
    PresentKeeps(s, t);
  }

  /** ... then it is handled and comes back. */
  lemma StartedSettles(n: System, f: nat, ask: Ask)
    requires Inv(n) && |n.flights| == f + 1 && n.flights[f].stage.Sent?
    requires forall i :: 0 <= i < f ==> n.flights[i].stage.Settled?
    ensures var handled := Next(Next(n, Process(f, ask.verdict)), Tick(ask.lag));
      var settled := Next(handled, Settle(f, ask.heard));
      var (p, reply) := Exchange(n.provider, n.flights[f].token, ask.verdict);
      && Inv(settled) && AllSettled(settled) && settled.provider == p && settled.now == n.now + ask.lag
      && settled.flights == n.flights[f := n.flights[f].(stage := Settled(reply, ask.heard))]
  {
    ProcessKeeps(n, f, ask.verdict);
    var a := Next(n, Process(f, ask.verdict));
    TickKeeps(a, ask.lag);
    var b := Next(a, Tick(ask.lag));
    SettleKeeps(b, f, ask.heard);
  }

  lemma Started(s: System, t: Token, ask: Ask)
    requires Inv(s) && AllSettled(s) && Live(s.provider, t) && t !in Swept(s.memory, s.now)
    ensures var (n, tokens) := Renew(s, t, ask); var (p, reply) := Exchange(s.provider, t, ask.verdict);
      && Inv(n) && AllSettled(n) && n.provider == p
      && n.flights == s.flights + [Flight(t, s.now, Settled(reply, ask.heard))] && n.now == s.now + ask.lag
      && tokens == Flight(t, s.now, Settled(reply, ask.heard)).Result()
  {
    StartedSends(s, t);
    StartedSettles(Next(s, Present(t)), |s.flights|, ask);
  }

  /** The refresh cookie after a request that renews. */
  lemma ServeIs(c: Client, ask: Ask)
    requires MemoryPoints(c.system) && AllSettled(c.system) && Renews(ask, c.jar)
    ensures var s := Next(c.system, Tick(ask.pause));
      var (after, tokens) := Renew(s, c.jar.refresh.value, ask);
      && Serve(c, ask).system == after
      && Serve(c, ask).jar.refresh
        == if Passes(ask) && tokens.Some? && tokens.value.refresh.Some? then tokens.value.refresh else c.jar.refresh
  {
    CookiesExactlyWhen(ask, c.jar, Renew(Next(c.system, Tick(ask.pause)), c.jar.refresh.value, ask).1);
  }

  /** A request that renews, when it joins a remembered exchange ... */
  lemma ServeJoined(c: Client, ask: Ask)
    requires Idle(c) && HoldsLiveToken(c) && Renews(ask, c.jar)
    requires c.jar.refresh.value in Swept(c.system.memory, c.system.now + ask.pause)
    ensures Idle(Serve(c, ask)) && HoldsLiveToken(Serve(c, ask))
  {
    TickKeeps(c.system, ask.pause);
    var s, t := Next(c.system, Tick(ask.pause)), c.jar.refresh.value;
    Joined(s, t, ask);
    ServeIs(c, ask);
  }

  /** ... and when it starts one of its own. */
  lemma ServeStarted(c: Client, ask: Ask)
    requires Idle(c) && HoldsLiveToken(c) && Renews(ask, c.jar)
    requires c.jar.refresh.value !in Swept(c.system.memory, c.system.now + ask.pause)
    ensures Idle(Serve(c, ask))
    ensures HoldsLiveToken(Serve(c, ask)) <==> !Drops(c, ask)
  {
    TickKeeps(c.system, ask.pause);
    var s, t := Next(c.system, Tick(ask.pause)), c.jar.refresh.value;
    Started(s, t, ask);
    ServeIs(c, ask);
    LiveExchange(s.provider, t, ask.verdict);
  }

  /** One request keeps the cookie live unless it drops a rotation, and then it does not. */
  lemma ServeExactly(c: Client, ask: Ask)
    requires Idle(c) && HoldsLiveToken(c)
    ensures Idle(Serve(c, ask))
    ensures HoldsLiveToken(Serve(c, ask)) <==> !Drops(c, ask)
  {
    TickKeeps(c.system, ask.pause);
    if Renews(ask, c.jar) {
      if c.jar.refresh.value in Swept(c.system.memory, c.system.now + ask.pause) {
        ServeJoined(c, ask);
      } else {
        ServeStarted(c, ask);
      }
    }
  }

  ghost predicate AlwaysLive(c: Client, asks: seq<Ask>)
    requires Idle(c)
    decreases |asks|
  {
    HoldsLiveToken(c) && (asks != [] ==> (ServeExactly(c, asks[0]); AlwaysLive(Serve(c, asks[0]), asks[1..])))
  }

  ghost predicate NeverDrops(c: Client, asks: seq<Ask>)
    requires Idle(c) && HoldsLiveToken(c)
    decreases |asks|
  {
    asks != [] ==>
      !Drops(c, asks[0]) && (ServeExactly(c, asks[0]); NeverDrops(Serve(c, asks[0]), asks[1..]))
  }

  /** Over any number of requests, whether or not the provider rotates, the browser's refresh
      cookie is its family's one live token throughout exactly when no request dropped one. */
  lemma {:induction false} LiveExactlyWhen(c: Client, asks: seq<Ask>)
    requires Idle(c) && HoldsLiveToken(c)
    ensures AlwaysLive(c, asks) <==> NeverDrops(c, asks)
    decreases |asks|
  {
    if asks != [] {
      ServeExactly(c, asks[0]);
      if !Drops(c, asks[0]) {
        LiveExactlyWhen(Serve(c, asks[0]), asks[1..]);
      }
    }
  }

  /** What a withheld pair leaves behind: the old cookie, and the exchange in the memory. */
  lemma DropLeaves(c: Client, first: Ask)
    requires Idle(c) && HoldsLiveToken(c) && Drops(c, first) && first.heard
    ensures var d, t, f := Serve(c, first), c.jar.refresh.value, |c.system.flights|;
      && Idle(d) && d.jar == c.jar && d.system.now == c.system.now + first.pause + first.lag
      && f < |d.system.flights| && d.system.flights[f].token == t
      && d.system.flights[f].at == c.system.now + first.pause
      && d.system.flights[f].HasRotated() && d.system.flights[f].stage.Settled?
      && d.system.flights[f].Result().Some? && d.system.flights[f].Result().value.refresh.Some?
      && Live(d.system.provider, d.system.flights[f].Result().value.refresh.value)
  {
    ServeExactly(c, first);
    var t := c.jar.refresh.value;
    var s := Next(c.system, Tick(first.pause));
    TickKeeps(c.system, first.pause);
    Started(s, t, first);
    LiveExchange(s.provider, t, first.verdict);
    CookiesExactlyWhen(first, c.jar, Renew(s, t, first).1);
  }

  /** A pair the guard withheld is not gone for good: the next request that presents the old
      cookie inside the window, and whose guard passes, is handed that same pair. */
  lemma WindowRecovers(c: Client, first: Ask, second: Ask)
    requires Idle(c) && HoldsLiveToken(c)
    requires Drops(c, first) && first.heard
    requires Renews(second, c.jar) && Passes(second)
    requires first.lag + second.pause <= ROTATION_GRACE_MS
    ensures Idle(Serve(c, first)) && HoldsLiveToken(Serve(Serve(c, first), second))
  {
    DropLeaves(c, first);
    var d, t, f := Serve(c, first), c.jar.refresh.value, |c.system.flights|;
    assert Covered(d.system, f);
    var e := Next(d.system, Tick(second.pause));
    assert t in Swept(e.memory, e.now) && e.memory[t].flight == f;
    CookiesExactlyWhen(second, c.jar, Renew(e, t, second).1);
  }

  lemma FreshLogin(c: Client)
    requires c == Client(TokenRefresh.Login(), Cookies(None, Some(0)))
    ensures Idle(c) && HoldsLiveToken(c) && c.system.memory == map[]
  {
  }

  /** An expired session of a user who is no admin, opening an admin page. */
  predicate AdminPageWithoutRights(ask: Ask) {
    && ask.guard == EdgeAdmin && !ask.current.valid && ask.renewed == Claims(true, false)
    && ask.verdict == Rotate && ask.heard
  }

  /** The provider rotates, the guard refuses, and the browser keeps a consumed refresh cookie. */
  lemma RefusalDrops(c: Client, ask: Ask)
    requires Idle(c) && HoldsLiveToken(c) && c.system.memory == map[] && AdminPageWithoutRights(ask)
    ensures Drops(c, ask) && !HoldsLiveToken(Serve(c, ask)) && Serve(c, ask).jar == c.jar
  {
    ServeExactly(c, ask);
    DropLeaves(c, ask);
  }

  /** So a browser fresh from its login loses the live token on such a page. */
  lemma GuardDropsAPair(c: Client, ask: Ask)
    requires c == Client(TokenRefresh.Login(), Cookies(None, Some(0))) && AdminPageWithoutRights(ask)
    ensures Idle(c) && HoldsLiveToken(c)
    ensures Drops(c, ask) && !HoldsLiveToken(Serve(c, ask))
  {
    FreshLogin(c);
    RefusalDrops(c, ask);
  }
}
