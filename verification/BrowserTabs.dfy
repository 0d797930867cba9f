/**
  One browser with any number of requests under way, over the protocol of TokenRefresh: every tab
  sends the refresh cookie that is in the shared jar, and responses arrive in any order, so that an
  older pair may overwrite a newer one (brain-landing/lib/token-refresh.ts, the cookies set by
  brain-landing/lib/server-auth.ts and brain-landing/middleware.ts). A request sent before a
  response may be handled after it, with a cookie the jar no longer holds, and users of other
  families may use the server at the same time.
 */
module BrowserTabs {
  import opened Collections
  import opened TokenRefresh
  import SessionRenewal

  /** `root` is the refresh token of the login. `taken` is the exchange whose rotated pair reached the
      jar last, and `newest` the last exchange by which the provider rotated a token of this family. */
  datatype Tabs = Tabs(system: System, root: Token, jar: Token, taken: Option<nat>, newest: Option<nat>)

  datatype Event =
    | Ask                    // a request that renews, with the jar's cookie, is handled
    | Another(token: Token)  // so is one with any other token there is: sent earlier, or by another user
    | Server(step: Step)     // time passes, or an exchange is handled or settles
    | Deliver(request: nat)  // a response arrives and sets its cookies

  predicate Mine(p: Provider, root: Token, t: Token) {
    root in p.family && t in p.family && p.family[t] == p.family[root]
  }

  /** Exchange `i` rotated a token of this family. */
  predicate Rotation(p: Provider, root: Token, flights: seq<Flight>, i: nat) {
    i < |flights| && flights[i].HasRotated() && Mine(p, root, flights[i].token)
  }

  function Product(f: Flight): Token {
    if f.HasRotated() then f.stage.reply.next else 0
  }

  predicate Enabled(b: Tabs, e: Event) {
    match e
    case Ask => true
    case Another(t) => t in b.system.provider.family
    case Server(step) => !step.Present? && TokenRefresh.Enabled(b.system, step)
    case Deliver(r) =>
      && r < |b.system.requests|
      && Rotation(b.system.provider, b.root, b.system.flights, b.system.requests[r].flight)
      && b.system.flights[b.system.requests[r].flight].stage.Settled?
      && b.system.flights[b.system.requests[r].flight].stage.heard
  }

  function Next(b: Tabs, e: Event): Tabs
    requires Enabled(b, e)
  {
    match e
    case Ask => b.(system := TokenRefresh.Next(b.system, Present(b.jar)))
    case Another(t) => b.(system := TokenRefresh.Next(b.system, Present(t)))
    case Server(step) =>
      var n := TokenRefresh.Next(b.system, step);
      Tabs(n, b.root, b.jar, b.taken,
           if step.Process? && Rotation(n.provider, b.root, n.flights, step.flight) then Some(step.flight)
           else b.newest)
    case Deliver(r) =>
      var i := b.system.requests[r].flight;
      b.(jar := Product(b.system.flights[i]), taken := Some(i))
  }

  // ---- the family as a chain ----------------------------------------------------------------

  /** Each rotation of the family made a token of its own, and exchanges of it came later. */
  ghost predicate Chained(p: Provider, root: Token, flights: seq<Flight>) {
    && root in p.family
    && (forall i: nat :: i < |flights| ==> flights[i].token in p.family)
    && (forall i: nat :: Rotation(p, root, flights, i) ==>
      Mine(p, root, Product(flights[i])) && Product(flights[i]) != root)
    && (forall i: nat, j: nat :: Rotation(p, root, flights, i) && Rotation(p, root, flights, j) && i < j ==>
      Product(flights[i]) != Product(flights[j]))
    && (forall i: nat, m: nat ::
      (i < |flights| && Rotation(p, root, flights, m) && flights[i].token == Product(flights[m]) ==> m < i))
  }

  /** The one token of the family that is not rotated: the product of the newest rotation. */
  ghost predicate TipIs(p: Provider, root: Token, flights: seq<Flight>, newest: Option<nat>) {
    && (newest.Some? ==> Rotation(p, root, flights, newest.value))
    && (forall i: nat :: Rotation(p, root, flights, i) ==> newest.Some? && i <= newest.value)
    && (forall u :: Mine(p, root, u) ==> (u in p.rotated <==> u != Held(root, flights, newest)))
  }

  /** What a browser holds that took the pair of `taken` last, or none since its login. */
  function Held(root: Token, flights: seq<Flight>, taken: Option<nat>): Token {
    if taken.None? || taken.value >= |flights| then root else Product(flights[taken.value])
  }

  ghost predicate JarIs(p: Provider, root: Token, flights: seq<Flight>, jar: Token, taken: Option<nat>) {
    && jar == Held(root, flights, taken)
    && (taken.Some? ==> Rotation(p, root, flights, taken.value))
  }

  ghost predicate TabsInv(b: Tabs) {
    && Inv(b.system)
    && Chained(b.system.provider, b.root, b.system.flights)
    && TipIs(b.system.provider, b.root, b.system.flights, b.newest)
    && JarIs(b.system.provider, b.root, b.system.flights, b.jar, b.taken)
  }

  /** The log gained an exchange that is still to be handled. */
  lemma Longer(p: Provider, root: Token, flights: seq<Flight>, f: Flight)
    requires Chained(p, root, flights) && f.token in p.family && f.stage.Sent?
    ensures Chained(p, root, flights + [f])
    ensures forall i: nat :: Rotation(p, root, flights + [f], i) <==> Rotation(p, root, flights, i)
  {
    assert forall i: nat :: Rotation(p, root, flights + [f], i) <==> Rotation(p, root, flights, i);
  }

  /** No exchange of the log changed but in ways that do not matter to the family. */
  ghost predicate Alike(flights: seq<Flight>, later: seq<Flight>) {
    && |later| == |flights|
    && forall i: nat :: i < |flights| ==>
      && later[i].token == flights[i].token && (later[i].HasRotated() <==> flights[i].HasRotated())
      && Product(later[i]) == Product(flights[i])
  }

  lemma StillChained(p: Provider, q: Provider, root: Token, flights: seq<Flight>, later: seq<Flight>)
    requires Chained(p, root, flights) && Alike(flights, later) && q.family == p.family
    ensures Chained(q, root, later)
    ensures forall i: nat :: Rotation(q, root, later, i) <==> Rotation(p, root, flights, i)
  {
    assert forall i: nat :: Rotation(q, root, later, i) <==> Rotation(p, root, flights, i);
  }

  lemma TipStays(p: Provider, q: Provider, root: Token, flights: seq<Flight>, later: seq<Flight>, newest: Option<nat>)
    requires TipIs(p, root, flights, newest) && q.family == p.family && q.rotated == p.rotated
    requires |flights| <= |later| && forall i: nat :: Rotation(q, root, later, i) <==> Rotation(p, root, flights, i)
    requires forall i: nat :: i < |flights| ==> Product(later[i]) == Product(flights[i])
    ensures TipIs(q, root, later, newest)
  {
    assert forall u :: Mine(q, root, u) <==> Mine(p, root, u);
  }

  /** A rotation of this family: its token was the tip, and the new one is. */
  lemma RotationChains(p: Provider, q: Provider, root: Token, flights: seq<Flight>, newest: Option<nat>,
                       i: nat, at: nat, reply: Reply, later: seq<Flight>)
    requires Chained(p, root, flights) && TipIs(p, root, flights, newest)
    requires i < |flights| && flights[i].stage.Sent? && Mine(p, root, flights[i].token)
    requires flights[i].token !in p.rotated && at !in p.family && reply.Rotated? && reply.next == at
    requires forall u :: u in p.rotated ==> u in p.family
    requires q.family == p.family[at := p.family[flights[i].token]] && q.rotated == p.rotated + {flights[i].token}
    requires later == flights[i := flights[i].(stage := Answered(reply))]
    ensures Chained(q, root, later) && TipIs(q, root, later, Some(i))
  {
    assert forall u :: u in p.family ==> (Mine(q, root, u) <==> Mine(p, root, u));
    assert forall j: nat :: Rotation(q, root, later, j) <==> Rotation(p, root, flights, j) || j == i;
    assert flights[i].token == Held(root, flights, newest);
    forall j: nat | Rotation(p, root, flights, j) ensures j < i {
      assert newest.Some? && j <= newest.value && newest.value < i;
    }
  }

  /** A rotation of another family leaves this one alone. */
  lemma OtherRotation(p: Provider, q: Provider, root: Token, flights: seq<Flight>, newest: Option<nat>,
                      i: nat, at: nat, reply: Reply, later: seq<Flight>)
    requires Chained(p, root, flights) && TipIs(p, root, flights, newest)
    requires i < |flights| && flights[i].stage.Sent? && !Mine(p, root, flights[i].token)
    requires at !in p.family && reply.Rotated? && reply.next == at
    requires q.family == p.family[at := p.family[flights[i].token]] && q.rotated == p.rotated + {flights[i].token}
    requires later == flights[i := flights[i].(stage := Answered(reply))]
    ensures Chained(q, root, later) && TipIs(q, root, later, newest)
    ensures forall j: nat :: Rotation(q, root, later, j) <==> Rotation(p, root, flights, j)
  {
    assert forall u :: Mine(q, root, u) <==> Mine(p, root, u);
    assert forall j: nat :: Rotation(q, root, later, j) <==> Rotation(p, root, flights, j);
  }

  lemma JarStays(p: Provider, q: Provider, root: Token, flights: seq<Flight>, later: seq<Flight>,
                 jar: Token, taken: Option<nat>)
    requires JarIs(p, root, flights, jar, taken) && |flights| <= |later|
    requires forall i: nat :: Rotation(p, root, flights, i) ==> Rotation(q, root, later, i)
    requires forall i: nat :: Rotation(p, root, flights, i) ==> Product(later[i]) == Product(flights[i])
    ensures JarIs(q, root, later, jar, taken)
  {
  }

  lemma SettledAlike(flights: seq<Flight>, i: nat, heard: bool)
    requires i < |flights| && flights[i].stage.Answered?
    ensures Alike(flights, flights[i := flights[i].(stage := Settled(flights[i].stage.reply, heard))])
  {
  }

  lemma AnsweredAlike(flights: seq<Flight>, i: nat, reply: Reply)
    requires i < |flights| && flights[i].stage.Sent? && !reply.Rotated?
    ensures Alike(flights, flights[i := flights[i].(stage := Answered(reply))])
  {
  }

  /** What the provider does with a token it has not rotated, when no family is revoked. */
  lemma ExchangeIs(p: Provider, t: Token, v: Verdict)
    requires t in p.family && t !in p.rotated && p.revoked == {}
    ensures var (q, reply) := Exchange(p, t, v);
      if reply.Rotated? then
        && reply.next == p.mint + 1 && q.rotated == p.rotated + {t} && q.family == p.family[p.mint + 1 := p.family[t]]
      else q.family == p.family && q.rotated == p.rotated
  {
  }

  // ---- what every event keeps ---------------------------------------------------------------

  /** The family, and this browser's place in it. */
  ghost predicate FamilyInv(p: Provider, root: Token, flights: seq<Flight>, newest: Option<nat>,
                            jar: Token, taken: Option<nat>) {
    Chained(p, root, flights) && TipIs(p, root, flights, newest) && JarIs(p, root, flights, jar, taken)
  }

  lemma PresentFamily(b: Tabs, t: Token)
    requires TabsInv(b) && t in b.system.provider.family
    ensures var n := TokenRefresh.Next(b.system, Present(t));
      FamilyInv(n.provider, b.root, n.flights, b.newest, b.jar, b.taken)
  {
    var s, n := b.system, TokenRefresh.Next(b.system, Present(t));
    if n.flights != s.flights {
      Longer(s.provider, b.root, s.flights, Flight(t, s.now, Sent));
    }
    TipStays(s.provider, n.provider, b.root, s.flights, n.flights, b.newest);
    JarStays(s.provider, n.provider, b.root, s.flights, n.flights, b.jar, b.taken);
  }

  lemma Unaffected(p: Provider, q: Provider, root: Token, flights: seq<Flight>, newest: Option<nat>,
                   jar: Token, taken: Option<nat>, later: seq<Flight>)
    requires FamilyInv(p, root, flights, newest, jar, taken)
    requires Alike(flights, later) && q.family == p.family && q.rotated == p.rotated
    ensures FamilyInv(q, root, later, newest, jar, taken)
  {
    StillChained(p, q, root, flights, later);
    TipStays(p, q, root, flights, later, newest);
    JarStays(p, q, root, flights, later, jar, taken);
  }

  /** What the provider made of exchange `i`, for the family. */
  lemma ProcessFamily(p: Provider, root: Token, flights: seq<Flight>, newest: Option<nat>,
                      jar: Token, taken: Option<nat>, i: nat, v: Verdict, later: seq<Flight>)
    requires FamilyInv(p, root, flights, newest, jar, taken)
    requires i < |flights| && flights[i].stage.Sent? && flights[i].token !in p.rotated && p.revoked == {}
    requires (forall u :: u in p.family ==> u < p.mint) && p.rotated <= p.family.Keys
    requires later == flights[i := flights[i].(stage := Answered(Exchange(p, flights[i].token, v).1))]
    ensures var q := Exchange(p, flights[i].token, v).0;
      FamilyInv(q, root, later, if Rotation(q, root, later, i) then Some(i) else newest, jar, taken)
  {
    var (q, reply) := Exchange(p, flights[i].token, v);
    ExchangeIs(p, flights[i].token, v);
    if !reply.Rotated? {
      AnsweredAlike(flights, i, reply);
      Unaffected(p, q, root, flights, newest, jar, taken, later);
    } else {
      if Mine(p, root, flights[i].token) {
        RotationChains(p, q, root, flights, newest, i, p.mint + 1, reply, later);
      } else {
        OtherRotation(p, q, root, flights, newest, i, p.mint + 1, reply, later);
      }
      JarStays(p, q, root, flights, later, jar, taken);
    }
  }

  /** The request is protected in the sense of TokenRefresh. */
  ghost predicate Protected(b: Tabs, e: Event) {
    match e
    case Ask => !Unprotected(b.system, b.jar)
    case Another(t) => !Unprotected(b.system, t)
    case _ => true
  }

  lemma PresentTabs(b: Tabs, t: Token)
    requires TabsInv(b) && t in b.system.provider.family && !Unprotected(b.system, t)
    ensures TabsInv(b.(system := TokenRefresh.Next(b.system, Present(t))))
  {
    StepKeeps(b.system, Present(t));
    PresentFamily(b, t);
  }

  lemma ProcessTabs(b: Tabs, i: nat, v: Verdict)
    requires TabsInv(b) && TokenRefresh.Enabled(b.system, Process(i, v))
    ensures TabsInv(Next(b, Server(Process(i, v))))
  {
    var s := b.system;
    StepKeeps(s, Process(i, v));
    NoReplay(s, i, v);
    var n := TokenRefresh.Next(s, Process(i, v));
    ProcessFamily(s.provider, b.root, s.flights, b.newest, b.jar, b.taken, i, v, n.flights);
  }

  lemma SettleTabs(b: Tabs, i: nat, heard: bool)
    requires TabsInv(b) && TokenRefresh.Enabled(b.system, Settle(i, heard))
    ensures TabsInv(Next(b, Server(Settle(i, heard))))
  {
    var s := b.system;
    StepKeeps(s, Settle(i, heard));
    SettledAlike(s.flights, i, heard);
    var n := TokenRefresh.Next(s, Settle(i, heard));
    Unaffected(s.provider, n.provider, b.root, s.flights, b.newest, b.jar, b.taken, n.flights);
  }

  lemma DeliverTabs(b: Tabs, r: nat)
    requires TabsInv(b) && Enabled(b, Deliver(r))
    ensures TabsInv(Next(b, Deliver(r)))
  {
  }

  lemma EventKeeps(b: Tabs, e: Event)
    requires TabsInv(b) && Enabled(b, e) && Protected(b, e)
    ensures TabsInv(Next(b, e))
  {
    match e
    case Ask => PresentTabs(b, b.jar);
    case Another(t) => PresentTabs(b, t);
    case Server(Tick(ms)) => TickKeeps(b.system, ms);
    case Server(Process(i, v)) => ProcessTabs(b, i, v);
    case Server(Settle(i, heard)) => SettleTabs(b, i, heard);
    case Deliver(r) => DeliverTabs(b, r);
  }

  // ---- runs ---------------------------------------------------------------------------------

  /** Fresh from its login, the browser holds the only token of its family. */
  ghost predicate Start(b: Tabs) {
    && Initial(b.system) && b.taken == None && b.newest == None && b.jar == b.root
    && b.root in b.system.provider.family
    && forall t :: Mine(b.system.provider, b.root, t) ==> t == b.root
  }

  ghost predicate Possible(b: Tabs, run: seq<Event>)
    decreases |run|
  {
    run == [] || (Enabled(b, run[0]) && Possible(Next(b, run[0]), run[1..]))
  }

  ghost function After(b: Tabs, run: seq<Event>): Tabs
    requires Possible(b, run)
    decreases |run|
  {
    if run == [] then b else After(Next(b, run[0]), run[1..])
  }

  ghost predicate AllProtected(b: Tabs, run: seq<Event>)
    requires Possible(b, run)
    decreases |run|
  {
    run != [] ==> Protected(b, run[0]) && AllProtected(Next(b, run[0]), run[1..])
  }

  lemma {:induction false} RunKeeps(b: Tabs, run: seq<Event>)
    requires TabsInv(b) && Possible(b, run) && AllProtected(b, run)
    ensures TabsInv(After(b, run))
    decreases |run|
  {
    if run != [] {
      EventKeeps(b, run[0]);
      RunKeeps(Next(b, run[0]), run[1..]);
    }
  }

  lemma LiveExactlyWhenNewest(b: Tabs)
    requires TabsInv(b)
    ensures SessionRenewal.Live(b.system.provider, b.jar) <==> b.taken == b.newest
  {
    var p, flights := b.system.provider, b.system.flights;
    assert Mine(p, b.root, b.jar);
    if b.taken == b.newest {
      forall u | SessionRenewal.InFamily(p, p.family[b.jar], u) && u != b.jar ensures u in p.rotated {
        assert Mine(p, b.root, u);
      }
    } else {
      assert b.newest.Some?;
      assert Held(b.root, flights, b.taken) != Held(b.root, flights, b.newest);
    }
  }

  /** However requests overlap and responses are ordered, the jar of a browser whose requests all
      came protected holds its family's live token exactly when the pair that reached it last is
      the newest the provider made. */
  lemma JarLiveExactlyWhen(b: Tabs, run: seq<Event>)
    requires Start(b) && Possible(b, run) && AllProtected(b, run)
    ensures var n := After(b, run);
      SessionRenewal.Live(n.system.provider, n.jar) <==> n.taken == n.newest
  {
    RunKeeps(b, run);
    LiveExactlyWhenNewest(After(b, run));
  }

  /** So a response is good for the jar exactly when no later exchange has rotated meanwhile. */
  lemma DeliveryExactlyWhen(b: Tabs, r: nat)
    requires TabsInv(b) && Enabled(b, Deliver(r))
    ensures SessionRenewal.Live(b.system.provider, Next(b, Deliver(r)).jar)
       <==> !exists j: nat :: j > b.system.requests[r].flight
              && Rotation(b.system.provider, b.root, b.system.flights, j)
  {
    EventKeeps(b, Deliver(r));
    LiveExactlyWhenNewest(Next(b, Deliver(r)));
  }

  // ---- a jar that fell behind ---------------------------------------------------------------

  /** Exchange `i` consumed `t`, a token of this family. */
  ghost predicate Consumed(b: Tabs, t: Token, i: nat) {
    Rotation(b.system.provider, b.root, b.system.flights, i) && b.system.flights[i].token == t
  }

  lemma StaleIsRotated(p: Provider, root: Token, flights: seq<Flight>, newest: Option<nat>,
                       jar: Token, taken: Option<nat>)
    requires FamilyInv(p, root, flights, newest, jar, taken) && taken != newest
    ensures Mine(p, root, jar) && jar in p.rotated
  {
    assert newest.Some? && jar != Held(root, flights, newest);
  }

  lemma ConsumedLater(p: Provider, root: Token, flights: seq<Flight>, newest: Option<nat>,
                      jar: Token, taken: Option<nat>, i: nat)
    requires FamilyInv(p, root, flights, newest, jar, taken)
    requires i < |flights| && flights[i].token == jar && flights[i].HasRotated() && Mine(p, root, jar)
    ensures Rotation(p, root, flights, i) && newest.Some? && i <= newest.value
    ensures taken.Some? ==> taken.value < i
  {
    assert Rotation(p, root, flights, i);
  }

  lemma StaleIsConsumed(b: Tabs) returns (i: nat)
    requires TabsInv(b) && b.taken != b.newest
    ensures b.jar in b.system.provider.rotated
    ensures Consumed(b, b.jar, i) && (b.taken.Some? ==> b.taken.value < i)
    ensures b.newest.Some? && i <= b.newest.value
  {
    var p, flights := b.system.provider, b.system.flights;
    StaleIsRotated(p, b.root, flights, b.newest, b.jar, b.taken);
    i := ConsumerOf(b.system, b.jar);
    ConsumedLater(p, b.root, flights, b.newest, b.jar, b.taken, i);
  }

  lemma ConsumerOf(s: System, t: Token) returns (i: nat)
    requires Inv(s) && t in s.provider.rotated
    ensures ConsumedBy(s, t, i)
  {
    i :| ConsumedBy(s, t, i);
  }

  /** A request with a consumed cookie, from the jar or sent before the jar changed, is protected
      exactly when the exchange that consumed it was heard of, or runs, and began inside the window. */
  lemma ProtectedExactlyWhen(b: Tabs, t: Token, i: nat)
    requires TabsInv(b) && Consumed(b, t, i)
    ensures Protected(b, Another(t))
       <==> b.system.now - b.system.flights[i].at <= ROTATION_GRACE_MS && !b.system.flights[i].Lost()
  {
    assert b.system.flights[i].Open();
  }

  lemma TwoSteps(s: System, first: Step, second: Step)
    requires TokenRefresh.Possible(s, [first, second])
    ensures TokenRefresh.Enabled(s, first) && TokenRefresh.Enabled(TokenRefresh.Next(s, first), second)
    ensures TokenRefresh.After(s, [first, second]) == TokenRefresh.Next(TokenRefresh.Next(s, first), second)
  {
    var run := [first, second];
    assert run[1..] == [second] && run[1..][1..] == [];
    var n := TokenRefresh.Next(s, run[0]);
    var m := TokenRefresh.Next(n, run[1..][0]);
    assert TokenRefresh.After(m, []) == m;
    assert TokenRefresh.After(n, run[1..]) == TokenRefresh.After(m, run[1..][1..]);
  }

  lemma TwoEvents(b: Tabs, first: Event, second: Event)
    requires Enabled(b, first) && Enabled(Next(b, first), second)
    ensures Possible(b, [first, second]) && After(b, [first, second]) == Next(Next(b, first), second)
  {
    var run := [first, second];
    assert run[1..] == [second] && run[1..][1..] == [];
    var n := Next(b, run[0]);
    var m := Next(n, run[1..][0]);
    assert Possible(m, []) && After(m, []) == m;
    assert Possible(n, run[1..]) && After(n, run[1..]) == After(m, run[1..][1..]);
  }

  /** Otherwise the provider takes that request for a replay, and the session is over. */
  lemma LateTabRevokes(b: Tabs, t: Token, i: nat, v: Verdict)
    requires TabsInv(b) && Consumed(b, t, i) && !Protected(b, Another(t))
    ensures var run := [Another(t), Server(Process(|b.system.flights|, v))];
      && Possible(b, run)
      && After(b, run).system.provider.revoked == {b.system.provider.family[b.root]}
  {
    UnprotectedReplayRevokes(b.system, t, v);
    TwoSteps(b.system, Present(t), Process(|b.system.flights|, v));
    TwoEvents(b, Another(t), Server(Process(|b.system.flights|, v)));
  }

  /** Every pair the jar has missed was heard of and is still remembered. */
  ghost predicate Recoverable(b: Tabs) {
    forall i: nat ::
      Rotation(b.system.provider, b.root, b.system.flights, i) && (b.taken.Some? ==> b.taken.value < i) ==>
      var f := b.system.flights[i];
      f.stage.Settled? && f.stage.heard && b.system.now - f.at <= ROTATION_GRACE_MS
  }

  /** Inside the window the old cookie is joined to the exchange that consumed it. */
  lemma JoinsConsumer(s: System, t: Token, i: nat)
    requires Inv(s) && ConsumedBy(s, t, i) && s.flights[i].stage.Settled? && s.flights[i].stage.heard
    requires s.now - s.flights[i].at <= ROTATION_GRACE_MS
    ensures var n := TokenRefresh.Next(s, Present(t));
      && n.flights == s.flights && n.provider == s.provider && n.now == s.now
      && n.requests == s.requests + [Request(t, s.now, i)]
  {
    assert Covered(s, i);
  }

  /** One request with the old cookie, and its response. */
  function Round(b: Tabs): (n: Tabs)
    requires Enabled(Next(b, Ask), Deliver(|b.system.requests|))
  {
    Next(Next(b, Ask), Deliver(|b.system.requests|))
  }

  lemma AskJoins(b: Tabs) returns (i: nat)
    requires TabsInv(b) && Recoverable(b) && b.taken != b.newest
    ensures Protected(b, Ask) && Consumed(b, b.jar, i) && (b.taken.Some? ==> b.taken.value < i)
    ensures b.system.flights[i].stage.Settled? && b.system.flights[i].stage.heard
    ensures var n := TokenRefresh.Next(b.system, Present(b.jar));
      && n.flights == b.system.flights && n.provider == b.system.provider && n.now == b.system.now
      && n.requests == b.system.requests + [Request(b.jar, b.system.now, i)]
  {
    i := StaleIsConsumed(b);
    ProtectedExactlyWhen(b, b.jar, i);
    JoinsConsumer(b.system, b.jar, i);
  }

  lemma OneRound(b: Tabs)
    requires TabsInv(b) && Recoverable(b) && b.taken != b.newest
    ensures Protected(b, Ask) && Enabled(Next(b, Ask), Deliver(|b.system.requests|))
    ensures TabsInv(Round(b)) && Recoverable(Round(b)) && Behind(Round(b)) < Behind(b)
    ensures Round(b).system.provider == b.system.provider
    ensures |Round(b).system.requests| == |b.system.requests| + 1
  {
    var i := AskJoins(b);
    EventKeeps(b, Ask);
    EventKeeps(Next(b, Ask), Deliver(|b.system.requests|));
    ForwardIsCloser(b, Round(b), i);
  }

  lemma ForwardIsCloser(b: Tabs, n: Tabs, i: nat)
    requires TabsInv(b) && TabsInv(n) && b.newest == n.newest && n.taken == Some(i)
    requires b.taken.Some? ==> b.taken.value < i
    ensures Behind(n) < Behind(b)
  {
  }

  /** `rounds` requests one after the other, the first of them named `r`. */
  function Rounds(r: nat, rounds: nat): seq<Event>
    decreases rounds
  {
    if rounds == 0 then [] else [Ask, Deliver(r)] + Rounds(r + 1, rounds - 1)
  }

  function Behind(b: Tabs): nat {
    if b.newest.None? then 0
    else if b.taken.None? then b.newest.value + 1
    else if b.taken.value < b.newest.value then b.newest.value - b.taken.value
    else 0
  }

  /** Inside the window a jar that was set back any number of pairs finds its way to the live
      token by asking again, at no cost to the provider. */
  lemma {:induction false} RetriesRecover(b: Tabs)
    requires TabsInv(b) && Recoverable(b)
    ensures exists rounds: nat :: rounds <= Behind(b) && Regains(b, Rounds(|b.system.requests|, rounds))
    decreases Behind(b)
  {
    if b.taken == b.newest {
      LiveExactlyWhenNewest(b);
      assert Regains(b, Rounds(|b.system.requests|, 0));
    } else {
      OneRound(b);
      RetriesRecover(Round(b));
      var r := |b.system.requests|;
      var rounds: nat :| rounds <= Behind(Round(b)) && Regains(Round(b), Rounds(r + 1, rounds));
      RoundThen(b, Rounds(r + 1, rounds));
      assert Regains(b, Rounds(r, rounds + 1));
    }
  }

  ghost predicate Regains(b: Tabs, run: seq<Event>) {
    && Possible(b, run) && AllProtected(b, run)
    && After(b, run).system.provider == b.system.provider
    && SessionRenewal.Live(b.system.provider, After(b, run).jar)
  }

  lemma RoundThen(b: Tabs, rest: seq<Event>)
    requires Protected(b, Ask) && Enabled(Next(b, Ask), Deliver(|b.system.requests|))
    requires Round(b).system.provider == b.system.provider && Regains(Round(b), rest)
    ensures Regains(b, [Ask, Deliver(|b.system.requests|)] + rest)
  {
    var r := |b.system.requests|;
    var run := [Ask, Deliver(r)] + rest;
    assert run[1..] == [Deliver(r)] + rest && run[1..][1..] == rest;
    assert Possible(Next(b, Ask), run[1..]);
  }

  // ---- a response that comes too late -------------------------------------------------------

  ghost predicate Reaches(b: Tabs, n: Tabs) {
    exists run :: Possible(b, run) && AllProtected(b, run) && After(b, run) == n
  }

  lemma {:induction false} Extend(b: Tabs, run: seq<Event>, e: Event)
    requires Possible(b, run) && AllProtected(b, run)
    requires Enabled(After(b, run), e) && Protected(After(b, run), e)
    ensures Possible(b, run + [e]) && AllProtected(b, run + [e])
    ensures After(b, run + [e]) == Next(After(b, run), e)
    decreases |run|
  {
    if run == [] {
      assert Possible(Next(b, e), []) && ([] + [e])[1..] == [];
    } else {
      Extend(Next(b, run[0]), run[1..], e);
      assert (run + [e])[1..] == run[1..] + [e];
    }
  }

  lemma Then(b: Tabs, n: Tabs, e: Event)
    requires Reaches(b, n) && Enabled(n, e) && Protected(n, e)
    ensures Reaches(b, Next(n, e))
  {
    var run :| Possible(b, run) && AllProtected(b, run) && After(b, run) == n;
    Extend(b, run, e);
  }

  function LoggedIn(): Tabs { Tabs(Login(), 0, 0, None, None) }

  /** Two tabs have asked at once. */
  function BothAsked(): Tabs {
    Tabs(System(0, map[0 := Entry(0, 0)], [Flight(0, 0, Sent)], Provider(1, map[0 := 0], {}, {}),
                [Request(0, 0, 0), Request(0, 0, 0)]), 0, 0, None, None)
  }

  /** They share the first rotation, and only the first of them has its response yet. */
  function OnePairOn(): Tabs {
    var first := Flight(0, 0, Settled(Rotated(1, 2), true));
    Tabs(System(0, map[0 := Entry(0, 0)], [first], Provider(3, map[0 := 0, 2 := 0], {0}, {}),
                [Request(0, 0, 0), Request(0, 0, 0)]), 0, 2, Some(0), Some(0))
  }

  /** The first tab asks again. */
  function AskedAgain(): Tabs {
    var b := OnePairOn();
    b.(system := b.system.(memory := map[0 := Entry(0, 0), 2 := Entry(0, 1)],
                           flights := b.system.flights + [Flight(2, 0, Sent)],
                           requests := b.system.requests + [Request(2, 0, 1)]))
  }

  /** It has the newer pair. */
  function TwoPairsOn(): Tabs {
    var first := Flight(0, 0, Settled(Rotated(1, 2), true));
    var second := Flight(2, 0, Settled(Rotated(3, 4), true));
    Tabs(System(0, map[0 := Entry(0, 0), 2 := Entry(0, 1)], [first, second],
                Provider(5, map[0 := 0, 2 := 0, 4 := 0], {0, 2}, {}),
                [Request(0, 0, 0), Request(0, 0, 0), Request(2, 0, 1)]), 0, 4, Some(1), Some(1))
  }

  lemma ReachBothAsked()
    ensures Reaches(LoggedIn(), BothAsked())
  {
    var a := LoggedIn();
    assert Possible(a, []) && AllProtected(a, []) && After(a, []) == a;
    Then(LoggedIn(), a, Ask);
    var b := Next(a, Ask);
    assert b.system.flights == [Flight(0, 0, Sent)];
    Then(LoggedIn(), b, Ask);
  }

  lemma ReachOnePairOn()
    ensures Reaches(LoggedIn(), OnePairOn())
  {
    ReachBothAsked();
    var a := BothAsked();
    Then(LoggedIn(), a, Server(Process(0, Rotate)));
    var b := Next(a, Server(Process(0, Rotate)));
    Then(LoggedIn(), b, Server(Settle(0, true)));
    var c := Next(b, Server(Settle(0, true)));
    Then(LoggedIn(), c, Deliver(0));
    assert Next(c, Deliver(0)) == OnePairOn();
  }

  lemma ReachAskedAgain()
    ensures Reaches(LoggedIn(), AskedAgain())
    ensures Reaches(LoggedIn(), Next(AskedAgain(), Server(Process(1, Rotate))))
  {
    ReachOnePairOn();
    Then(LoggedIn(), OnePairOn(), Ask);
    Then(LoggedIn(), AskedAgain(), Server(Process(1, Rotate)));
  }

  lemma ReachTwoPairsOn()
    ensures Reaches(LoggedIn(), TwoPairsOn())
  {
    ReachAskedAgain();
    var b := Next(AskedAgain(), Server(Process(1, Rotate)));
    Then(LoggedIn(), b, Server(Settle(1, true)));
    var c := Next(b, Server(Settle(1, true)));
    assert c.system == TwoPairsOn().system;
    Then(LoggedIn(), c, Deliver(2));
    assert Next(c, Deliver(2)) == TwoPairsOn();
  }

  /** When the second tab's response comes last, it sets the jar back to a consumed token. */
  lemma OldAnswerOverwrites()
    ensures Start(LoggedIn()) && Reaches(LoggedIn(), TwoPairsOn())
    ensures SessionRenewal.Live(TwoPairsOn().system.provider, TwoPairsOn().jar)
    ensures Enabled(TwoPairsOn(), Deliver(1))
    ensures !SessionRenewal.Live(TwoPairsOn().system.provider, Next(TwoPairsOn(), Deliver(1)).jar)
  {
    ReachTwoPairsOn();
  }
}
