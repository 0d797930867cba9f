/**
  Token choice and 401 invalidation of brain-landing/lib/brain-api.ts: any number of backend calls
  interleaved at their `await` points over the two token caches. Token exchange is section 2 of
  RFC 8693.
 */
module BrainApi {
  import opened Collections
  import opened TokenLane

  // ---- cache keys ---------------------------------------------------------------------------

  /** The hash as the cache relies on it: distinct for distinct session tokens, and hexadecimal. */
  ghost predicate HexDigest(digest: string -> string) {
    && (forall a, b :: digest(a) == digest(b) ==> a == b)
    && (forall a :: ':' !in digest(a))
  }

  function ExchangeKey(digest: string -> string, subject: string, scope: string): string {
    digest(subject) + ":" + scope
  }

  lemma FirstColon(a: string, x: string, b: string, y: string)
    requires ':' !in a && ':' !in b && a + ":" + x == b + ":" + y
    ensures a == b && x == y
  {
    var u, v := a + ":" + x, b + ":" + y;
    assert u[|a|] == ':' && v[|b|] == ':';
    assert forall k :: 0 <= k < |a| ==> u[k] == a[k] && u[k] != ':';
    assert forall k :: 0 <= k < |b| ==> v[k] == b[k] && v[k] != ':';
    assert a == u[..|a|] == v[..|b|] == b;
    assert x == u[|a| + 1..] == v[|b| + 1..] == y;
  }

  lemma ExchangeKeyInjective(digest: string -> string, s1: string, c1: string, s2: string, c2: string)
    requires HexDigest(digest) && ExchangeKey(digest, s1, c1) == ExchangeKey(digest, s2, c2)
    ensures s1 == s2 && c1 == c2
  {
    FirstColon(digest(s1), c1, digest(s2), c2);
  }

  // ---- calls --------------------------------------------------------------------------------

  datatype Kind = Service | Exchange

  datatype Options = Options(scope: string, apiKey: Option<string>, userToken: Option<string>,
                             requireUserIdentity: bool)

  /** A credential: a configured key, or the token minted by a fetch of one lane. */
  datatype Bearer = Static(apiKey: string) | Minted(kind: Kind, mint: nat)

  /** Where a call stands between two `await`s. */
  datatype Stage =
    | Arrived
    | NeedsService
    | Waiting(kind: Kind, fetch: nat, starter: bool)
    | Holding(bearer: Bearer)
    | Sent(bearer: Bearer)
    | Closed(status: int)

  datatype Call = Call(options: Options, stage: Stage)

  /** A token answered from a cache: when, and whether the backend had refused it before. */
  datatype CacheHit = CacheHit(kind: Kind, mint: nat, at: int, refusedBefore: bool)

  datatype System = System(now: int, service: Lane, exchange: Lane, calls: seq<Call>,
                           refused: set<Bearer>, hits: seq<CacheHit>)
  {
    function Of(kind: Kind): Lane {
      if kind.Service? then service else exchange
    }

    function With(kind: Kind, l: Lane): System {
      if kind.Service? then this.(service := l) else this.(exchange := l)
    }

    function Move(i: nat, stage: Stage): System
      requires i < |calls|
    {
      this.(calls := calls[i := calls[i].(stage := stage)])
    }
  }

  predicate Bounded(kind: Kind) {
    kind.Exchange?
  }

  datatype Step =
    | Tick(ms: nat)
    | Arrive(options: Options)
    | Advance(call: nat)
    | Answer(kind: Kind, fetch: nat, answer: TokenAnswer)
    | Respond(call: nat, status: int)

  /** A joiner runs after the starter, whose reaction was registered on the promise first. */
  predicate Enabled(s: System, step: Step) {
    match step
    case Tick(_) => true
    case Arrive(_) => true
    case Advance(i) =>
      i < |s.calls| &&
      (match s.calls[i].stage
       case Arrived => true
       case NeedsService => true
       case Waiting(k, f, starter) =>
         && f < |s.Of(k).fetches| && !s.Of(k).fetches[f].state.Pending?
         && (InFlight(s.Of(k), f) ==> starter)
       case Holding(_) => true
       case Sent(_) => false
       case Closed(_) => false)
    case Answer(k, f, _) => f < |s.Of(k).fetches| && s.Of(k).fetches[f].state.Pending?
    case Respond(i, _) => i < |s.calls| && s.calls[i].stage.Sent?
  }

  /** `getServiceToken` or `getExchangedToken` up to its first `await`, for call `i`. */
  function Ask(s: System, i: nat, kind: Kind, key: string, grant: Grant): System
    requires i < |s.calls|
  {
    var (l, ticket) := Begin(s.Of(kind), key, grant, s.now);
    match ticket
    case Hit(m) =>
      var b := Minted(kind, m);
      s.With(kind, l).Move(i, Holding(b)).(hits := s.hits + [CacheHit(kind, m, s.now, b in s.refused)])
    case Wait(f, starter) => s.With(kind, l).Move(i, Waiting(kind, f, starter))
  }

  /** After a failed fetch: the end-user path denies, every other exchange degrades. */
  function AfterFailure(o: Options, kind: Kind): Stage {
    if kind.Service? then Closed(500)
    else if o.requireUserIdentity then Closed(403)
    else NeedsService
  }

  function Resume(s: System, i: nat, kind: Kind, f: nat, starter: bool): System
    requires i < |s.calls| && f < |s.Of(kind).fetches| && !s.Of(kind).fetches[f].state.Pending?
  {
    var n := if starter then s.With(kind, Finish(s.Of(kind), f, Bounded(kind))) else s;
    n.Move(i, if s.Of(kind).fetches[f].state.Ready? then Holding(Minted(kind, f))
              else AfterFailure(s.calls[i].options, kind))
  }

  /** The backend's answer; a 401 on a minted token clears its cache entries. */
  function Reply(s: System, digest: string -> string, i: nat, status: int): System
    requires i < |s.calls| && s.calls[i].stage.Sent?
  {
    var o := s.calls[i].options;
    var n := s.Move(i, Closed(status));
    if status == 401 && o.apiKey.None? then
      n.(service := Forget(s.service, o.scope),
         exchange := if o.userToken.Some? then Forget(s.exchange, ExchangeKey(digest, o.userToken.value, o.scope))
                     else s.exchange,
         refused := s.refused + {s.calls[i].stage.bearer})
    else n
  }

  function Next(s: System, digest: string -> string, step: Step): System
    requires Enabled(s, step)
  {
    match step
    case Tick(ms) => s.(now := s.now + ms)
    case Arrive(o) => s.(calls := s.calls + [Call(o, Arrived)])
    case Advance(i) =>
      var o := s.calls[i].options;
      (match s.calls[i].stage
       case Arrived =>
         if o.apiKey.Some? then s.Move(i, Holding(Static(o.apiKey.value)))
         else if o.userToken.Some? then
           Ask(s, i, Exchange, ExchangeKey(digest, o.userToken.value, o.scope), Grant(o.userToken, o.scope))
         else s.Move(i, NeedsService)
       case NeedsService => Ask(s, i, Service, o.scope, Grant(None, o.scope))
       case Waiting(k, f, starter) => Resume(s, i, k, f, starter)
       case Holding(b) => s.Move(i, Sent(b))
       case _ => s)
    case Answer(k, f, answer) => s.With(k, Land(s.Of(k), f, answer, s.now))
    case Respond(i, status) => Reply(s, digest, i, status)
  }

  ghost predicate Initial(s: System) {
    && s.service == EmptyLane() && s.exchange == EmptyLane()
    && s.calls == [] && s.refused == {} && s.hits == []
  }

  ghost predicate Possible(s: System, digest: string -> string, run: seq<Step>)
    decreases |run|
  {
    run == [] || (Enabled(s, run[0]) && Possible(Next(s, digest, run[0]), digest, run[1..]))
  }

  ghost function After(s: System, digest: string -> string, run: seq<Step>): System
    requires Possible(s, digest, run)
    decreases |run|
  {
    if run == [] then s else After(Next(s, digest, run[0]), digest, run[1..])
  }

  // ---- the invariant ------------------------------------------------------------------------

  /** A call with this user must not end up with a token that carries no user. */
  predicate MustKeepIdentity(o: Options) {
    o.userToken.Some? && o.requireUserIdentity
  }

  /** What the auth service must have been asked for, for a token of this kind to suit the call. */
  predicate Suits(o: Options, kind: Kind, g: Grant) {
    && o.apiKey.None? && g.scope == o.scope
    && (if kind.Exchange? then o.userToken.Some? && g.subject == o.userToken
        else g.subject.None? && !MustKeepIdentity(o))
  }

  /** The credential is the call's own key, or was minted, and handed over, for exactly it. */
  predicate BearerSuits(s: System, o: Options, b: Bearer) {
    match b
    case Static(k) => o.apiKey == Some(k)
    case Minted(kind, m) =>
      && m < |s.Of(kind).fetches| && s.Of(kind).fetches[m].state.Ready?
      && Suits(o, kind, s.Of(kind).fetches[m].grant) && !InFlight(s.Of(kind), m)
  }

  predicate CallOk(s: System, c: Call) {
    match c.stage
    case Arrived => true
    case NeedsService => c.options.apiKey.None? && !MustKeepIdentity(c.options)
    case Waiting(kind, f, starter) =>
      && f < |s.Of(kind).fetches| && Suits(c.options, kind, s.Of(kind).fetches[f].grant)
      && (starter ==> InFlight(s.Of(kind), f))
    case Holding(b) => BearerSuits(s, c.options, b)
    case Sent(b) => BearerSuits(s, c.options, b)
    case Closed(_) => true
  }

  ghost predicate Starts(c: Call, kind: Kind, f: nat) {
    c.stage == Waiting(kind, f, true)
  }

  ghost predicate OneStarter(s: System) {
    forall i, j, k, f :: 0 <= i < j < |s.calls| && Starts(s.calls[i], k, f) ==> !Starts(s.calls[j], k, f)
  }

  ghost predicate KeysMatchGrants(s: System, digest: string -> string) {
    && (forall f :: 0 <= f < |s.service.fetches| ==>
          s.service.fetches[f].grant == Grant(None, s.service.fetches[f].key))
    && (forall f :: 0 <= f < |s.exchange.fetches| ==>
          var g := s.exchange.fetches[f].grant;
          g.subject.Some? && s.exchange.fetches[f].key == ExchangeKey(digest, g.subject.value, g.scope))
  }

  /** A refused token is in no cache and will not be put there again. */
  ghost predicate Banished(s: System, b: Bearer) {
    b.Minted? && b.mint < |s.Of(b.kind).fetches| && !InFlight(s.Of(b.kind), b.mint) && !Holds(s.Of(b.kind), b.mint)
  }

  ghost predicate HitOk(s: System, h: CacheHit) {
    && h.mint < |s.Of(h.kind).fetches| && s.Of(h.kind).fetches[h.mint].state.Ready?
    && h.at < s.Of(h.kind).fetches[h.mint].state.cached.expiresAtMs && !h.refusedBefore
  }

  ghost predicate Inv(s: System, digest: string -> string) {
    && LaneInv(s.service, false) && LaneInv(s.exchange, true)
    && KeysMatchGrants(s, digest)
    && (forall i :: 0 <= i < |s.calls| ==> CallOk(s, s.calls[i]))
    && OneStarter(s)
    && (forall b :: b in s.refused ==> Banished(s, b))
    && (forall h :: h in s.hits ==> HitOk(s, h))
  }

  // ---- preservation -------------------------------------------------------------------------

  /** Both lanes evolve; the fetches that leave `inFlight` are those in `gone`. */
  ghost predicate LanesEvolve(s: System, n: System, kind: Kind, gone: set<nat>) {
    && Evolves(s.service, n.service, if kind.Service? then gone else {})
    && Evolves(s.exchange, n.exchange, if kind.Exchange? then gone else {})
  }

  lemma FrameCall(s: System, n: System, c: Call, kind: Kind, gone: set<nat>)
    requires LanesEvolve(s, n, kind, gone) && CallOk(s, c)
    requires forall f :: f in gone ==> InFlight(s.Of(kind), f) && !Starts(c, kind, f)
    ensures CallOk(n, c)
  {
    if c.stage.Waiting? && c.stage.starter && c.stage.kind == kind {
      assert c.stage.fetch in gone ==> Starts(c, kind, c.stage.fetch);
    }
  }

  lemma FrameRefused(s: System, n: System, b: Bearer, kind: Kind, gone: set<nat>)
    requires LanesEvolve(s, n, kind, gone) && Banished(s, b)
    requires forall f :: f in gone ==> InFlight(s.Of(kind), f)
    ensures Banished(n, b)
  {
  }

  lemma Frame(s: System, n: System, digest: string -> string, kind: Kind, gone: set<nat>)
    requires Inv(s, digest) && LanesEvolve(s, n, kind, gone)
    requires forall f :: f in gone ==> InFlight(s.Of(kind), f)
    ensures forall i :: 0 <= i < |s.calls| && (forall f :: f in gone ==> !Starts(s.calls[i], kind, f)) ==>
              CallOk(n, s.calls[i])
    ensures forall b :: b in s.refused ==> Banished(n, b)
    ensures forall h :: h in s.hits ==> HitOk(n, h)
  {
    forall i | 0 <= i < |s.calls| && (forall f :: f in gone ==> !Starts(s.calls[i], kind, f))
      ensures CallOk(n, s.calls[i])
    {
      FrameCall(s, n, s.calls[i], kind, gone);
    }
    forall b | b in s.refused ensures Banished(n, b) {
      FrameRefused(s, n, b, kind, gone);
    }
    forall h | h in s.hits ensures HitOk(n, h) {
      assert HitOk(s, h);
    }
  }

  /** Only call `i` moves, and it moves to a stage that suits it. */
  lemma Moved(s: System, n: System, digest: string -> string, i: nat, kind: Kind, gone: set<nat>)
    requires Inv(s, digest) && LanesEvolve(s, n, kind, gone)
    requires i < |s.calls| && |n.calls| == |s.calls|
    requires forall f :: f in gone ==> Starts(s.calls[i], kind, f) && InFlight(s.Of(kind), f)
    requires forall j :: 0 <= j < |s.calls| && j != i ==> n.calls[j] == s.calls[j]
    requires CallOk(n, n.calls[i])
    requires forall j, k, f :: 0 <= j < |s.calls| && j != i && Starts(n.calls[i], k, f) ==> !Starts(s.calls[j], k, f)
    ensures (forall j :: 0 <= j < |n.calls| ==> CallOk(n, n.calls[j])) && OneStarter(n)
    ensures forall b :: b in s.refused ==> Banished(n, b)
    ensures forall h :: h in s.hits ==> HitOk(n, h)
  {
    Frame(s, n, digest, kind, gone);
    forall j | 0 <= j < |n.calls| ensures CallOk(n, n.calls[j]) {
      if j != i {
        forall f | f in gone ensures !Starts(s.calls[j], kind, f) {
          assert Starts(s.calls[i], kind, f);
        }
      }
    }
  }

  /** What a token request comes back with was, or will be, minted for exactly this grant. */
  lemma AskGrant(s: System, digest: string -> string, kind: Kind, key: string, grant: Grant)
    requires HexDigest(digest) && Inv(s, digest)
    requires kind.Service? ==> grant == Grant(None, key)
    requires kind.Exchange? ==> grant.subject.Some? && key == ExchangeKey(digest, grant.subject.value, grant.scope)
    ensures var (m, t) := Begin(s.Of(kind), key, grant, s.now);
      && LaneInv(m, Bounded(kind)) && Evolves(s.Of(kind), m, {}) && KeysMatchGrants(s.With(kind, m), digest)
      && (t.Hit? ==>
            && t.mint < |m.fetches| && m.fetches[t.mint].state.Ready? && m.fetches[t.mint].grant == grant
            && m.fetches[t.mint].state.cached.expiresAtMs > s.now && Holds(m, t.mint) && !InFlight(m, t.mint))
      && (t.Wait? ==> InFlight(m, t.fetch) && m.fetches[t.fetch].grant == grant)
      && (t.Wait? && t.starter ==> t.fetch == |s.Of(kind).fetches|)
  {
    var l := s.Of(kind);
    BeginKeeps(l, key, grant, s.now, Bounded(kind));
    var (m, t) := Begin(l, key, grant, s.now);
    var f := if t.Hit? then t.mint else t.fetch;
    assert m.fetches[f].key == key;
    if f < |l.fetches| && kind.Exchange? {
      var g := l.fetches[f].grant;
      ExchangeKeyInjective(digest, g.subject.value, g.scope, grant.subject.value, grant.scope);
    }
  }

  lemma AskHit(s: System, digest: string -> string, i: nat, kind: Kind, key: string, grant: Grant)
    requires HexDigest(digest) && Inv(s, digest) && i < |s.calls|
    requires Suits(s.calls[i].options, kind, grant)
    requires kind.Service? ==> grant == Grant(None, key)
    requires kind.Exchange? ==> grant.subject.Some? && key == ExchangeKey(digest, grant.subject.value, grant.scope)
    requires Begin(s.Of(kind), key, grant, s.now).1.Hit?
    ensures Inv(Ask(s, i, kind, key, grant), digest)
  {
    AskGrant(s, digest, kind, key, grant);
    var m := Begin(s.Of(kind), key, grant, s.now).1.mint;
    var b := Minted(kind, m);
    forall r | r in s.refused ensures r != b { assert Banished(s, r); }
    var n := s.Move(i, Holding(b)).(hits := s.hits + [CacheHit(kind, m, s.now, false)]);
    assert Ask(s, i, kind, key, grant) == n;
    assert n.service == s.service && n.exchange == s.exchange;
    EvolvesSame(s.service);
    EvolvesSame(s.exchange);
    Moved(s, n, digest, i, kind, {});
    HitNoted(s, n, digest, CacheHit(kind, m, s.now, false));
  }

  lemma HitNoted(s: System, n: System, digest: string -> string, h: CacheHit)
    requires n.service == s.service && n.exchange == s.exchange && n.hits == s.hits + [h] && HitOk(n, h)
    requires forall x :: x in s.hits ==> HitOk(n, x)
    ensures forall x :: x in n.hits ==> HitOk(n, x)
  {
    assert forall x :: x in n.hits <==> x in s.hits || x == h;
  }

  /** Keys and grants of the fetches only grow with the log. */
  lemma GrantsFrame(s: System, n: System, digest: string -> string, kind: Kind, gone: set<nat>)
    requires LanesEvolve(s, n, kind, gone) && KeysMatchGrants(s, digest)
    requires |n.service.fetches| == |s.service.fetches| && |n.exchange.fetches| == |s.exchange.fetches|
    ensures KeysMatchGrants(n, digest)
  {
  }

  lemma AskKeeps(s: System, digest: string -> string, i: nat, kind: Kind, key: string, grant: Grant)
    requires HexDigest(digest) && Inv(s, digest) && i < |s.calls|
    requires !s.calls[i].stage.Waiting?
    requires Suits(s.calls[i].options, kind, grant)
    requires kind.Service? ==> grant == Grant(None, key)
    requires kind.Exchange? ==> grant.subject.Some? && key == ExchangeKey(digest, grant.subject.value, grant.scope)
    ensures Inv(Ask(s, i, kind, key, grant), digest)
  {
    AskGrant(s, digest, kind, key, grant);
    var (m, t) := Begin(s.Of(kind), key, grant, s.now);
    if t.Hit? {
      AskHit(s, digest, i, kind, key, grant);
    } else {
      var n := Ask(s, i, kind, key, grant);
      EvolvesSame(s.service);
      EvolvesSame(s.exchange);
      assert n.Of(kind) == m;
      forall j | t.starter && 0 <= j < |s.calls| ensures !Starts(s.calls[j], kind, t.fetch) {
        assert CallOk(s, s.calls[j]);
      }
      Moved(s, n, digest, i, kind, {});
    }
  }

  lemma ResumeKeeps(s: System, digest: string -> string, i: nat)
    requires Inv(s, digest) && Enabled(s, Advance(i)) && s.calls[i].stage.Waiting?
    ensures Inv(Next(s, digest, Advance(i)), digest)
  {
    if s.calls[i].stage.starter {
      StarterKeeps(s, digest, i);
    } else {
      JoinerKeeps(s, digest, i);
    }
  }

  lemma StarterKeeps(s: System, digest: string -> string, i: nat)
    requires Inv(s, digest) && Enabled(s, Advance(i)) && s.calls[i].stage.Waiting? && s.calls[i].stage.starter
    ensures Inv(Next(s, digest, Advance(i)), digest)
  {
    var Waiting(kind, f, starter) := s.calls[i].stage;
    var n := Next(s, digest, Advance(i));
    assert CallOk(s, s.calls[i]);
    EvolvesSame(s.service);
    EvolvesSame(s.exchange);
    FinishKeeps(s.Of(kind), f, Bounded(kind));
    Moved(s, n, digest, i, kind, {f});
    GrantsFrame(s, n, digest, kind, {f});
  }

  lemma JoinerKeeps(s: System, digest: string -> string, i: nat)
    requires Inv(s, digest) && Enabled(s, Advance(i)) && s.calls[i].stage.Waiting? && !s.calls[i].stage.starter
    ensures Inv(Next(s, digest, Advance(i)), digest)
  {
    var kind := s.calls[i].stage.kind;
    var n := Next(s, digest, Advance(i));
    assert CallOk(s, s.calls[i]);
    EvolvesSame(s.service);
    EvolvesSame(s.exchange);
    Moved(s, n, digest, i, kind, {});
    GrantsFrame(s, n, digest, kind, {});
  }

  lemma AnswerKeeps(s: System, digest: string -> string, kind: Kind, f: nat, answer: TokenAnswer)
    requires Inv(s, digest) && Enabled(s, Answer(kind, f, answer))
    ensures Inv(Next(s, digest, Answer(kind, f, answer)), digest)
  {
    var n := Next(s, digest, Answer(kind, f, answer));
    LandKeeps(s.Of(kind), f, answer, s.now, Bounded(kind));
    EvolvesSame(s.service);
    EvolvesSame(s.exchange);
    Frame(s, n, digest, kind, {});
    GrantsFrame(s, n, digest, kind, {});
  }

  lemma RespondKeeps(s: System, digest: string -> string, i: nat, status: int)
    requires Inv(s, digest) && Enabled(s, Respond(i, status))
    ensures Inv(Reply(s, digest, i, status), digest)
  {
    assert CallOk(s, s.calls[i]);
    if status == 401 && s.calls[i].options.apiKey.None? {
      RefusedKeeps(s, digest, i);
    } else {
      EvolvesSame(s.service);
      EvolvesSame(s.exchange);
      Moved(s, s.Move(i, Closed(status)), digest, i, Service, {});
    }
  }

  lemma RefusedKeeps(s: System, digest: string -> string, i: nat)
    requires Inv(s, digest) && Enabled(s, Respond(i, 401)) && s.calls[i].options.apiKey.None?
    ensures Inv(Reply(s, digest, i, 401), digest)
  {
    var o, b := s.calls[i].options, s.calls[i].stage.bearer;
    var n := Reply(s, digest, i, 401);
    assert CallOk(s, s.calls[i]);
    BearerForgotten(s, digest, i);
    ForgetKeeps(s.service, o.scope, false);
    if o.userToken.Some? {
      ForgetKeeps(s.exchange, ExchangeKey(digest, o.userToken.value, o.scope), true);
    } else {
      EvolvesSame(s.exchange);
    }
    Moved(s, n, digest, i, Service, {});
  }

  /** Whichever cache the refused token came from, its key there is one of those cleared. */
  lemma BearerForgotten(s: System, digest: string -> string, i: nat)
    requires Inv(s, digest) && Enabled(s, Respond(i, 401)) && s.calls[i].options.apiKey.None?
    ensures Banished(Reply(s, digest, i, 401), s.calls[i].stage.bearer)
  {
    var o, b := s.calls[i].options, s.calls[i].stage.bearer;
    assert CallOk(s, s.calls[i]);
    assert b.Minted? && Suits(o, b.kind, s.Of(b.kind).fetches[b.mint].grant);
    ForgetKeeps(s.service, o.scope, false);
    if o.userToken.Some? {
      ForgetKeeps(s.exchange, ExchangeKey(digest, o.userToken.value, o.scope), true);
    }
  }

  lemma OutsideKeeps(s: System, digest: string -> string, step: Step)
    requires Inv(s, digest) && (step.Tick? || step.Arrive?)
    ensures Inv(Next(s, digest, step), digest)
  {
    EvolvesSame(s.service);
    EvolvesSame(s.exchange);
    Frame(s, Next(s, digest, step), digest, Service, {});
  }

  lemma StepKeeps(s: System, digest: string -> string, step: Step)
    requires HexDigest(digest) && Inv(s, digest) && Enabled(s, step)
    ensures Inv(Next(s, digest, step), digest)
  {
    match step
    case Tick(_) => OutsideKeeps(s, digest, step);
    case Arrive(_) => OutsideKeeps(s, digest, step);
    case Answer(k, f, answer) => AnswerKeeps(s, digest, k, f, answer);
    case Respond(i, status) => RespondKeeps(s, digest, i, status);
    case Advance(i) => AdvanceKeeps(s, digest, i);
  }

  lemma AdvanceKeeps(s: System, digest: string -> string, i: nat)
    requires HexDigest(digest) && Inv(s, digest) && Enabled(s, Advance(i))
    ensures Inv(Next(s, digest, Advance(i)), digest)
  {
    var o := s.calls[i].options;
    assert CallOk(s, s.calls[i]);
    if s.calls[i].stage.Waiting? {
      ResumeKeeps(s, digest, i);
    } else if s.calls[i].stage.NeedsService? {
      AskKeeps(s, digest, i, Service, o.scope, Grant(None, o.scope));
    } else if s.calls[i].stage.Arrived? && o.apiKey.None? && o.userToken.Some? {
      AskKeeps(s, digest, i, Exchange, ExchangeKey(digest, o.userToken.value, o.scope), Grant(o.userToken, o.scope));
    } else {
      var n := Next(s, digest, Advance(i));
      EvolvesSame(s.service);
      EvolvesSame(s.exchange);
      Moved(s, n, digest, i, Service, {});
    }
  }

  lemma {:induction false} RunKeeps(s: System, digest: string -> string, run: seq<Step>)
    requires HexDigest(digest) && Inv(s, digest) && Possible(s, digest, run)
    ensures Inv(After(s, digest, run), digest)
    decreases |run|
  {
    if run != [] {
      StepKeeps(s, digest, run[0]);
      RunKeeps(Next(s, digest, run[0]), digest, run[1..]);
    }
  }

  // ---- main results -------------------------------------------------------------------------

  /** In every interleaving: one outstanding fetch per key in each cache, and a bounded cache. */
  lemma SingleFlightAndBounded(s: System, digest: string -> string, run: seq<Step>, kind: Kind, f: nat, g: nat)
    requires HexDigest(digest) && Initial(s) && Possible(s, digest, run)
    ensures var n := After(s, digest, run);
      && |n.exchange.cache.order| <= 500
      && n.exchange.cache.at.Keys == set k | k in n.exchange.cache.order
      && (f < |n.Of(kind).fetches| && g < |n.Of(kind).fetches| && f != g
            && n.Of(kind).fetches[f].state.Pending? && n.Of(kind).fetches[g].state.Pending? ==>
          n.Of(kind).fetches[f].key != n.Of(kind).fetches[g].key)
  {
    RunKeeps(s, digest, run);
    var n := After(s, digest, run);
    assert f < |n.Of(kind).fetches| && n.Of(kind).fetches[f].state.Pending? ==> InFlight(n.Of(kind), f);
    assert g < |n.Of(kind).fetches| && n.Of(kind).fetches[g].state.Pending? ==> InFlight(n.Of(kind), g);
  }

  /** Every answer came in the past, and no cache served a token before it was answered. */
  ghost predicate Dated(s: System) {
    && LaneDated(s.service, s.now) && LaneDated(s.exchange, s.now)
    && forall h :: h in s.hits ==> HitDated(s, h)
  }

  ghost predicate LaneDated(l: Lane, now: int) {
    forall f :: 0 <= f < |l.fetches| && l.fetches[f].state.Ready? ==> l.fetches[f].state.at <= now
  }

  ghost predicate HitDated(s: System, h: CacheHit) {
    && h.mint < |s.Of(h.kind).fetches| && s.Of(h.kind).fetches[h.mint].state.Ready?
    && s.Of(h.kind).fetches[h.mint].state.at <= h.at
  }

  /** A step that answers no fetch, and its hits. */
  lemma StaysDated(s: System, n: System)
    requires Dated(s) && n.service.fetches == s.service.fetches && n.exchange.fetches == s.exchange.fetches
    requires s.now <= n.now && forall h :: h in n.hits ==> h in s.hits || HitDated(s, h)
    ensures Dated(n)
  {
  }

  lemma AskDated(s: System, digest: string -> string, i: nat, kind: Kind, key: string, grant: Grant)
    requires Inv(s, digest) && Dated(s) && i < |s.calls|
    ensures Dated(Ask(s, i, kind, key, grant))
  {
    var n := Ask(s, i, kind, key, grant);
    var (l, t) := Begin(s.Of(kind), key, grant, s.now);
    BeginKeeps(s.Of(kind), key, grant, s.now, Bounded(kind));
    if t.Hit? {
      assert n.hits == s.hits + [CacheHit(kind, t.mint, s.now, Minted(kind, t.mint) in s.refused)];
      StaysDated(s, n);
    } else if t.starter {
      GrownDated(s, n, kind, Fetch(key, grant, Pending));
    } else {
      StaysDated(s, n);
    }
  }

  lemma GrownDated(s: System, n: System, kind: Kind, f: Fetch)
    requires Dated(s) && n.now == s.now && n.hits == s.hits && !f.state.Ready?
    requires n.Of(kind).fetches == s.Of(kind).fetches + [f]
    requires if kind.Service? then n.exchange == s.exchange else n.service == s.service
    ensures Dated(n)
  {
  }

  lemma AnswerDated(s: System, kind: Kind, f: nat, answer: TokenAnswer)
    requires Dated(s) && f < |s.Of(kind).fetches| && s.Of(kind).fetches[f].state.Pending?
    ensures Dated(s.With(kind, Land(s.Of(kind), f, answer, s.now)))
  {
  }

  lemma AdvanceDated(s: System, digest: string -> string, i: nat)
    requires Inv(s, digest) && Dated(s) && Enabled(s, Advance(i))
    ensures Dated(Next(s, digest, Advance(i)))
  {
    var o, stage := s.calls[i].options, s.calls[i].stage;
    if stage.NeedsService? {
      AskDated(s, digest, i, Service, o.scope, Grant(None, o.scope));
    } else if stage.Arrived? && o.apiKey.None? && o.userToken.Some? {
      AskDated(s, digest, i, Exchange, ExchangeKey(digest, o.userToken.value, o.scope), Grant(o.userToken, o.scope));
    } else {
      StaysDated(s, Next(s, digest, Advance(i)));
    }
  }

  lemma StepDated(s: System, digest: string -> string, step: Step)
    requires Inv(s, digest) && Dated(s) && Enabled(s, step)
    ensures Dated(Next(s, digest, step))
  {
    match step
    case Answer(kind, f, answer) => AnswerDated(s, kind, f, answer);
    case Advance(i) => AdvanceDated(s, digest, i);
    case _ => StaysDated(s, Next(s, digest, step));
  }

  lemma {:induction false} RunDated(s: System, digest: string -> string, run: seq<Step>)
    requires HexDigest(digest) && Inv(s, digest) && Dated(s) && Possible(s, digest, run)
    ensures Dated(After(s, digest, run))
    decreases |run|
  {
    if run != [] {
      StepKeeps(s, digest, run[0]);
      StepDated(s, digest, run[0]);
      RunDated(Next(s, digest, run[0]), digest, run[1..]);
    }
  }

  /** In every interleaving: a token answered from a cache had come from the auth service by then,
      had at least 30 s of its life left (of 5 minutes, if none was given), and had not been refused
      by the backend before. */
  lemma CachesServeLiveTokens(s: System, digest: string -> string, run: seq<Step>, h: CacheHit)
    requires HexDigest(digest) && Initial(s) && Possible(s, digest, run)
    requires h in After(s, digest, run).hits
    ensures var n := After(s, digest, run);
      && !h.refusedBefore && h.mint < |n.Of(h.kind).fetches| && n.Of(h.kind).fetches[h.mint].state.Ready?
      && (var token := n.Of(h.kind).fetches[h.mint].state;
          token.at <= h.at < token.at + ((if token.expiresIn.Some? then token.expiresIn.value else 300) - 30) * 1000)
  {
    RunKeeps(s, digest, run);
    RunDated(s, digest, run);
    var n := After(s, digest, run);
    assert HitOk(n, h) && HitDated(n, h);
    assert LaneInv(n.Of(h.kind), Bounded(h.kind));
    assert RightExpiry(n.Of(h.kind).fetches[h.mint].state);
  }

  // ---- progress -----------------------------------------------------------------------------

  /** Every outstanding promise has a call that will settle it in the cache. */
  ghost predicate Driven(s: System) {
    LaneDriven(s, Service) && LaneDriven(s, Exchange)
  }

  ghost predicate LaneDriven(s: System, kind: Kind) {
    forall f :: 0 <= f < |s.Of(kind).fetches| && InFlight(s.Of(kind), f) ==> HasStarter(s, kind, f)
  }

  ghost predicate HasStarter(s: System, kind: Kind, f: nat) {
    exists j :: 0 <= j < |s.calls| && Starts(s.calls[j], kind, f)
  }

  /** Only call `i` moves, and only what it started itself leaves flight. */
  lemma StaysDriven(s: System, n: System, i: nat, kind: Kind)
    requires LaneDriven(s, kind) && i < |s.calls| <= |n.calls|
    requires forall j :: 0 <= j < |s.calls| && j != i ==> n.calls[j] == s.calls[j]
    requires forall f :: 0 <= f < |n.Of(kind).fetches| && InFlight(n.Of(kind), f) ==>
      || Starts(n.calls[i], kind, f)
      || (f < |s.Of(kind).fetches| && InFlight(s.Of(kind), f) && !Starts(s.calls[i], kind, f))
    ensures LaneDriven(n, kind)
  {
    forall f | 0 <= f < |n.Of(kind).fetches| && InFlight(n.Of(kind), f) ensures HasStarter(n, kind, f) {
      if Starts(n.calls[i], kind, f) {
        assert HasStarter(n, kind, f);
      } else {
        var j :| 0 <= j < |s.calls| && Starts(s.calls[j], kind, f);
        assert Starts(n.calls[j], kind, f);
      }
    }
  }

  lemma AskFlights(s: System, digest: string -> string, i: nat, kind: Kind, key: string, grant: Grant)
    requires Inv(s, digest) && i < |s.calls|
    ensures var n := Ask(s, i, kind, key, grant);
      forall f :: 0 <= f < |n.Of(kind).fetches| && InFlight(n.Of(kind), f) ==>
        Starts(n.calls[i], kind, f) || (f < |s.Of(kind).fetches| && InFlight(s.Of(kind), f))
  {
    BeginKeeps(s.Of(kind), key, grant, s.now, Bounded(kind));
  }

  lemma AskDriven(s: System, digest: string -> string, i: nat, kind: Kind, key: string, grant: Grant, other: Kind)
    requires Inv(s, digest) && LaneDriven(s, other) && i < |s.calls| && !s.calls[i].stage.Waiting?
    ensures LaneDriven(Ask(s, i, kind, key, grant), other)
  {
    var n := Ask(s, i, kind, key, grant);
    if kind == other {
      AskFlights(s, digest, i, kind, key, grant);
    } else {
      assert n.Of(other) == s.Of(other);
    }
    StaysDriven(s, n, i, other);
  }

  lemma ResumeDriven(s: System, digest: string -> string, i: nat, other: Kind)
    requires Inv(s, digest) && LaneDriven(s, other) && Enabled(s, Advance(i)) && s.calls[i].stage.Waiting?
    ensures LaneDriven(Next(s, digest, Advance(i)), other)
  {
    var Waiting(kind, f, starter) := s.calls[i].stage;
    assert CallOk(s, s.calls[i]);
    if starter {
      FinishKeeps(s.Of(kind), f, Bounded(kind));
    }
    StaysDriven(s, Next(s, digest, Advance(i)), i, other);
  }

  lemma AdvanceDriven(s: System, digest: string -> string, i: nat, other: Kind)
    requires Inv(s, digest) && LaneDriven(s, other) && Enabled(s, Advance(i))
    ensures LaneDriven(Next(s, digest, Advance(i)), other)
  {
    var o, stage := s.calls[i].options, s.calls[i].stage;
    if stage.Waiting? {
      ResumeDriven(s, digest, i, other);
    } else if stage.NeedsService? {
      AskDriven(s, digest, i, Service, o.scope, Grant(None, o.scope), other);
    } else if stage.Arrived? && o.apiKey.None? && o.userToken.Some? {
      AskDriven(s, digest, i, Exchange, ExchangeKey(digest, o.userToken.value, o.scope),
                Grant(o.userToken, o.scope), other);
    } else {
      StaysDriven(s, Next(s, digest, Advance(i)), i, other);
    }
  }

  lemma RespondFlights(s: System, digest: string -> string, i: nat, status: int, kind: Kind)
    requires Enabled(s, Respond(i, status))
    ensures var n := Next(s, digest, Respond(i, status));
      n.Of(kind).inFlight == s.Of(kind).inFlight && n.Of(kind).fetches == s.Of(kind).fetches
  {
  }

  lemma RespondDriven(s: System, digest: string -> string, i: nat, status: int, other: Kind)
    requires Inv(s, digest) && LaneDriven(s, other) && Enabled(s, Respond(i, status))
    ensures LaneDriven(Next(s, digest, Respond(i, status)), other)
  {
    var n := Next(s, digest, Respond(i, status));
    RespondFlights(s, digest, i, status, other);
    forall f | 0 <= f < |n.Of(other).fetches| && InFlight(n.Of(other), f) ensures InFlight(s.Of(other), f) {
    }
    StaysDriven(s, n, i, other);
  }

  /** Time passes, a call arrives, or the auth service answers: no call moves and no flight ends. */
  lemma OutsideDriven(s: System, digest: string -> string, step: Step, kind: Kind)
    requires Inv(s, digest) && LaneDriven(s, kind) && Enabled(s, step)
    requires step.Tick? || step.Arrive? || step.Answer?
    ensures LaneDriven(Next(s, digest, step), kind)
  {
    var n := Next(s, digest, step);
    forall f | 0 <= f < |n.Of(kind).fetches| && InFlight(n.Of(kind), f) ensures HasStarter(n, kind, f) {
      assert InFlight(s.Of(kind), f);
      var j :| 0 <= j < |s.calls| && Starts(s.calls[j], kind, f);
      assert Starts(n.calls[j], kind, f);
    }
  }

  lemma StepDriven(s: System, digest: string -> string, step: Step, kind: Kind)
    requires Inv(s, digest) && LaneDriven(s, kind) && Enabled(s, step)
    ensures LaneDriven(Next(s, digest, step), kind)
  {
    match step
    case Advance(i) => AdvanceDriven(s, digest, i, kind);
    case Respond(i, status) => RespondDriven(s, digest, i, status, kind);
    case _ => OutsideDriven(s, digest, step, kind);
  }

  lemma {:induction false} RunDriven(s: System, digest: string -> string, run: seq<Step>)
    requires HexDigest(digest) && Inv(s, digest) && Driven(s) && Possible(s, digest, run)
    ensures Driven(After(s, digest, run))
    decreases |run|
  {
    if run != [] {
      StepKeeps(s, digest, run[0]);
      StepDriven(s, digest, run[0], Service);
      StepDriven(s, digest, run[0], Exchange);
      RunDriven(Next(s, digest, run[0]), digest, run[1..]);
    }
  }

  /** No interleaving leaves a call stuck. Unless it is closed, it can go on by itself, or the backend
      may answer it, or the auth service may answer its fetch, or the call that started the fetch can
      go on. */
  lemma NoCallIsStuck(s: System, digest: string -> string, run: seq<Step>, i: nat)
    requires HexDigest(digest) && Initial(s) && Possible(s, digest, run) && i < |After(s, digest, run).calls|
    ensures var n := After(s, digest, run); var stage := n.calls[i].stage;
      || stage.Closed?
      || Enabled(n, Advance(i))
      || (stage.Sent? && forall status :: Enabled(n, Respond(i, status)))
      || (stage.Waiting? && forall answer :: Enabled(n, Answer(stage.kind, stage.fetch, answer)))
      || (stage.Waiting? && exists j :: 0 <= j < |n.calls| && j != i && Enabled(n, Advance(j))
                                         && Starts(n.calls[j], stage.kind, stage.fetch))
  {
    RunKeeps(s, digest, run);
    RunDriven(s, digest, run);
    var n := After(s, digest, run);
    assert CallOk(n, n.calls[i]);
    var stage := n.calls[i].stage;
    if stage.Waiting? && !n.Of(stage.kind).fetches[stage.fetch].state.Pending? && !Enabled(n, Advance(i)) {
      assert InFlight(n.Of(stage.kind), stage.fetch);
      assert LaneDriven(n, stage.kind) && HasStarter(n, stage.kind, stage.fetch);
      var j :| 0 <= j < |n.calls| && Starts(n.calls[j], stage.kind, stage.fetch);
      assert Enabled(n, Advance(j));
    }
  }

  /** The auth service's answer is recorded with the time on the clock and the lifetime it gave. */
  lemma AnswerIsDated(s: System, digest: string -> string, kind: Kind, f: nat, answer: TokenAnswer)
    requires Inv(s, digest) && Enabled(s, Answer(kind, f, answer))
    ensures var state := Next(s, digest, Answer(kind, f, answer)).Of(kind).fetches[f].state;
      && (state.Ready? <==> answer.Granted?)
      && (state.Ready? ==> state.at == s.now && state.expiresIn == answer.expiresIn)
  {
    LandRecords(s.Of(kind), f, answer, s.now);
  }

  /** What a failed fetch means for the call: 403 for an end user's call that must keep its identity,
      the service token for any other exchange, and an error once that fails too. */
  lemma FailureMeans(s: System, digest: string -> string, i: nat)
    requires Inv(s, digest) && Enabled(s, Advance(i)) && s.calls[i].stage.Waiting?
    requires s.Of(s.calls[i].stage.kind).fetches[s.calls[i].stage.fetch].state.Failed?
    ensures var o, was, stage := s.calls[i].options, s.calls[i].stage, Next(s, digest, Advance(i)).calls[i].stage;
      && (stage == Closed(403) <==> was.kind.Exchange? && o.userToken.Some? && o.requireUserIdentity)
      && (stage == NeedsService <==> was.kind.Exchange? && !o.requireUserIdentity)
      && (stage == Closed(500) <==> was.kind.Service?)
  {
    assert CallOk(s, s.calls[i]);
  }

  /** In every interleaving, whatever reaches the backend is the call's own key, or a token minted
      for exactly the call's scope and (if exchanged) its user; and a call that must keep its
      user's identity, and has no key of its own, only ever sends a token exchanged for that user. */
  lemma CredentialsFit(s: System, digest: string -> string, run: seq<Step>, i: nat)
    requires HexDigest(digest) && Initial(s) && Possible(s, digest, run)
    requires i < |After(s, digest, run).calls| && After(s, digest, run).calls[i].stage.Sent?
    ensures var n := After(s, digest, run); var o, b := n.calls[i].options, n.calls[i].stage.bearer;
      && (b.Static? <==> o.apiKey.Some?)
      && (b.Static? ==> o.apiKey == Some(b.apiKey))
      && (b.Minted? ==>
            && b.mint < |n.Of(b.kind).fetches|
            && n.Of(b.kind).fetches[b.mint].grant == Grant(if b.kind.Exchange? then o.userToken else None, o.scope))
      && (o.apiKey.None? && o.userToken.Some? && o.requireUserIdentity ==> b.Minted? && b.kind.Exchange?)
  {
    RunKeeps(s, digest, run);
    assert CallOk(After(s, digest, run), After(s, digest, run).calls[i]);
  }
}
