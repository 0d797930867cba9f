/**
  Silent session renewal: the single-flight memory of refresh-token rotations kept by
  brain-landing/lib/token-refresh.ts, run against a provider that rotates a refresh token when
  it is used (section 6 of RFC 6749) and revokes the whole family when a rotated one is used
  again (section 4.14.2 of RFC 9700).

  The promise that one provider exchange resolves is a `Flight`; promises are named by their
  index in the log of exchanges sent so far.
 */
module TokenRefresh {
  import opened Collections

  type Token = nat

  const ROTATION_GRACE_MS := 60_000

  datatype RefreshedTokens = RefreshedTokens(access: nat, refresh: Option<Token>)

  datatype Entry = Entry(at: int, flight: nat)

  type Memory = map<Token, Entry>

  function Swept(memory: Memory, now: int): Memory {
    map t | t in memory && now - memory[t].at <= ROTATION_GRACE_MS :: memory[t]
  }

  /** The memory after a request for `token`, when a new exchange would be named `flight`. */
  function AfterRequest(memory: Memory, now: int, token: Token, flight: nat): Memory {
    var kept := Swept(memory, now);
    if token in kept then kept else kept[token := Entry(now, flight)]
  }

  function AfterSettling(memory: Memory, token: Token, tokens: Option<RefreshedTokens>): Memory {
    if tokens.None? then memory - {token} else memory
  }

  /** The module-level `rotations` map with the two pieces of code that touch it. */
  class RotationMemory {
    var rotations: Memory

    constructor ()
      ensures rotations == map[]
    {
      rotations := map[];
    }

    /** `flight` is the promise awaited; `started` says the provider is asked anew. */
    method RefreshAccessToken(token: Token, now: int, unused: nat) returns (flight: nat, started: bool)
      modifies this
      ensures rotations == AfterRequest(old(rotations), now, token, unused)
      ensures started <==> token !in Swept(old(rotations), now)
      ensures flight == if started then unused else old(rotations)[token].flight
    {
      var unseen := rotations.Keys;
      while unseen != {}
        invariant unseen <= old(rotations).Keys
        invariant rotations == map t | t in old(rotations)
          && (t in unseen || now - old(rotations)[t].at <= ROTATION_GRACE_MS) :: old(rotations)[t]
        decreases unseen
      {
        var key :| key in unseen;
        if now - rotations[key].at > ROTATION_GRACE_MS {
          rotations := rotations - {key};
        }
        unseen := unseen - {key};
      }
      assert rotations == Swept(old(rotations), now);
      if token in rotations {
        return rotations[token].flight, false;
      }
      rotations := rotations[token := Entry(now, unused)];
      return unused, true;
    }

    /** The continuation registered on the promise. */
    method OnSettled(token: Token, tokens: Option<RefreshedTokens>)
      modifies this
      ensures rotations == AfterSettling(old(rotations), token, tokens)
    {
      if tokens.None? {
        rotations := rotations - {token};
      }
    }
  }

  // ---- the provider -------------------------------------------------------------------------

  datatype Reply = Refused | Renewed(access: nat) | Rotated(access: nat, next: Token)

  datatype Verdict = Refuse | Keep | Rotate

  /** `family` names the login a refresh token descends from; tokens below `mint` are in use. */
  datatype Provider = Provider(mint: nat, family: map<Token, nat>, rotated: set<Token>, revoked: set<nat>)

  function Exchange(p: Provider, token: Token, verdict: Verdict): (Provider, Reply) {
    if token !in p.family || p.family[token] in p.revoked then (p, Refused)
    else if token in p.rotated then (p.(revoked := p.revoked + {p.family[token]}), Refused)
    else match verdict
      case Refuse => (p, Refused)
      case Keep => (p.(mint := p.mint + 1), Renewed(p.mint))
      case Rotate =>
        (p.(mint := p.mint + 2, family := p.family[p.mint + 1 := p.family[token]], rotated := p.rotated + {token}),
         Rotated(p.mint, p.mint + 1))
  }

  // ---- the protocol -------------------------------------------------------------------------

  /** An exchange is on its way, answered by the provider, or its answer has come back; an
      answer that never arrived (`!heard`) resolves the promise to null like a refusal does. */
  datatype Stage = Sent | Answered(reply: Reply) | Settled(reply: Reply, heard: bool)

  datatype Flight = Flight(token: Token, at: int, stage: Stage)
  {
    predicate HasRotated() {
      !stage.Sent? && stage.reply.Rotated?
    }

    /** Still running, or it consumed its token. */
    predicate Open() {
      !stage.Settled? || HasRotated()
    }

    /** Resolved to null, so forgotten at once. */
    predicate CameToNothing() {
      stage.Settled? && Result().None?
    }

    predicate Lost() {
      stage.Settled? && !stage.heard
    }

    function Result(): Option<RefreshedTokens>
      requires stage.Settled?
    {
      if !stage.heard then None else match stage.reply
        case Refused => None
        case Renewed(a) => Some(RefreshedTokens(a, None))
        case Rotated(a, t) => Some(RefreshedTokens(a, Some(t)))
    }
  }

  datatype Request = Request(token: Token, at: int, flight: nat)

  datatype System = System(now: int, memory: Memory, flights: seq<Flight>, provider: Provider,
                           requests: seq<Request>)

  /** Time passes; a request with this refresh cookie arrives; the provider handles an exchange;
      its promise resolves. */
  datatype Step =
    | Tick(ms: nat)
    | Present(token: Token)
    | Process(flight: nat, verdict: Verdict)
    | Settle(flight: nat, heard: bool)

  predicate Enabled(s: System, step: Step) {
    match step
    case Tick(_) => true
    case Present(_) => true
    case Process(i, _) => i < |s.flights| && s.flights[i].stage.Sent?
    case Settle(i, _) => i < |s.flights| && s.flights[i].stage.Answered?
  }

  function Next(s: System, step: Step): System
    requires Enabled(s, step)
  {
    match step
    case Tick(ms) => s.(now := s.now + ms)
    case Present(t) =>
      var kept := Swept(s.memory, s.now);
      var memory := AfterRequest(s.memory, s.now, t, |s.flights|);
      if t in kept then
        s.(memory := memory, requests := s.requests + [Request(t, s.now, kept[t].flight)])
      else
        s.(memory := memory, flights := s.flights + [Flight(t, s.now, Sent)],
           requests := s.requests + [Request(t, s.now, |s.flights|)])
    case Process(i, v) =>
      var (p, reply) := Exchange(s.provider, s.flights[i].token, v);
      s.(provider := p, flights := s.flights[i := s.flights[i].(stage := Answered(reply))])
    case Settle(i, heard) =>
      var f := s.flights[i].(stage := Settled(s.flights[i].stage.reply, heard));
      s.(flights := s.flights[i := f], memory := AfterSettling(s.memory, f.token, f.Result()))
  }

  ghost predicate Initial(s: System) {
    && s.memory == map[] && s.flights == [] && s.requests == []
    && s.provider.rotated == {} && s.provider.revoked == {}
    && (forall t :: t in s.provider.family ==> t < s.provider.mint)
  }

  ghost predicate Possible(s: System, run: seq<Step>)
    decreases |run|
  {
    run == [] || (Enabled(s, run[0]) && Possible(Next(s, run[0]), run[1..]))
  }

  ghost function After(s: System, run: seq<Step>): System
    requires Possible(s, run)
    decreases |run|
  {
    if run == [] then s else After(Next(s, run[0]), run[1..])
  }

  // ---- when the guarantee holds -------------------------------------------------------------

  /** A request for `t` would not be joined to an exchange of `t` that is running or has
      consumed it: that exchange began longer than the window ago, or its answer was lost. */
  ghost predicate Unprotected(s: System, t: Token) {
    exists i :: 0 <= i < |s.flights| && s.flights[i].token == t && s.flights[i].Open()
      && (s.now - s.flights[i].at > ROTATION_GRACE_MS || s.flights[i].Lost())
  }

  /** Two exchanges of one token, each running or having consumed it. */
  ghost predicate Doubled(s: System) {
    exists i, j :: 0 <= i < j < |s.flights| && s.flights[i].token == s.flights[j].token
      && s.flights[i].Open() && s.flights[j].Open()
  }

  ghost predicate Clean(s: System, run: seq<Step>)
    requires Possible(s, run)
    decreases |run|
  {
    run != [] ==>
      && (run[0].Present? ==> !Unprotected(s, run[0].token))
      && Clean(Next(s, run[0]), run[1..])
  }

  ghost predicate NeverDoubled(s: System, run: seq<Step>)
    requires Possible(s, run)
    decreases |run|
  {
    !Doubled(s) && (run != [] ==> NeverDoubled(Next(s, run[0]), run[1..]))
  }

  // ---- the invariant ------------------------------------------------------------------------

  ghost predicate MemoryPoints(s: System) {
    forall t :: t in s.memory ==>
      var e := s.memory[t];
      e.flight < |s.flights| && s.flights[e.flight].token == t && s.flights[e.flight].at == e.at
  }

  ghost predicate Covered(s: System, i: nat)
    requires i < |s.flights|
  {
    var f := s.flights[i];
    && (f.Open() && f.token in s.memory ==> s.memory[f.token].flight == i && !f.Lost())
    && (!f.CameToNothing() && s.now - f.at <= ROTATION_GRACE_MS ==>
          f.token in s.memory && s.memory[f.token].flight == i)
  }

  ghost predicate ConsumedBy(s: System, t: Token, i: nat) {
    i < |s.flights| && s.flights[i].token == t && s.flights[i].HasRotated()
  }

  /** A later request of the same token, still inside the window, awaits the same promise. */
  ghost predicate Shared(s: System, p: nat, q: nat)
    requires p < q < |s.requests| && s.requests[p].flight < |s.flights|
  {
    var a, b, f := s.requests[p], s.requests[q], s.flights[s.requests[p].flight];
    a.token == b.token && !f.CameToNothing() && b.at - f.at <= ROTATION_GRACE_MS ==> b.flight == a.flight
  }

  ghost predicate RequestsAwait(s: System) {
    && (forall r :: 0 <= r < |s.requests| ==>
          s.requests[r].flight < |s.flights| && s.flights[s.requests[r].flight].token == s.requests[r].token)
    && (forall p, q :: 0 <= p < q < |s.requests| ==> Shared(s, p, q))
  }

  ghost predicate Inv(s: System) {
    && MemoryPoints(s)
    && !Doubled(s)
    && (forall i :: 0 <= i < |s.flights| ==> Covered(s, i))
    && (forall t :: t in s.provider.rotated ==> exists i :: ConsumedBy(s, t, i))
    && (forall i :: 0 <= i < |s.flights| && s.flights[i].HasRotated() ==> s.flights[i].token in s.provider.rotated)
    && s.provider.rotated <= s.provider.family.Keys
    && (forall t :: t in s.provider.family ==> t < s.provider.mint)
    && s.provider.revoked == {}
    && RequestsAwait(s)
  }

  /** Promises only move on, so what requests await is unaffected by anything but a request. */
  lemma RequestsStay(s: System, n: System)
    requires RequestsAwait(s) && n.requests == s.requests && |n.flights| == |s.flights|
    requires forall i :: 0 <= i < |s.flights| ==>
      && n.flights[i].token == s.flights[i].token && n.flights[i].at == s.flights[i].at
      && (s.flights[i].CameToNothing() ==> n.flights[i].CameToNothing())
    ensures RequestsAwait(n)
  {
    forall p, q | 0 <= p < q < |n.requests| ensures Shared(n, p, q) { assert Shared(s, p, q); }
  }

  lemma PresentShares(s: System, t: Token)
    requires Inv(s)
    ensures RequestsAwait(Next(s, Present(t)))
  {
    var n := Next(s, Present(t));
    forall p, q | 0 <= p < q < |n.requests| ensures Shared(n, p, q) {
      if q < |s.requests| {
        assert Shared(s, p, q);
      } else {
        assert Covered(s, s.requests[p].flight);
      }
    }
  }

  lemma PresentCovers(s: System, t: Token)
    requires Inv(s) && !Unprotected(s, t)
    ensures var n := Next(s, Present(t)); forall i :: 0 <= i < |n.flights| ==> Covered(n, i)
  {
    var n := Next(s, Present(t));
    forall i | 0 <= i < |n.flights| ensures Covered(n, i) {
      if i < |s.flights| { assert Covered(s, i); }
    }
  }

  lemma PresentJoins(s: System, t: Token)
    requires Inv(s) && !Unprotected(s, t)
    ensures !Doubled(Next(s, Present(t)))
  {
    forall i | 0 <= i < |s.flights| && s.flights[i].token == t && s.flights[i].Open()
      ensures t in Swept(s.memory, s.now)
    {
      assert Covered(s, i);
    }
  }

  lemma PresentKeeps(s: System, t: Token)
    requires Inv(s) && !Unprotected(s, t)
    ensures Inv(Next(s, Present(t)))
  {
    var n := Next(s, Present(t));
    PresentCovers(s, t);
    PresentJoins(s, t);
    PresentShares(s, t);
    forall x | x in n.provider.rotated ensures exists i :: ConsumedBy(n, x, i) {
      var i :| ConsumedBy(s, x, i);
      assert ConsumedBy(n, x, i);
    }
  }

  /** The provider is never handed a token it has rotated. */
  lemma NoReplay(s: System, i: nat, v: Verdict)
    requires Inv(s) && Enabled(s, Process(i, v))
    ensures s.flights[i].token !in s.provider.rotated
  {
    var t := s.flights[i].token;
    forall j ensures !ConsumedBy(s, t, j) {
      assert s.flights[i].Open();
    }
  }

  lemma ProcessKeeps(s: System, i: nat, v: Verdict)
    requires Inv(s) && Enabled(s, Process(i, v))
    ensures Inv(Next(s, Process(i, v)))
  {
    NoReplay(s, i, v);
    var n := Next(s, Process(i, v));
    assert forall j :: 0 <= j < |s.flights| ==> (n.flights[j].Open() ==> s.flights[j].Open());
    forall j | 0 <= j < |n.flights| ensures Covered(n, j) { assert Covered(s, j); }
    forall x | x in n.provider.rotated ensures exists j :: ConsumedBy(n, x, j) {
      if x in s.provider.rotated {
        var j :| ConsumedBy(s, x, j);
        assert ConsumedBy(n, x, j);
      } else {
        assert ConsumedBy(n, x, i);
      }
    }
    RequestsStay(s, n);
  }

  lemma SettleKeeps(s: System, i: nat, heard: bool)
    requires Inv(s) && Enabled(s, Settle(i, heard))
    ensures Inv(Next(s, Settle(i, heard)))
  {
    var n := Next(s, Settle(i, heard));
    assert forall j :: 0 <= j < |s.flights| ==> (n.flights[j].Open() ==> s.flights[j].Open());
    forall j | 0 <= j < |n.flights| ensures Covered(n, j) {
      assert Covered(s, j) && Covered(s, i);
    }
    forall x | x in n.provider.rotated ensures exists j :: ConsumedBy(n, x, j) {
      var j :| ConsumedBy(s, x, j);
      assert ConsumedBy(n, x, j);
    }
    RequestsStay(s, n);
  }

  lemma TickKeeps(s: System, ms: nat)
    requires Inv(s)
    ensures Inv(Next(s, Tick(ms)))
  {
    var n := Next(s, Tick(ms));
    forall i | 0 <= i < |n.flights| ensures Covered(n, i) { assert Covered(s, i); }
    forall x | x in n.provider.rotated ensures exists i :: ConsumedBy(n, x, i) {
      var i :| ConsumedBy(s, x, i);
      assert ConsumedBy(n, x, i);
    }
    RequestsStay(s, n);
  }

  lemma StepKeeps(s: System, step: Step)
    requires Inv(s) && Enabled(s, step)
    requires step.Present? ==> !Unprotected(s, step.token)
    ensures Inv(Next(s, step))
  {
    match step
    case Tick(ms) => TickKeeps(s, ms);
    case Present(t) => PresentKeeps(s, t);
    case Process(i, v) => ProcessKeeps(s, i, v);
    case Settle(i, heard) => SettleKeeps(s, i, heard);
  }

  /** An unprotected request always starts a second exchange beside the first. */
  lemma UnprotectedDoubles(s: System, t: Token)
    requires Inv(s) && Unprotected(s, t)
    ensures Doubled(Next(s, Present(t)))
  {
    var i :| 0 <= i < |s.flights| && s.flights[i].token == t && s.flights[i].Open()
      && (s.now - s.flights[i].at > ROTATION_GRACE_MS || s.flights[i].Lost());
    assert Covered(s, i);
    var n := Next(s, Present(t));
    if t in s.memory {
      assert s.memory[t].flight == i;
      assert s.memory[t].at == s.flights[i].at;
    }
    assert n.flights[i].Open() && n.flights[|s.flights|].Open();
  }

  // ---- main results -------------------------------------------------------------------------

  lemma {:induction false} ExactlyWhenFrom(s: System, run: seq<Step>)
    requires Inv(s) && Possible(s, run)
    ensures NeverDoubled(s, run) <==> Clean(s, run)
    ensures Clean(s, run) ==> Inv(After(s, run))
    decreases |run|
  {
    if run != [] {
      var step := run[0];
      if step.Present? && Unprotected(s, step.token) {
        UnprotectedDoubles(s, step.token);
      } else {
        StepKeeps(s, step);
        ExactlyWhenFrom(Next(s, step), run[1..]);
      }
    }
  }

  /** In a run from the start, no token ever has two exchanges that run or consumed it exactly
      when no request arrived unprotected. */
  lemma SingleExchangeExactlyWhen(s: System, run: seq<Step>)
    requires Initial(s) && Possible(s, run)
    ensures NeverDoubled(s, run) <==> Clean(s, run)
  {
    ExactlyWhenFrom(s, run);
  }

  /** In a clean run no family is revoked, and no exchange still to come replays a token. */
  lemma FamiliesSurvive(s: System, run: seq<Step>)
    requires Initial(s) && Possible(s, run) && Clean(s, run)
    ensures After(s, run).provider.revoked == {}
    ensures forall i: nat, v :: Enabled(After(s, run), Process(i, v)) ==>
              After(s, run).flights[i].token !in After(s, run).provider.rotated
  {
    ExactlyWhenFrom(s, run);
    forall i: nat, v | Enabled(After(s, run), Process(i, v))
      ensures After(s, run).flights[i].token !in After(s, run).provider.rotated
    {
      NoReplay(After(s, run), i, v);
    }
  }

  /** In a clean run, requests that shared an old refresh token and were answered with a
      rotation got the very same pair; and a request inside the window of an exchange that came
      to something is answered by that exchange, whether or not the provider rotated. */
  lemma SharedAnswers(s: System, run: seq<Step>, p: nat, q: nat)
    requires Initial(s) && Possible(s, run) && Clean(s, run)
    requires p < q < |After(s, run).requests|
    requires After(s, run).requests[p].token == After(s, run).requests[q].token
    ensures After(s, run).requests[p].flight < |After(s, run).flights|
    ensures After(s, run).requests[q].flight < |After(s, run).flights|
    ensures var n := After(s, run); var f, g := n.flights[n.requests[p].flight], n.flights[n.requests[q].flight];
      && (f.HasRotated() && g.HasRotated() ==> n.requests[p].flight == n.requests[q].flight)
      && (f.stage.Settled? && f.Result().Some? && n.requests[q].at <= f.at + 60_000 ==> g == f)
  {
    ExactlyWhenFrom(s, run);
    assert Shared(After(s, run), p, q);
  }

  /** The other half: presenting a consumed token unprotected costs the user every session. */
  lemma UnprotectedReplayRevokes(s: System, t: Token, v: Verdict)
    requires Inv(s) && t in s.provider.rotated && Unprotected(s, t)
    ensures var run := [Present(t), Process(|s.flights|, v)];
      Possible(s, run) && After(s, run).provider.revoked == {s.provider.family[t]}
  {
    UnprotectedDoubles(s, t);
    var i :| 0 <= i < |s.flights| && s.flights[i].token == t && s.flights[i].Open()
      && (s.now - s.flights[i].at > ROTATION_GRACE_MS || s.flights[i].Lost());
    assert Covered(s, i);
    var n := Next(s, Present(t));
    assert n.flights[|s.flights|] == Flight(t, s.now, Sent);
    var run := [Present(t), Process(|s.flights|, v)];
    assert run[1..] == [Process(|s.flights|, v)] && run[1..][1..] == [];
    var m := Next(n, run[1]);
    assert Possible(m, []) && After(m, []) == m;
    assert After(n, [run[1]]) == After(m, []);
    assert After(s, run) == After(n, run[1..]);
  }

  // ---- what costs a family ------------------------------------------------------------------

  ghost predicate DoubledFor(s: System, t: Token) {
    exists i, j :: 0 <= i < j < |s.flights| && s.flights[i].token == t && s.flights[j].token == t
      && s.flights[i].Open() && s.flights[j].Open()
  }

  /** The invariant as far as it concerns one token; it needs nothing of the others. */
  ghost predicate InvFor(s: System, t: Token) {
    && (t in s.memory ==>
      var e := s.memory[t];
      e.flight < |s.flights| && s.flights[e.flight].token == t && s.flights[e.flight].at == e.at)
    && !DoubledFor(s, t)
    && (forall i :: 0 <= i < |s.flights| && s.flights[i].token == t ==> Covered(s, i))
  }

  /** What holds of the provider in every run, protected or not. */
  ghost predicate Logged(s: System) {
    && (forall t :: t in s.provider.rotated ==> exists i :: ConsumedBy(s, t, i))
    && s.provider.rotated <= s.provider.family.Keys
    && (forall t :: t in s.provider.family ==> t < s.provider.mint)
  }

  lemma NextLogged(s: System, step: Step)
    requires Logged(s) && Enabled(s, step)
    ensures Logged(Next(s, step))
  {
    var n := Next(s, step);
    forall t | t in n.provider.rotated ensures exists i :: ConsumedBy(n, t, i) {
      if t in s.provider.rotated {
        var i :| ConsumedBy(s, t, i);
        assert ConsumedBy(n, t, i);
      } else {
        assert ConsumedBy(n, t, step.flight);
      }
    }
  }

  lemma PresentKeepsFor(s: System, p: Token, t: Token)
    requires InvFor(s, t) && (p == t ==> !Unprotected(s, t))
    ensures InvFor(Next(s, Present(p)), t)
  {
    var n := Next(s, Present(p));
    forall i | 0 <= i < |n.flights| && n.flights[i].token == t ensures Covered(n, i) {
      if i < |s.flights| { assert Covered(s, i); }
    }
    forall i | 0 <= i < |s.flights| && s.flights[i].token == t && s.flights[i].Open()
      ensures p == t ==> t in Swept(s.memory, s.now)
    {
      assert Covered(s, i);
    }
  }

  lemma ProcessKeepsFor(s: System, i: nat, v: Verdict, t: Token)
    requires InvFor(s, t) && Enabled(s, Process(i, v))
    ensures InvFor(Next(s, Process(i, v)), t)
  {
    var n := Next(s, Process(i, v));
    assert forall j :: 0 <= j < |s.flights| ==> (n.flights[j].Open() ==> s.flights[j].Open());
    forall j | 0 <= j < |n.flights| && n.flights[j].token == t ensures Covered(n, j) { assert Covered(s, j); }
  }

  lemma SettleKeepsFor(s: System, i: nat, heard: bool, t: Token)
    requires InvFor(s, t) && Enabled(s, Settle(i, heard))
    ensures InvFor(Next(s, Settle(i, heard)), t)
  {
    var n := Next(s, Settle(i, heard));
    assert forall j :: 0 <= j < |s.flights| ==> (n.flights[j].Open() ==> s.flights[j].Open());
    forall j | 0 <= j < |n.flights| && n.flights[j].token == t ensures Covered(n, j) {
      assert Covered(s, j) && (s.flights[i].token == t ==> Covered(s, i));
    }
  }

  lemma StepKeepsFor(s: System, step: Step, t: Token)
    requires InvFor(s, t) && Enabled(s, step)
    requires step == Present(t) ==> !Unprotected(s, t)
    ensures InvFor(Next(s, step), t)
  {
    match step
    case Tick(ms) =>
      forall i | 0 <= i < |s.flights| && s.flights[i].token == t ensures Covered(Next(s, step), i) {
        assert Covered(s, i);
      }
    case Present(p) => PresentKeepsFor(s, p, t);
    case Process(i, v) => ProcessKeepsFor(s, i, v, t);
    case Settle(i, heard) => SettleKeepsFor(s, i, heard, t);
  }

  /** The provider is handed a token it has consumed. */
  predicate Replays(s: System, step: Step) {
    step.Process? && Enabled(s, step) && s.flights[step.flight].token in s.provider.rotated
  }

  /** A token is replayed only if some request presented it unprotected. */
  lemma ReplaysOnlyUnprotected(s: System, step: Step)
    requires Logged(s) && Replays(s, step)
    ensures !InvFor(s, s.flights[step.flight].token)
  {
    var t := s.flights[step.flight].token;
    assert exists i :: ConsumedBy(s, t, i);
    var i: nat :| ConsumedBy(s, t, i);
    assert ConsumedBy(s, t, i) && i != step.flight;
    assert s.flights[i].Open() && s.flights[step.flight].Open();
  }

  /** A step revokes the family of the token it replays, and no other. */
  lemma RevokedNext(s: System, step: Step, f: nat)
    requires Logged(s) && Enabled(s, step)
    ensures f in Next(s, step).provider.revoked
       <==> f in s.provider.revoked || (Replays(s, step) && s.provider.family[s.flights[step.flight].token] == f)
  {
  }

  /** In the run, a token of family `f` is presented unprotected (or is among `before`), and later
      the provider is handed that token when it has already consumed it. */
  ghost predicate CostsFamily(s: System, run: seq<Step>, f: nat, before: set<Token>)
    requires Possible(s, run)
    decreases |run|
  {
    run != [] &&
    var step := run[0];
    || (Replays(s, step) && s.flights[step.flight].token in before
        && s.flights[step.flight].token in s.provider.family
        && s.provider.family[s.flights[step.flight].token] == f)
    || CostsFamily(Next(s, step), run[1..], f, Exposed(s, step, before))
  }

  ghost function Exposed(s: System, step: Step, before: set<Token>): set<Token> {
    before + if step.Present? && Unprotected(s, step.token) then {step.token} else {}
  }

  lemma {:induction false} RevokedFrom(s: System, run: seq<Step>, f: nat, before: set<Token>)
    requires Possible(s, run) && Logged(s) && forall t :: t !in before ==> InvFor(s, t)
    ensures f in After(s, run).provider.revoked <==> f in s.provider.revoked || CostsFamily(s, run, f, before)
    decreases |run|
  {
    if run != [] {
      var step := run[0];
      NextLogged(s, step);
      RevokedNext(s, step, f);
      if Replays(s, step) {
        ReplaysOnlyUnprotected(s, step);
      }
      forall t | t !in Exposed(s, step, before) ensures InvFor(Next(s, step), t) {
        StepKeepsFor(s, step, t);
      }
      RevokedFrom(Next(s, step), run[1..], f, Exposed(s, step, before));
    }
  }

  /** Over every run from the start, protected or not: a family is revoked exactly when a token of
      it was presented unprotected and the provider was later handed that token again after it had
      consumed it. */
  lemma RevokedExactlyWhen(s: System, run: seq<Step>, f: nat)
    requires Initial(s) && Possible(s, run)
    ensures f in After(s, run).provider.revoked <==> CostsFamily(s, run, f, {})
  {
    RevokedFrom(s, run, f, {});
  }

  /** One login, whose refresh token is 0. */
  function Login(): System {
    System(0, map[], [], Provider(1, map[0 := 0], {}, {}), [])
  }

  /** No request need come late after a rotation: an exchange slower than the window is enough. */
  lemma SlowExchangeRevokes()
    ensures var run := [Present(0), Tick(60_001), Present(0), Process(0, Rotate), Process(1, Rotate)];
      Initial(Login()) && Possible(Login(), run) && After(Login(), run).provider.revoked == {0}
  {
    var run := [Present(0), Tick(60_001), Present(0), Process(0, Rotate), Process(1, Rotate)];
    var a := Next(Login(), run[0]);
    assert a.flights == [Flight(0, 0, Sent)];
    var b := Next(a, run[1]);
    var c := Next(b, run[2]);
    assert c.flights == [Flight(0, 0, Sent), Flight(0, 60_001, Sent)];
    var d := Next(c, run[3]);
    assert d.flights[1] == Flight(0, 60_001, Sent) && d.provider.rotated == {0};
    var e := Next(d, run[4]);
    assert e.provider.revoked == {0};
    UnrollFive(Login(), run, a, b, c, d, e);
  }

  /** Nor need any time pass: a rotation whose answer is lost is forgotten like a refusal. */
  lemma LostAnswerRevokes()
    ensures var run := [Present(0), Process(0, Rotate), Settle(0, false), Present(0), Process(1, Rotate)];
      Possible(Login(), run) && After(Login(), run).provider.revoked == {0}
  {
    var run := [Present(0), Process(0, Rotate), Settle(0, false), Present(0), Process(1, Rotate)];
    var a := Next(Login(), run[0]);
    assert a.flights == [Flight(0, 0, Sent)];
    var b := Next(a, run[1]);
    assert b.flights == [Flight(0, 0, Answered(Rotated(1, 2)))];
    var c := Next(b, run[2]);
    assert c.flights == [Flight(0, 0, Settled(Rotated(1, 2), false))] && c.memory == map[];
    var d := Next(c, run[3]);
    assert d.flights[1] == Flight(0, 0, Sent) && d.provider.rotated == {0};
    var e := Next(d, run[4]);
    assert e.provider.revoked == {0};
    UnrollFive(Login(), run, a, b, c, d, e);
  }

  lemma UnrollFive(s: System, run: seq<Step>, a: System, b: System, c: System, d: System, e: System)
    requires |run| == 5 && Enabled(s, run[0]) && a == Next(s, run[0])
    requires Enabled(a, run[1]) && b == Next(a, run[1])
    requires Enabled(b, run[2]) && c == Next(b, run[2])
    requires Enabled(c, run[3]) && d == Next(c, run[3])
    requires Enabled(d, run[4]) && e == Next(d, run[4])
    ensures Possible(s, run) && After(s, run) == e
  {
    var r1 := run[1..];
    var r2 := r1[1..];
    var r3 := r2[1..];
    var r4 := r3[1..];
    assert r4[1..] == [];
    assert Possible(e, []) && After(e, []) == e;
    assert Possible(d, r4) && After(d, r4) == e;
    assert Possible(c, r3) && After(c, r3) == e;
    assert Possible(b, r2) && After(b, r2) == e;
    assert Possible(a, r1) && After(a, r1) == e;
  }
}
