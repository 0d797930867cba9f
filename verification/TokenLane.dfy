/**
  One keyed single-flight token cache of brain-landing/lib/brain-api.ts: a map of minted tokens,
  a map of outstanding promises, and the pieces of `getServiceToken` / `getExchangedToken` that
  run between two `await`s. Fetches are named by their index in the log of fetches sent, and a
  minted token by the fetch that minted it.
 */
module TokenLane {
  import opened Collections

  const MAX_EXCHANGE_ENTRIES := 500

  /** What the auth service was asked for. */
  datatype Grant = Grant(subject: Option<string>, scope: string)

  datatype Cached = Cached(mint: nat, expiresAtMs: int)

  /** The auth service's answer; a token may come without its lifetime in seconds. */
  datatype TokenAnswer = Denied | Granted(expiresIn: Option<int>)

  /** An answered fetch remembers when the answer came and what it said. */
  datatype FetchState = Pending | Ready(cached: Cached, at: int, expiresIn: Option<int>) | Failed

  datatype Fetch = Fetch(key: string, grant: Grant, state: FetchState)

  datatype Lane = Lane(cache: Dict<string, Cached>, inFlight: map<string, nat>, fetches: seq<Fetch>)

  datatype Ticket = Hit(mint: nat) | Wait(fetch: nat, starter: bool)

  function EmptyLane(): Lane {
    Lane(EmptyDict(), map[], [])
  }

  /** Up to the first `await`: a live cached token, a promise to join, or a fetch of one's own. */
  function Begin(l: Lane, key: string, grant: Grant, now: int): (Lane, Ticket) {
    if key in l.cache.at && l.cache.at[key].expiresAtMs > now then
      (l, Hit(l.cache.at[key].mint))
    else if key in l.inFlight then
      (l, Wait(l.inFlight[key], false))
    else
      var f := |l.fetches|;
      (l.(inFlight := l.inFlight[key := f], fetches := l.fetches + [Fetch(key, grant, Pending)]), Wait(f, true))
  }

  /** A token lives 5 minutes unless told otherwise, and is given up 30 s early. */
  function ExpiresAt(now: int, expiresIn: Option<int>): int {
    var ttlSec := if expiresIn.Some? then expiresIn.value else 300;
    now + (ttlSec - 30) * 1000
  }

  /** The auth service answers. */
  function Land(l: Lane, f: nat, answer: TokenAnswer, now: int): Lane
    requires f < |l.fetches|
  {
    var state := if answer.Denied? then Failed
                 else Ready(Cached(f, ExpiresAt(now, answer.expiresIn)), now, answer.expiresIn);
    l.(fetches := l.fetches[f := l.fetches[f].(state := state)])
  }

  function Evicted(cache: Dict<string, Cached>, bounded: bool): Dict<string, Cached> {
    if bounded && |cache.order| >= MAX_EXCHANGE_ENTRIES then Remove(cache, cache.order[0]) else cache
  }

  /** The rest of the starter's call, once its own promise has settled. */
  function Finish(l: Lane, f: nat, bounded: bool): Lane
    requires f < |l.fetches| && !l.fetches[f].state.Pending?
  {
    var key := l.fetches[f].key;
    var cache := if l.fetches[f].state.Ready?
                 then Put(Evicted(l.cache, bounded), key, l.fetches[f].state.cached)
                 else l.cache;
    l.(cache := cache, inFlight := l.inFlight - {key})
  }

  /** The backend said 401. */
  function Forget(l: Lane, key: string): Lane {
    l.(cache := Remove(l.cache, key))
  }

  predicate InFlight(l: Lane, f: nat) {
    f < |l.fetches| && l.fetches[f].key in l.inFlight && l.inFlight[l.fetches[f].key] == f
  }

  ghost predicate Holds(l: Lane, mint: nat) {
    exists k :: k in l.cache.at && l.cache.at[k].mint == mint
  }

  /** The expiry recorded is 30 s before the token's own. */
  predicate RightExpiry(state: FetchState)
    requires state.Ready?
  {
    var life := if state.expiresIn.None? then 300_000 else 1000 * state.expiresIn.value;
    state.cached.expiresAtMs + 30_000 == state.at + life
  }

  ghost predicate LaneInv(l: Lane, bounded: bool) {
    && l.cache.Valid()
    && (bounded ==> |l.cache.order| <= MAX_EXCHANGE_ENTRIES)
    && (forall k :: k in l.inFlight ==> l.inFlight[k] < |l.fetches| && l.fetches[l.inFlight[k]].key == k)
    && (forall f :: 0 <= f < |l.fetches| && l.fetches[f].state.Pending? ==> InFlight(l, f))
    && (forall f :: 0 <= f < |l.fetches| && l.fetches[f].state.Ready? ==>
          l.fetches[f].state.cached.mint == f && RightExpiry(l.fetches[f].state))
    && (forall k :: k in l.cache.at ==>
          var m := l.cache.at[k].mint;
          m < |l.fetches| && l.fetches[m].key == k && !InFlight(l, m)
          && l.fetches[m].state.Ready? && l.fetches[m].state.cached == l.cache.at[k])
  }

  /** How one step changes what others rely on: fetches keep their key and grant, answers stay,
      and the only fetch that stops being in flight is `gone`. */
  ghost predicate Evolves(l: Lane, n: Lane, gone: set<nat>) {
    && |l.fetches| <= |n.fetches|
    && (forall f :: 0 <= f < |l.fetches| ==>
          && n.fetches[f].key == l.fetches[f].key && n.fetches[f].grant == l.fetches[f].grant
          && (!l.fetches[f].state.Pending? ==> n.fetches[f].state == l.fetches[f].state)
          && (InFlight(n, f) <==> InFlight(l, f) && f !in gone))
    && (forall m :: m !in gone && Holds(n, m) ==> Holds(l, m))
  }

  lemma EvolvesSame(l: Lane)
    ensures Evolves(l, l, {})
  {
  }

  /** At most one fetch per key is outstanding. */
  lemma OneOutstandingPerKey(l: Lane, bounded: bool, f: nat, g: nat)
    requires LaneInv(l, bounded) && f < |l.fetches| && g < |l.fetches|
    requires l.fetches[f].state.Pending? && l.fetches[g].state.Pending? && l.fetches[f].key == l.fetches[g].key
    ensures f == g
  {
    assert InFlight(l, f) && InFlight(l, g);
  }

  lemma BeginKeeps(l: Lane, key: string, grant: Grant, now: int, bounded: bool)
    requires LaneInv(l, bounded)
    ensures var (n, t) := Begin(l, key, grant, now);
      && LaneInv(n, bounded) && Evolves(l, n, {})
      && (t.Hit? ==>
            && t.mint < |n.fetches| && n.fetches[t.mint].key == key && n.fetches[t.mint].state.Ready?
            && n.fetches[t.mint].state.cached.expiresAtMs > now && Holds(n, t.mint) && !InFlight(n, t.mint))
      && (t.Wait? ==> InFlight(n, t.fetch) && n.fetches[t.fetch].key == key)
      && (t.Wait? && t.starter ==> t.fetch == |l.fetches| && n.fetches == l.fetches + [Fetch(key, grant, Pending)])
      && (t.Hit? || !t.starter ==> n == l)
  {
    var (n, t) := Begin(l, key, grant, now);
    forall f | 0 <= f < |l.fetches| ensures InFlight(n, f) <==> InFlight(l, f) {}
    forall f | 0 <= f < |n.fetches| && n.fetches[f].state.Pending? ensures InFlight(n, f) {
      if f < |l.fetches| { assert InFlight(l, f); }
    }
    assert forall m :: Holds(n, m) ==> Holds(l, m);
    if t.Hit? { assert l.cache.at[key].mint == t.mint; }
  }

  /** A cached token is answered from the cache exactly until 30 s before the end of its life, told
      by the clock at which the auth service answered. */
  lemma HeldIsHitExactlyWhen(l: Lane, key: string, grant: Grant, now: int, bounded: bool)
    requires LaneInv(l, bounded) && key in l.cache.at
    ensures var m := l.cache.at[key].mint; var token := l.fetches[m].state;
      && token.Ready?
      && (Begin(l, key, grant, now).1 == Hit(m)
        <==> now < token.at + ((if token.expiresIn.Some? then token.expiresIn.value else 300) - 30) * 1000)
      && (Begin(l, key, grant, now).1.Hit?
        <==> now < token.at + ((if token.expiresIn.Some? then token.expiresIn.value else 300) - 30) * 1000)
  {
    assert RightExpiry(l.fetches[l.cache.at[key].mint].state);
  }

  /** What a settled fetch leaves in a bounded cache: its own entry, and all others but the oldest if
      the cache was full, whichever key that is. */
  lemma FinishIs(l: Lane, f: nat, bounded: bool)
    requires LaneInv(l, bounded) && InFlight(l, f) && !l.fetches[f].state.Pending?
    ensures var n, key, full := Finish(l, f, bounded), l.fetches[f].key, bounded && |l.cache.order| >= 500;
      && (l.fetches[f].state.Failed? ==> n.cache == l.cache)
      && (l.fetches[f].state.Ready? ==>
        && key in n.cache.at && n.cache.at[key] == l.fetches[f].state.cached
        && forall k :: k != key ==>
          && (k in n.cache.at <==> k in l.cache.at && !(full && k == l.cache.order[0]))
          && (k in n.cache.at ==> n.cache.at[k] == l.cache.at[k]))
      && (forall k :: k in n.inFlight <==> k in l.inFlight && k != key)
  {
  }

  /** A refused token's key is cleared, and no other key is touched. */
  lemma ForgetIs(l: Lane, key: string, k: string)
    ensures k in Forget(l, key).cache.at <==> k in l.cache.at && k != key
    ensures k in Forget(l, key).cache.at ==> Forget(l, key).cache.at[k] == l.cache.at[k]
  {
  }

  lemma LandKeeps(l: Lane, f: nat, answer: TokenAnswer, now: int, bounded: bool)
    requires LaneInv(l, bounded) && f < |l.fetches| && l.fetches[f].state.Pending?
    ensures LaneInv(Land(l, f, answer, now), bounded) && Evolves(l, Land(l, f, answer, now), {})
  {
    var n := Land(l, f, answer, now);
    forall g | 0 <= g < |l.fetches| ensures InFlight(n, g) <==> InFlight(l, g) {}
    assert forall m :: Holds(n, m) ==> Holds(l, m);
  }

  /** The answer is kept as it was given, with the time on the clock. */
  lemma LandRecords(l: Lane, f: nat, answer: TokenAnswer, now: int)
    requires f < |l.fetches|
    ensures var state := Land(l, f, answer, now).fetches[f].state;
      && (state.Ready? <==> answer.Granted?)
      && (state.Ready? ==> state.at == now && state.expiresIn == answer.expiresIn)
  {
  }

  lemma FinishKeeps(l: Lane, f: nat, bounded: bool)
    requires LaneInv(l, bounded) && InFlight(l, f) && !l.fetches[f].state.Pending?
    ensures LaneInv(Finish(l, f, bounded), bounded) && Evolves(l, Finish(l, f, bounded), {f})
  {
    var n := Finish(l, f, bounded);
    var key := l.fetches[f].key;
    var kept := Evicted(l.cache, bounded);
    if kept != l.cache {
      RemoveValid(l.cache, l.cache.order[0]);
      assert l.cache.order[0] in l.cache.order;
    }
    forall g | 0 <= g < |l.fetches| ensures InFlight(n, g) <==> InFlight(l, g) && g != f {}
    forall m | m != f && Holds(n, m) ensures Holds(l, m) {
      var k :| k in n.cache.at && n.cache.at[k].mint == m;
      assert k in l.cache.at && l.cache.at[k].mint == m;
    }
  }

  lemma ForgetKeeps(l: Lane, key: string, bounded: bool)
    requires LaneInv(l, bounded)
    ensures LaneInv(Forget(l, key), bounded) && Evolves(l, Forget(l, key), {})
    ensures forall m :: 0 <= m < |l.fetches| && l.fetches[m].key == key ==> !Holds(Forget(l, key), m)
  {
    var n := Forget(l, key);
    RemoveValid(l.cache, key);
    forall g | 0 <= g < |l.fetches| ensures InFlight(n, g) <==> InFlight(l, g) {}
    forall m | Holds(n, m) ensures Holds(l, m) {
      var k :| k in n.cache.at && n.cache.at[k].mint == m;
      assert k in l.cache.at && l.cache.at[k].mint == m;
    }
  }

  // ---- the module state of brain-api.ts -----------------------------------------------------

  /** `tokenCache`/`inFlight`, or `exchangeCache`/`exchangeInFlight` when `bounded`. */
  class TokenCache {
    const bounded: bool
    var cache: Dict<string, Cached>
    var inFlight: map<string, nat>
    var fetches: seq<Fetch>

    function State(): Lane
      reads this
    {
      Lane(cache, inFlight, fetches)
    }

    constructor (bounded: bool)
      ensures State() == EmptyLane() && this.bounded == bounded
    {
      this.bounded := bounded;
      cache, inFlight, fetches := EmptyDict(), map[], [];
    }

    method GetToken(key: string, grant: Grant, now: int) returns (ticket: Ticket)
      modifies this
      ensures (State(), ticket) == Begin(old(State()), key, grant, now)
    {
      if key in cache.at && cache.at[key].expiresAtMs > now {
        return Hit(cache.at[key].mint);
      }
      if key in inFlight {
        return Wait(inFlight[key], false);
      }
      var f := |fetches|;
      fetches := fetches + [Fetch(key, grant, Pending)];
      inFlight := inFlight[key := f];
      return Wait(f, true);
    }

    /** The end of `fetchServiceToken` and of `fetchExchangedToken`. */
    method Answered(f: nat, answer: TokenAnswer, now: int)
      requires f < |fetches|
      modifies this`fetches
      ensures State() == Land(old(State()), f, answer, now)
    {
      if answer.Denied? {
        fetches := fetches[f := fetches[f].(state := Failed)];
        return;
      }
      var ttlSec := if answer.expiresIn.Some? then answer.expiresIn.value else 300;
      var token := Cached(f, now + (ttlSec - 30) * 1000);
      fetches := fetches[f := fetches[f].(state := Ready(token, now, answer.expiresIn))];
    }

    /** The starter's continuation: store on success, and always leave the in-flight map. */
    method AfterFetch(f: nat)
      requires LaneInv(State(), bounded) && InFlight(State(), f) && !fetches[f].state.Pending?
      modifies this`cache, this`inFlight
      ensures State() == Finish(old(State()), f, bounded)
      ensures LaneInv(State(), bounded) && !InFlight(State(), f)
    {
      FinishKeeps(State(), f, bounded);
      var key := fetches[f].key;
      if fetches[f].state.Ready? {
        if bounded && |cache.order| >= MAX_EXCHANGE_ENTRIES {
          var oldest := cache.order[0];
          cache := Remove(cache, oldest);
        }
        cache := Put(cache, key, fetches[f].state.cached);
      }
      inFlight := inFlight - {key};
    }

    method Invalidate(key: string)
      modifies this`cache
      ensures State() == Forget(old(State()), key)
    {
      cache := Remove(cache, key);
    }
  }
}
