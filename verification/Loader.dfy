/**
  `useLoader` of brain-landing/hooks/useLoader.ts as a machine over renders, effect runs and
  reloads. A `load` function is known here by its identity, a number.
 */
module Loader {
  import opened Collections

  /** One run of the effect: `current` is the flag its cleanup clears. */
  datatype Run = Run(load: int, current: bool, settled: bool)

  /** `rendered` is the `load` of the latest render; `reloads` says which calls are in flight. */
  datatype State = State(
    rendered: int,
    settled: Option<int>,
    pending: int,
    runs: seq<Run>,
    reloads: seq<bool>)

  datatype Event =
    | Render(load: int)
    | Commit
    | RunSettles(r: nat)
    | Reload
    | ReloadSettles(k: nat)

  function Mounted(load: int): State {
    State(load, None, 0, [], [])
  }

  /** The effect has run for the load on screen. */
  predicate Committed(s: State) {
    s.runs != [] && s.runs[|s.runs| - 1].load == s.rendered
  }

  /** React runs pending effects before it renders again; an effect runs when its load changed. */
  predicate Enabled(s: State, e: Event) {
    match e
    case Render(load) => Committed(s) && load != s.rendered
    case Commit => !Committed(s)
    case RunSettles(r) => r < |s.runs| && !s.runs[r].settled
    case Reload => true
    case ReloadSettles(k) => k < |s.reloads| && s.reloads[k]
  }

  function Next(s: State, e: Event): State
    requires Enabled(s, e)
  {
    match e
    case Render(load) => s.(rendered := load)
    case Commit => s.(runs := Superseded(s.runs) + [Run(s.rendered, true, false)])
    case RunSettles(r) =>
      var run := s.runs[r];
      s.(runs := s.runs[r := run.(settled := true)], settled := if run.current then Some(run.load) else s.settled)
    case Reload => s.(pending := s.pending + 1, reloads := s.reloads + [true])
    case ReloadSettles(k) => s.(pending := s.pending - 1, reloads := s.reloads[k := false])
  }

  /** The cleanup of the last run. */
  function Superseded(runs: seq<Run>): seq<Run> {
    if runs == [] then [] else runs[|runs| - 1 := runs[|runs| - 1].(current := false)]
  }

  /** What the hook returns. */
  predicate Loading(s: State) {
    s.settled != Some(s.rendered) || s.pending > 0
  }

  /** What it should mean: the run of the load on screen has settled, and no reload is in flight. */
  predicate OwnSettled(s: State) {
    Committed(s) && s.runs[|s.runs| - 1].settled
  }

  ghost predicate ReloadInFlight(s: State) {
    exists k :: 0 <= k < |s.reloads| && s.reloads[k]
  }

  // ---- what every event keeps ---------------------------------------------------------------

  function InFlight(reloads: seq<bool>): nat {
    if reloads == [] then 0 else (if reloads[0] then 1 else 0) + InFlight(reloads[1..])
  }

  ghost predicate Inv(s: State) {
    && s.pending == InFlight(s.reloads)
    && (forall r :: 0 <= r < |s.runs| ==> (s.runs[r].current <==> r == |s.runs| - 1))
    && (s.runs != [] && s.runs[|s.runs| - 1].settled ==> s.settled == Some(s.runs[|s.runs| - 1].load))
  }

  lemma {:induction false} InFlightMoves(reloads: seq<bool>, k: nat)
    requires k < |reloads| && reloads[k]
    ensures InFlight(reloads[k := false]) == InFlight(reloads) - 1
  {
    if k > 0 {
      InFlightMoves(reloads[1..], k - 1);
      assert reloads[k := false][1..] == reloads[1..][k - 1 := false];
    } else {
      assert reloads[k := false][1..] == reloads[1..];
    }
  }

  lemma {:induction false} InFlightSnoc(reloads: seq<bool>)
    ensures InFlight(reloads + [true]) == InFlight(reloads) + 1
  {
    if reloads == [] {
      assert reloads + [true] == [true];
    } else {
      assert (reloads + [true])[1..] == reloads[1..] + [true];
      InFlightSnoc(reloads[1..]);
    }
  }

  lemma {:induction false} InFlightPositive(reloads: seq<bool>)
    ensures InFlight(reloads) > 0 <==> exists k :: 0 <= k < |reloads| && reloads[k]
  {
    if reloads != [] {
      InFlightPositive(reloads[1..]);
      if InFlight(reloads[1..]) > 0 {
        var k :| 0 <= k < |reloads[1..]| && reloads[1..][k];
        assert reloads[k + 1];
      }
      if k :| 0 < k < |reloads| && reloads[k] {
        assert reloads[1..][k - 1];
      }
    }
  }

  lemma EventKeeps(s: State, e: Event)
    requires Inv(s) && Enabled(s, e)
    ensures Inv(Next(s, e))
  {
    match e
    case Reload => InFlightSnoc(s.reloads);
    case ReloadSettles(k) => InFlightMoves(s.reloads, k);
    case _ =>
  }

  /** A run that another has superseded changes nothing the hook returns, whenever it settles. */
  lemma SupersededIsSilent(s: State, r: nat)
    requires Inv(s) && Enabled(s, RunSettles(r)) && r < |s.runs| - 1
    ensures var t := Next(s, RunSettles(r)); t.settled == s.settled && Loading(t) == Loading(s)
  {
  }

  // ---- whole runs ---------------------------------------------------------------------------

  ghost predicate IsRun(load: int, run: seq<State>, events: seq<Event>) {
    && |run| == |events| + 1 && run[0] == Mounted(load)
    && forall k :: 0 <= k < |events| ==> Enabled(run[k], events[k]) && run[k + 1] == Next(run[k], events[k])
  }

  /** The comparison of identities tells whether the run of the load on screen has settled. */
  ghost predicate Told(s: State) {
    s.settled == Some(s.rendered) <==> OwnSettled(s)
  }

  /** The parent goes back to the very identity recorded as settled. */
  predicate Returns(s: State, e: Event) {
    e.Render? && s.settled == Some(e.load)
  }

  lemma ToldExactlyWhen(s: State, e: Event)
    requires Inv(s) && Told(s) && Enabled(s, e)
    ensures Told(Next(s, e)) <==> !Returns(s, e)
  {
  }

  lemma {:induction false} RunKeeps(load: int, run: seq<State>, events: seq<Event>, k: nat)
    requires IsRun(load, run, events) && k < |run|
    ensures Inv(run[k])
  {
    if k > 0 {
      RunKeeps(load, run, events, k - 1);
      EventKeeps(run[k - 1], events[k - 1]);
    }
  }

  lemma {:induction false} ToldUpTo(load: int, run: seq<State>, events: seq<Event>, k: nat)
    requires IsRun(load, run, events) && k < |run|
    requires forall j :: 0 <= j < k ==> !Returns(run[j], events[j])
    ensures Told(run[k])
  {
    if k > 0 {
      ToldUpTo(load, run, events, k - 1);
      RunKeeps(load, run, events, k - 1);
      ToldExactlyWhen(run[k - 1], events[k - 1]);
    }
  }

  /** Over a whole run, the comparison never misleads exactly when no render goes back to the
      identity that is recorded as settled. */
  lemma NeverMisledExactlyWhen(load: int, run: seq<State>, events: seq<Event>)
    requires IsRun(load, run, events)
    ensures (forall k :: 0 <= k < |run| ==> Told(run[k]))
       <==> (forall k :: 0 <= k < |events| ==> !Returns(run[k], events[k]))
  {
    if forall k :: 0 <= k < |run| ==> Told(run[k]) {
      forall k | 0 <= k < |events| ensures !Returns(run[k], events[k]) {
        RunKeeps(load, run, events, k);
        ToldExactlyWhen(run[k], events[k]);
        assert Told(run[k + 1]);
      }
    }
    if forall k :: 0 <= k < |events| ==> !Returns(run[k], events[k]) {
      forall k | 0 <= k < |run| ensures Told(run[k]) {
        ToldUpTo(load, run, events, k);
      }
    }
  }

  /** Every render with a new `load` uses an identity that was never on screen before. */
  ghost predicate Fresh(run: seq<State>, events: seq<Event>)
    requires |run| == |events| + 1
  {
    forall j, k :: 0 <= j <= k < |events| && events[k].Render? ==> events[k].load != run[j].rendered
  }

  /** The identities on screen up to event `k`. */
  ghost function Shown(run: seq<State>, k: nat): set<int>
    requires k < |run|
  {
    set j | 0 <= j <= k :: run[j].rendered
  }

  ghost predicate AllIn(s: State, loads: set<int>) {
    && (forall r :: 0 <= r < |s.runs| ==> s.runs[r].load in loads)
    && (s.settled.Some? ==> s.settled.value in loads)
  }

  lemma NextAllIn(s: State, e: Event, loads: set<int>)
    requires Enabled(s, e) && AllIn(s, loads) && s.rendered in loads
    ensures AllIn(Next(s, e), loads)
  {
  }

  lemma {:induction false} LoadsWereShown(load: int, run: seq<State>, events: seq<Event>, k: nat)
    requires IsRun(load, run, events) && k < |run|
    ensures AllIn(run[k], Shown(run, k))
  {
    if k > 0 {
      LoadsWereShown(load, run, events, k - 1);
      NextAllIn(run[k - 1], events[k - 1], Shown(run, k - 1));
      assert Shown(run, k - 1) <= Shown(run, k);
    }
  }

  /** With fresh identities, in every reachable state: the indicator is off exactly when the run of
      the load on screen has settled and no reload is in flight. */
  lemma LoadingIsExact(load: int, run: seq<State>, events: seq<Event>, k: nat)
    requires IsRun(load, run, events) && Fresh(run, events) && k < |run|
    ensures !Loading(run[k]) <==> OwnSettled(run[k]) && !ReloadInFlight(run[k])
  {
    forall j | 0 <= j < |events| ensures !Returns(run[j], events[j]) {
      LoadsWereShown(load, run, events, j);
    }
    ToldUpTo(load, run, events, k);
    RunKeeps(load, run, events, k);
    InFlightPositive(run[k].reloads);
  }

  /** Going from load 1 to load 2 and back while 2 is being fetched: the indicator says settled
      although the run for the load on screen has not even begun. */
  lemma ReturningMisleads()
    ensures exists run, events ::
      && IsRun(1, run, events) && |events| == 5
      && !Loading(run[5]) && !OwnSettled(run[5])
  {
    var s0 := Mounted(1);
    var s1 := Next(s0, Commit);
    var s2 := Next(s1, RunSettles(0));
    var s3 := Next(s2, Render(2));
    var s4 := Next(s3, Commit);
    var s5 := Next(s4, Render(1));
    var run, events := [s0, s1, s2, s3, s4, s5], [Commit, RunSettles(0), Render(2), Commit, Render(1)];
    assert IsRun(1, run, events);
    assert !Loading(run[5]) && !OwnSettled(run[5]);
  }

  // ---- the hook -----------------------------------------------------------------------------

  /** The hook's own state, changed by the callbacks React and the caller invoke. */
  class UseLoader {
    var rendered: int
    var settled: Option<int>
    var pending: int
    var runs: seq<Run>
    ghost var reloads: seq<bool>

    constructor (load: int)
      ensures Contents() == Mounted(load)
    {
      rendered, settled, pending, runs, reloads := load, None, 0, [], [];
    }

    ghost function Contents(): State
      reads this
    {
      State(rendered, settled, pending, runs, reloads)
    }

    /** A render with this `load`; what it returns is derived there and then. */
    method Use(load: int) returns (loading: bool)
      requires load == rendered || Enabled(Contents(), Render(load))
      modifies this`rendered
      ensures Contents() == if load == old(rendered) then old(Contents()) else Next(old(Contents()), Render(load))
      ensures loading == Loading(Contents())
    {
      rendered := load;
      loading := settled != Some(load) || pending > 0;
    }

    /** The effect: the cleanup of the last run, then a run of its own. */
    method Effect()
      requires Enabled(Contents(), Commit)
      modifies this`runs
      ensures Contents() == Next(old(Contents()), Commit)
    {
      if runs != [] {
        runs := runs[|runs| - 1 := runs[|runs| - 1].(current := false)];
      }
      runs := runs + [Run(rendered, true, false)];
    }

    /** `finally` of the run with number `r`. */
    method Finally(r: nat)
      requires Enabled(Contents(), RunSettles(r))
      modifies this`runs, this`settled
      ensures Contents() == Next(old(Contents()), RunSettles(r))
    {
      if runs[r].current {
        settled := Some(runs[r].load);
      }
      runs := runs[r := runs[r].(settled := true)];
    }

    method StartReload()
      modifies this`pending, this`reloads
      ensures Contents() == Next(old(Contents()), Event.Reload)
    {
      pending, reloads := pending + 1, reloads + [true];
    }

    method FinishReload(ghost k: nat)
      requires Enabled(Contents(), ReloadSettles(k))
      modifies this`pending, this`reloads
      ensures Contents() == Next(old(Contents()), ReloadSettles(k))
    {
      pending, reloads := pending - 1, reloads[k := false];
    }
  }
}
