/**
  The worker pool of scripts/offline-nugget-score.ts (`scoreReport`) and the checkpoint file of
  test/eval/checkpoint.ts. The workers are asynchronous: one runs until it awaits the judge or the
  file, and any of them may be the next to go on.
 */
module NuggetPool {
  import opened Collections

  /** A scored row, as it is kept in memory and as a line of the checkpoint file. */
  datatype Scored = Scored(questionId: string, ability: string, score: real)

  /** One report: the rows to judge, the questions the dataset knows, and what an earlier run left
      in the checkpoint file. */
  datatype Job = Job(todo: seq<string>, known: set<string>, found: seq<Scored>, concurrency: nat)

  datatype Worker = Idle | Judging(i: nat) | Appending(out: Scored) | Finished

  /** `claims` and `lost` are history: the rows claimed, and the rows whose line was not written. */
  datatype State = State(
    cursor: nat,
    workers: seq<Worker>,
    failed: nat,
    done: map<string, Scored>,
    file: seq<Scored>,
    claims: seq<nat>,
    lost: seq<string>)

  function SetDone(done: map<string, Scored>, row: Scored): map<string, Scored> {
    done[row.questionId := row]
  }

  /** `loadCheckpoint`: a later line of the same id wins. */
  function Load(file: seq<Scored>): map<string, Scored> {
    Fold(SetDone, map[], file)
  }

  /** The last line of an id counts. */
  lemma {:induction false} LastLineCounts(file: seq<Scored>, i: nat)
    requires i < |file| && forall j :: i < j < |file| ==> file[j].questionId != file[i].questionId
    ensures file[i].questionId in Load(file) && Load(file)[file[i].questionId] == file[i]
  {
    var n := |file| - 1;
    assert Load(file) == SetDone(Load(file[..n]), file[n]);
    if i < n {
      LastLineCounts(file[..n], i);
    }
  }

  /** And there is no row that no line is about. */
  lemma {:induction false} LoadedHasLine(file: seq<Scored>, id: string)
    requires id in Load(file)
    ensures exists i :: 0 <= i < |file| && file[i].questionId == id
  {
    var n := |file| - 1;
    assert Load(file) == SetDone(Load(file[..n]), file[n]);
    if file[n].questionId != id {
      LoadedHasLine(file[..n], id);
      var i :| 0 <= i < |file[..n]| && file[..n][i].questionId == id;
      assert file[i].questionId == id;
    }
  }

  /** The rows of a report that the checkpoint does not have. */
  function Remaining(report: seq<string>, done: map<string, Scored>): seq<string> {
    if report == [] then []
    else
      var n := |report| - 1;
      Remaining(report[..n], done) + if report[n] in done then [] else [report[n]]
  }

  function Start(job: Job): State {
    State(0, seq(job.concurrency, _ => Idle), 0, Load(job.found), job.found, [], [])
  }

  // ---- steps --------------------------------------------------------------------------------

  datatype Step =
    | Take(w: nat)
    | Judged(w: nat, ability: string, score: real)
    | JudgeFailed(w: nat)
    | Appended(w: nat)
    | AppendFailed(w: nat)

  predicate Enabled(job: Job, s: State, step: Step) {
    && step.w < |s.workers|
    && match step
       case Take(w) => s.workers[w].Idle?
       case Judged(w, _, _) => s.workers[w].Judging? && s.workers[w].i < |job.todo|
       case JudgeFailed(w) => s.workers[w].Judging?
       case Appended(w) => s.workers[w].Appending?
       case AppendFailed(w) => s.workers[w].Appending?
  }

  function Next(job: Job, s: State, step: Step): State
    requires Enabled(job, s, step)
  {
    match step
    case Take(w) =>
      var i := s.cursor;
      if i >= |job.todo| then s.(cursor := i + 1, workers := s.workers[w := Finished])
      else
        var claimed := s.(cursor := i + 1, claims := s.claims + [i]);
        if job.todo[i] !in job.known then claimed.(failed := s.failed + 1)
        else claimed.(workers := s.workers[w := Judging(i)])
    case Judged(w, ability, score) =>
      var out := Scored(job.todo[s.workers[w].i], ability, score);
      s.(done := SetDone(s.done, out), workers := s.workers[w := Appending(out)])
    case JudgeFailed(w) => s.(failed := s.failed + 1, workers := s.workers[w := Idle])
    case Appended(w) => s.(file := s.file + [s.workers[w].out], workers := s.workers[w := Idle])
    case AppendFailed(w) =>
      // the row stays in `done`: only the file misses it
      s.(failed := s.failed + 1, lost := s.lost + [s.workers[w].out.questionId], workers := s.workers[w := Idle])
  }

  /** The states of a run, one per step taken. */
  ghost predicate IsRun(job: Job, run: seq<State>, steps: seq<Step>) {
    && |run| == |steps| + 1 && run[0] == Start(job)
    && forall k :: 0 <= k < |steps| ==> Enabled(job, run[k], steps[k]) && run[k + 1] == Next(job, run[k], steps[k])
  }

  // ---- what every step keeps ----------------------------------------------------------------

  /** Question ids are distinct, and the rows found in the file are not to be judged. */
  ghost predicate Proper(job: Job) {
    Distinct(job.todo) && forall id :: id in job.todo ==> id !in Load(job.found)
  }

  function JudgingCount(workers: seq<Worker>): nat {
    if workers == [] then 0 else (if workers[0].Judging? then 1 else 0) + JudgingCount(workers[1..])
  }

  function AppendingCount(workers: seq<Worker>): nat {
    if workers == [] then 0 else (if workers[0].Appending? then 1 else 0) + AppendingCount(workers[1..])
  }

  /** A row being judged is claimed, unjudged, and no other worker's. */
  ghost predicate ClaimsHold(job: Job, s: State) {
    && |s.claims| == Min(s.cursor, |job.todo|)
    && (forall k :: 0 <= k < |s.claims| ==> s.claims[k] == k)
    && (forall w :: 0 <= w < |s.workers| && s.workers[w].Judging? ==>
      s.workers[w].i < |s.claims| && job.todo[s.workers[w].i] !in s.done)
    && (forall v, w :: 0 <= v < w < |s.workers| && s.workers[v].Judging? && s.workers[w].Judging? ==>
      s.workers[v].i != s.workers[w].i)
    && (forall j :: |s.claims| <= j < |job.todo| ==> job.todo[j] !in s.done)
    && (forall w :: 0 <= w < |s.workers| && s.workers[w].Finished? ==> s.cursor > |job.todo|)
  }

  /** Every claimed row is being judged, judged, or failed. */
  ghost predicate CountsHold(job: Job, s: State) {
    && |s.lost| <= s.failed
    && |s.claims| == JudgingCount(s.workers) + (|s.done| - |Load(job.found)|) + (s.failed - |s.lost|)
  }

  /** What is in memory is in the file, about to be, or lost; and what is in both is the same. */
  ghost predicate FileHolds(s: State) {
    && (forall id :: id in Load(s.file) ==> id in s.done && Load(s.file)[id] == s.done[id])
    && (forall w :: 0 <= w < |s.workers| && s.workers[w].Appending? ==> InMemory(s, s.workers[w].out))
    && (forall id :: id in s.done && id !in Load(s.file) && id !in s.lost ==> BeingAppended(s.workers, id))
  }

  ghost predicate InMemory(s: State, out: Scored) {
    out.questionId in s.done && s.done[out.questionId] == out
  }

  ghost predicate BeingAppended(workers: seq<Worker>, id: string) {
    exists w :: 0 <= w < |workers| && workers[w].Appending? && workers[w].out.questionId == id
  }

  ghost predicate BeingJudged(workers: seq<Worker>, i: nat) {
    exists w :: 0 <= w < |workers| && workers[w] == Judging(i)
  }

  /** While nothing has failed, a claimed row is judged or being judged; what was found stays. */
  ghost predicate RowsHold(job: Job, s: State) {
    && (s.failed == 0 ==> forall k :: 0 <= k < Min(|s.claims|, |job.todo|) ==>
      job.todo[k] in s.done || BeingJudged(s.workers, k))
    && (forall id :: id in Load(job.found) ==> id in s.done && s.done[id] == Load(job.found)[id])
  }

  ghost predicate Inv(job: Job, s: State) {
    && |s.workers| == job.concurrency && (job.concurrency == 0 ==> s == Start(job))
    && ClaimsHold(job, s) && CountsHold(job, s) && FileHolds(s) && RowsHold(job, s)
  }

  lemma {:induction false} CountsMove(workers: seq<Worker>, w: nat, x: Worker)
    requires w < |workers|
    ensures JudgingCount(workers[w := x]) == JudgingCount(workers)
      - (if workers[w].Judging? then 1 else 0) + (if x.Judging? then 1 else 0)
    ensures AppendingCount(workers[w := x]) == AppendingCount(workers)
      - (if workers[w].Appending? then 1 else 0) + (if x.Appending? then 1 else 0)
  {
    if w > 0 {
      CountsMove(workers[1..], w - 1, x);
      assert workers[w := x][1..] == workers[1..][w - 1 := x];
    } else {
      assert workers[w := x][1..] == workers[1..];
    }
  }

  lemma {:induction false} AllIdle(n: nat)
    ensures JudgingCount(seq(n, _ => Idle)) == 0 && AppendingCount(seq(n, _ => Idle)) == 0
  {
    if n > 0 {
      AllIdle(n - 1);
      assert seq(n, _ => Idle)[1..] == seq(n - 1, _ => Idle);
    }
  }

  lemma StartHolds(job: Job)
    requires Proper(job)
    ensures Inv(job, Start(job))
  {
    AllIdle(job.concurrency);
    assert forall j :: 0 <= j < |job.todo| ==> job.todo[j] in job.todo;
  }

  lemma TakeClaims(job: Job, s: State, w: nat)
    requires Proper(job) && ClaimsHold(job, s) && Enabled(job, s, Take(w))
    ensures ClaimsHold(job, Next(job, s, Take(w)))
  {
  }

  lemma JudgedClaims(job: Job, s: State, w: nat, ability: string, score: real)
    requires Proper(job) && ClaimsHold(job, s) && Enabled(job, s, Judged(w, ability, score))
    ensures ClaimsHold(job, Next(job, s, Judged(w, ability, score)))
  {
  }

  lemma StepClaims(job: Job, s: State, step: Step)
    requires Proper(job) && Inv(job, s) && Enabled(job, s, step)
    ensures ClaimsHold(job, Next(job, s, step))
  {
    match step
    case Take(w) => TakeClaims(job, s, w);
    case Judged(w, ability, score) => JudgedClaims(job, s, w, ability, score);
    case _ =>
      var t := Next(job, s, step);
      assert t.claims == s.claims && t.cursor == s.cursor && t.done == s.done;
      assert forall w :: 0 <= w < |t.workers| && t.workers[w].Judging? ==> t.workers[w] == s.workers[w];
  }

  lemma StepCounts(job: Job, s: State, step: Step)
    requires Proper(job) && Inv(job, s) && Enabled(job, s, step)
    ensures CountsHold(job, Next(job, s, step))
  {
    var t := Next(job, s, step);
    CountsMove(s.workers, step.w, t.workers[step.w]);
    assert t.workers == s.workers[step.w := t.workers[step.w]];
    if step.Judged? {
      var id := job.todo[s.workers[step.w].i];
      assert t.done.Keys == s.done.Keys + {id};
      assert |t.done.Keys| == |s.done.Keys| + 1;
    }
  }

  lemma StillAppended(workers: seq<Worker>, w: nat, x: Worker, id: string)
    requires w < |workers| && BeingAppended(workers, id)
    ensures BeingAppended(workers[w := x], id) || (workers[w].Appending? && workers[w].out.questionId == id)
  {
    var v :| 0 <= v < |workers| && workers[v].Appending? && workers[v].out.questionId == id;
    if v != w {
      assert workers[w := x][v] == workers[v];
    }
  }

  /** A step that neither judges nor writes. */
  lemma QuietFile(s: State, w: nat, t: State)
    requires FileHolds(s) && w < |s.workers| && !s.workers[w].Appending?
    requires t.done == s.done && t.file == s.file && t.lost == s.lost
    requires |t.workers| == |s.workers| && !t.workers[w].Appending? && t.workers == s.workers[w := t.workers[w]]
    ensures FileHolds(t)
  {
    forall id | id in t.done && id !in Load(t.file) && id !in t.lost ensures BeingAppended(t.workers, id) {
      StillAppended(s.workers, w, t.workers[w], id);
    }
    assert forall v :: 0 <= v < |t.workers| && t.workers[v].Appending? ==> t.workers[v] == s.workers[v];
  }

  lemma JudgedFile(job: Job, s: State, w: nat, ability: string, score: real)
    requires Inv(job, s) && Enabled(job, s, Judged(w, ability, score))
    ensures FileHolds(Next(job, s, Judged(w, ability, score)))
  {
    var t := Next(job, s, Judged(w, ability, score));
    var out := Scored(job.todo[s.workers[w].i], ability, score);
    assert t.workers[w] == Appending(out);
    forall id | id in t.done && id !in Load(t.file) && id !in t.lost ensures BeingAppended(t.workers, id) {
      if id != out.questionId {
        StillAppended(s.workers, w, t.workers[w], id);
      }
    }
    forall v | 0 <= v < |t.workers| && t.workers[v].Appending? ensures InMemory(t, t.workers[v].out) {
      assert v == w || InMemory(s, s.workers[v].out);
    }
  }

  lemma WrittenFile(job: Job, s: State, w: nat, t: State)
    requires FileHolds(s) && w < |s.workers| && s.workers[w].Appending?
    requires t.done == s.done && t.workers == s.workers[w := Idle]
    requires (t.file == s.file + [s.workers[w].out] && t.lost == s.lost)
          || (t.file == s.file && t.lost == s.lost + [s.workers[w].out.questionId])
    ensures FileHolds(t)
  {
    var out := s.workers[w].out;
    FoldSnoc(SetDone, map[], s.file, out);
    assert InMemory(s, out);
    assert out.questionId in s.lost + [out.questionId];
    forall id | id in t.done && id !in Load(t.file) && id !in t.lost ensures BeingAppended(t.workers, id) {
      StillAppended(s.workers, w, Idle, id);
    }
    forall v | 0 <= v < |t.workers| && t.workers[v].Appending? ensures InMemory(t, t.workers[v].out) {
      assert InMemory(s, s.workers[v].out);
    }
  }

  lemma StepFile(job: Job, s: State, step: Step)
    requires Proper(job) && Inv(job, s) && Enabled(job, s, step)
    ensures FileHolds(Next(job, s, step))
  {
    match step
    case Take(w) => QuietFile(s, w, Next(job, s, step));
    case Judged(w, ability, score) => JudgedFile(job, s, w, ability, score);
    case JudgeFailed(w) => QuietFile(s, w, Next(job, s, step));
    case Appended(w) => WrittenFile(job, s, w, Next(job, s, step));
    case AppendFailed(w) => WrittenFile(job, s, w, Next(job, s, step));
  }

  lemma StillJudged(workers: seq<Worker>, w: nat, x: Worker, i: nat)
    requires w < |workers| && BeingJudged(workers, i)
    ensures BeingJudged(workers[w := x], i) || workers[w] == Judging(i)
  {
    var v :| 0 <= v < |workers| && workers[v] == Judging(i);
    if v != w {
      assert workers[w := x][v] == workers[v];
    }
  }

  lemma StepRows(job: Job, s: State, step: Step)
    requires Proper(job) && Inv(job, s) && Enabled(job, s, step)
    ensures RowsHold(job, Next(job, s, step))
  {
    var t := Next(job, s, step);
    var w := step.w;
    assert t.workers == s.workers[w := t.workers[w]];
    if t.failed == 0 {
      forall k | 0 <= k < Min(|t.claims|, |job.todo|) ensures job.todo[k] in t.done || BeingJudged(t.workers, k) {
        if k < |s.claims| {
          if job.todo[k] !in s.done {
            StillJudged(s.workers, w, t.workers[w], k);
          }
        } else {
          assert t.workers[w] == Judging(k);
        }
      }
    }
  }

  lemma StepKeeps(job: Job, s: State, step: Step)
    requires Proper(job) && Inv(job, s) && Enabled(job, s, step)
    ensures Inv(job, Next(job, s, step))
  {
    StepClaims(job, s, step);
    StepCounts(job, s, step);
    StepFile(job, s, step);
    StepRows(job, s, step);
  }

  lemma {:induction false} RunKeeps(job: Job, run: seq<State>, steps: seq<Step>, k: nat)
    requires Proper(job) && IsRun(job, run, steps) && k < |run|
    ensures Inv(job, run[k])
  {
    if k == 0 {
      StartHolds(job);
    } else {
      RunKeeps(job, run, steps, k - 1);
      StepKeeps(job, run[k - 1], steps[k - 1]);
    }
  }

  // ---- where the scores come from -----------------------------------------------------------

  /** Before step `k`, the judge gave this very score to this row, which the dataset knows. */
  ghost predicate Genuine(job: Job, run: seq<State>, steps: seq<Step>, k: nat, row: Scored)
    requires |run| == |steps| + 1 && k < |run|
  {
    exists j :: 0 <= j < k && GivenAt(job, run[j], steps[j], row)
  }

  ghost predicate GivenAt(job: Job, s: State, step: Step, row: Scored) {
    && step.Judged? && step.w < |s.workers| && s.workers[step.w].Judging?
    && s.workers[step.w].i < |job.todo| && job.todo[s.workers[step.w].i] == row.questionId
    && row.ability == step.ability && row.score == step.score && row.questionId in job.known
  }

  ghost predicate WorkersGenuine(job: Job, run: seq<State>, steps: seq<Step>, k: nat)
    requires |run| == |steps| + 1 && k < |run|
  {
    forall w :: 0 <= w < |run[k].workers| ==> WorkerGenuine(job, run, steps, k, run[k].workers[w])
  }

  ghost predicate WorkerGenuine(job: Job, run: seq<State>, steps: seq<Step>, k: nat, x: Worker)
    requires |run| == |steps| + 1 && k < |run|
  {
    match x
    case Judging(i) => i < |job.todo| && job.todo[i] in job.known
    case Appending(out) => Genuine(job, run, steps, k, out)
    case _ => true
  }

  ghost predicate RowsGenuine(job: Job, run: seq<State>, steps: seq<Step>, k: nat)
    requires |run| == |steps| + 1 && k < |run|
  {
    && (forall id :: id in run[k].done ==>
      || (id in Load(job.found) && run[k].done[id] == Load(job.found)[id])
      || (run[k].done[id].questionId == id && Genuine(job, run, steps, k, run[k].done[id])))
    && (forall row :: row in run[k].file ==> row in job.found || Genuine(job, run, steps, k, row))
  }

  lemma StillGenuine(job: Job, run: seq<State>, steps: seq<Step>, k: nat, row: Scored)
    requires |run| == |steps| + 1 && k < |steps|
    ensures Genuine(job, run, steps, k, row) ==> Genuine(job, run, steps, k + 1, row)
    ensures GivenAt(job, run[k], steps[k], row) ==> Genuine(job, run, steps, k + 1, row)
  {
    if Genuine(job, run, steps, k, row) {
      var j :| 0 <= j < k && GivenAt(job, run[j], steps[j], row);
      assert GivenAt(job, run[j], steps[j], row);
    }
  }

  lemma WorkersStayGenuine(job: Job, run: seq<State>, steps: seq<Step>, k: nat)
    requires IsRun(job, run, steps) && k < |steps| && WorkersGenuine(job, run, steps, k)
    ensures WorkersGenuine(job, run, steps, k + 1)
  {
    var s, t := run[k], run[k + 1];
    forall w | 0 <= w < |t.workers| ensures WorkerGenuine(job, run, steps, k + 1, t.workers[w]) {
      assert WorkerGenuine(job, run, steps, k, s.workers[w]);
      if t.workers[w].Appending? {
        StillGenuine(job, run, steps, k, t.workers[w].out);
      }
    }
  }

  lemma RowsStayGenuine(job: Job, run: seq<State>, steps: seq<Step>, k: nat)
    requires IsRun(job, run, steps) && k < |steps|
    requires WorkersGenuine(job, run, steps, k) && RowsGenuine(job, run, steps, k)
    ensures RowsGenuine(job, run, steps, k + 1)
  {
    var s, t := run[k], run[k + 1];
    forall id | id in t.done
      ensures (id in Load(job.found) && t.done[id] == Load(job.found)[id])
           || (t.done[id].questionId == id && Genuine(job, run, steps, k + 1, t.done[id]))
    {
      StillGenuine(job, run, steps, k, t.done[id]);
    }
    forall row | row in t.file ensures row in job.found || Genuine(job, run, steps, k + 1, row) {
      StillGenuine(job, run, steps, k, row);
    }
  }

  /** At any step: every row in memory or in the file was found there, or was given this very score by
      the judge in this run, and is one the dataset knows. */
  lemma {:induction false} ScoresAreGiven(job: Job, run: seq<State>, steps: seq<Step>, k: nat)
    requires IsRun(job, run, steps) && k < |run|
    ensures WorkersGenuine(job, run, steps, k) && RowsGenuine(job, run, steps, k)
  {
    if k > 0 {
      ScoresAreGiven(job, run, steps, k - 1);
      WorkersStayGenuine(job, run, steps, k - 1);
      RowsStayGenuine(job, run, steps, k - 1);
    }
  }

  // ---- a crash at any step ------------------------------------------------------------------

  /** Judged rows that a crash right now would lose. */
  ghost function Missing(s: State): set<string> {
    s.done.Keys - Load(s.file).Keys
  }

  ghost function AppendingIds(workers: seq<Worker>): set<string> {
    if workers == [] then {}
    else (if workers[0].Appending? then {workers[0].out.questionId} else {}) + AppendingIds(workers[1..])
  }

  ghost function Members(ids: seq<string>): set<string> {
    if ids == [] then {} else {ids[0]} + Members(ids[1..])
  }

  lemma {:induction false} FewAppending(workers: seq<Worker>)
    ensures |AppendingIds(workers)| <= |workers|
    ensures forall id :: BeingAppended(workers, id) ==> id in AppendingIds(workers)
  {
    if workers != [] {
      FewAppending(workers[1..]);
      forall id | BeingAppended(workers, id) ensures id in AppendingIds(workers) {
        var w :| 0 <= w < |workers| && workers[w].Appending? && workers[w].out.questionId == id;
        if w > 0 {
          assert workers[1..][w - 1] == workers[w];
          assert BeingAppended(workers[1..], id);
        }
      }
    }
  }

  lemma {:induction false} FewMembers(ids: seq<string>)
    ensures |Members(ids)| <= |ids| && forall id :: id in ids ==> id in Members(ids)
  {
    if ids != [] {
      FewMembers(ids[1..]);
    }
  }

  /** Whenever the run dies, at most one judged row per worker is not in the file, besides those
      whose write had failed. */
  lemma CrashLosesFew(job: Job, run: seq<State>, steps: seq<Step>, k: nat)
    requires Proper(job) && IsRun(job, run, steps) && k < |run|
    ensures |Missing(run[k])| <= job.concurrency + |run[k].lost|
  {
    RunKeeps(job, run, steps, k);
    var s := run[k];
    FewAppending(s.workers);
    FewMembers(s.lost);
    SubsetSize(Missing(s), AppendingIds(s.workers) + Members(s.lost));
  }

  // ---- the end of a run ---------------------------------------------------------------------

  ghost predicate AllFinished(s: State) {
    forall w :: 0 <= w < |s.workers| ==> s.workers[w].Finished?
  }

  lemma {:induction false} NoneJudging(workers: seq<Worker>)
    requires forall w :: 0 <= w < |workers| ==> workers[w].Finished?
    ensures JudgingCount(workers) == 0
  {
    if workers != [] {
      NoneJudging(workers[1..]);
    }
  }

  /** Each row to do was claimed exactly once, in order; and the rows in memory at the end are the
      ones found plus the ones to do less the failures exactly when no write failed and there was
      a worker to do the work. */
  lemma FinalCountExactlyWhen(job: Job, run: seq<State>, steps: seq<Step>)
    requires Proper(job) && IsRun(job, run, steps) && AllFinished(run[|steps|])
    ensures var end := run[|steps|];
      && (job.concurrency > 0 || job.todo == [] ==>
        && |end.claims| == |job.todo| && (forall k :: 0 <= k < |end.claims| ==> end.claims[k] == k)
        && |end.done| == |Load(job.found)| + |job.todo| - end.failed + |end.lost|)
      && (|end.done| == |Load(job.found)| + |job.todo| - end.failed
        <==> end.lost == [] && (job.concurrency > 0 || job.todo == []))
  {
    RunKeeps(job, run, steps, |steps|);
    var end := run[|steps|];
    NoneJudging(end.workers);
    if job.concurrency > 0 {
      assert end.workers[0].Finished?;
    }
  }

  function Weight(w: Worker): nat {
    match w
    case Finished => 0
    case Idle => 1
    case Appending(_) => 2
    case Judging(_) => 3
  }

  function Weights(workers: seq<Worker>): nat {
    if workers == [] then 0 else Weight(workers[0]) + Weights(workers[1..])
  }

  function ToGo(job: Job, s: State): nat {
    4 * (|job.todo| - Min(s.cursor, |job.todo|)) + Weights(s.workers)
  }

  lemma {:induction false} WeightsMove(workers: seq<Worker>, w: nat, x: Worker)
    requires w < |workers|
    ensures Weights(workers[w := x]) == Weights(workers) - Weight(workers[w]) + Weight(x)
  {
    if w > 0 {
      WeightsMove(workers[1..], w - 1, x);
      assert workers[w := x][1..] == workers[1..][w - 1 := x];
    } else {
      assert workers[w := x][1..] == workers[1..];
    }
  }

  lemma StepProgresses(job: Job, s: State, step: Step)
    requires Enabled(job, s, step)
    ensures ToGo(job, Next(job, s, step)) < ToGo(job, s)
  {
    var t := Next(job, s, step);
    WeightsMove(s.workers, step.w, t.workers[step.w]);
    assert t.workers == s.workers[step.w := t.workers[step.w]];
  }

  lemma {:induction false} IdleWeights(n: nat)
    ensures Weights(seq(n, _ => Idle)) == n
  {
    if n > 0 {
      IdleWeights(n - 1);
      assert seq(n, _ => Idle)[1..] == seq(n - 1, _ => Idle);
    }
  }

  lemma {:induction false} RunBound(job: Job, run: seq<State>, steps: seq<Step>, k: nat)
    requires IsRun(job, run, steps) && k < |run|
    ensures k + ToGo(job, run[k]) <= 4 * |job.todo| + job.concurrency
  {
    if k == 0 {
      IdleWeights(job.concurrency);
    } else {
      RunBound(job, run, steps, k - 1);
      StepProgresses(job, run[k - 1], steps[k - 1]);
    }
  }

  /** No run goes on for ever, and one that cannot go on has finished. */
  lemma EveryRunFinishes(job: Job, run: seq<State>, steps: seq<Step>)
    requires Proper(job) && IsRun(job, run, steps)
    ensures |steps| <= 4 * |job.todo| + job.concurrency
    ensures (forall step :: !Enabled(job, run[|steps|], step)) ==> AllFinished(run[|steps|])
  {
    RunBound(job, run, steps, |steps|);
    RunKeeps(job, run, steps, |steps|);
    var s := run[|steps|];
    if forall step :: !Enabled(job, s, step) {
      forall w | 0 <= w < |s.workers| ensures s.workers[w].Finished? {
        assert !Enabled(job, s, Take(w)) && !Enabled(job, s, JudgeFailed(w)) && !Enabled(job, s, Appended(w));
      }
    }
  }

  // ---- resuming -----------------------------------------------------------------------------

  lemma {:induction false} RemainingIs(report: seq<string>, done: map<string, Scored>)
    requires Distinct(report)
    ensures Distinct(Remaining(report, done))
    ensures forall id :: id in Remaining(report, done) <==> id in report && id !in done
  {
    if report != [] {
      var n := |report| - 1;
      var rest := Remaining(report[..n], done);
      RemainingIs(report[..n], done);
      assert report == report[..n] + [report[n]];
      assert report[n] !in report[..n];
      forall i | 0 <= i < |rest| ensures rest[i] != report[n] {
        assert rest[i] in rest;
      }
    }
  }

  /** The job a re-run of the same report finds after a crash in state `s`. */
  function Resumed(report: seq<string>, known: set<string>, s: State, concurrency: nat): Job {
    Job(Remaining(report, Load(s.file)), known, s.file, concurrency)
  }

  ghost function JudgedAgain(s: State, next: Job): set<string> {
    set id | id in s.done && id in next.todo
  }

  /** A crash at any step and a re-run. The re-run judges no row that is in the file, keeps the
      scores found there, judges again at most one row per worker of the first run (and the lost
      ones), and if nothing fails it ends with every row of the report scored and written. */
  lemma CrashAndResume(report: seq<string>, job: Job, run: seq<State>, steps: seq<Step>,
                       concurrency: nat, again: seq<State>, more: seq<Step>)
    requires Distinct(report) && job.todo == Remaining(report, Load(job.found))
    requires IsRun(job, run, steps)
    requires IsRun(Resumed(report, job.known, run[|steps|], concurrency), again, more)
    ensures var s, next := run[|steps|], Resumed(report, job.known, run[|steps|], concurrency);
      var end := again[|more|];
      && (forall id :: id in next.todo ==> id !in Load(s.file))
      && (forall id :: id in Load(s.file) ==> id in s.done && id in end.done && end.done[id] == s.done[id])
      && |JudgedAgain(s, next)| <= job.concurrency + |s.lost|
      && (AllFinished(end) && end.failed == 0 && concurrency > 0 ==>
        forall id :: id in report ==> id in end.done && id in Load(end.file))
  {
    RemainingIs(report, Load(job.found));
    var s, next := run[|steps|], Resumed(report, job.known, run[|steps|], concurrency);
    RemainingIs(report, Load(s.file));
    assert Proper(job) && Proper(next);
    RunKeeps(job, run, steps, |steps|);
    RunKeeps(next, again, more, |more|);
    CrashLosesFew(job, run, steps, |steps|);
    SubsetSize(JudgedAgain(s, next), Missing(s));
    var end := again[|more|];
    if AllFinished(end) && end.failed == 0 && concurrency > 0 {
      AllScored(report, next, end);
    }
  }

  lemma AllScored(report: seq<string>, job: Job, end: State)
    requires Proper(job) && Inv(job, end) && AllFinished(end) && end.failed == 0 && job.concurrency > 0
    requires forall id :: id in report ==> id in job.todo || id in Load(job.found)
    ensures forall id :: id in report ==> id in end.done && id in Load(end.file)
  {
    assert end.workers[0].Finished?;
    forall id | id in report ensures id in end.done && id in Load(end.file) {
      if id in job.todo {
        var k :| 0 <= k < |job.todo| && job.todo[k] == id;
        assert !BeingJudged(end.workers, k);
      }
      assert !BeingAppended(end.workers, id);
    }
  }

  /** A run that ends with a row in memory, a failure counted, and no line in the file. */
  lemma AppendFailureBreaksTheCount()
    ensures exists job: Job, run: seq<State>, steps: seq<Step> ::
      && Proper(job) && IsRun(job, run, steps) && AllFinished(run[|steps|]) && job.concurrency > 0
      && run[|steps|].lost == job.todo
      && |run[|steps|].done| != |Load(job.found)| + |job.todo| - run[|steps|].failed
  {
    var job := Job(["a"], {"a"}, [], 1);
    var steps := [Take(0), Judged(0, "recall", 1.0), AppendFailed(0), Take(0)];
    var out := Scored("a", "recall", 1.0);
    var s0 := Start(job);
    assert s0.workers == [Idle];
    var s1 := Next(job, s0, steps[0]);
    assert s1.workers == [Judging(0)];
    var s2 := Next(job, s1, steps[1]);
    assert s2.workers == [Appending(out)];
    var s3 := Next(job, s2, steps[2]);
    assert s3.workers == [Idle] && s3.lost == ["a"];
    var s4 := Next(job, s3, steps[3]);
    assert s4.workers == [Finished] && s4.failed == 1 && s4.done == map["a" := out];
    var run := [s0, s1, s2, s3, s4];
    assert IsRun(job, run, steps);
    assert Proper(job) && AllFinished(run[|steps|]);
    assert |s4.done| == 1 && |Load(job.found)| == 0;
  }
}
