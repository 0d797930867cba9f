/**
  The keyset loop of scripts/backfill-lang-attribution.ts, run against a table that other clients
  go on writing to between any two of its statements.
 */
module Backfill {
  import opened Collections

  /** What the language detector answers, and the stamp made of it. */
  datatype Detection = Detection(language: string, confidence: real, version: string)

  datatype Attribution = Attribution(lang: Option<string>, confidence: real, source: string, version: string)

  /** A fact; `text`, the `object` column, is absent when it is not a string. */
  datatype Fact = Fact(text: Option<string>, attribution: Option<Attribution>)

  type Table = map<int, Fact>

  predicate HasText(text: Option<string>) {
    text.Some? && text.value != ""
  }

  /** `attributionFor`: an undetermined language is stored as none. */
  function AttributionFor(text: string, detect: string -> Detection): Attribution {
    var d := detect(text);
    Attribution(if d.language == "und" then None else Some(d.language), d.confidence, "detected", d.version)
  }

  /** `UPDATE $id SET …`, which does nothing to a row that is gone. */
  function Stamp(t: Table, id: int, a: Attribution): (r: Table)
    ensures r.Keys == t.Keys && forall k :: k in t ==> r[k].text == t[k].text && (k != id ==> r[k] == t[k])
    ensures id in t ==> r[id].attribution == Some(a)
  {
    if id in t then t[id := t[id].(attribution := Some(a))] else t
  }

  // ---- one page -----------------------------------------------------------------------------

  predicate After(id: int, cursor: Option<int>) {
    cursor.Some? ==> id > cursor.value
  }

  predicate Least(m: int, s: set<int>) {
    m in s && forall x :: x in s ==> m <= x
  }

  lemma EmptyOrNot(s: set<int>)
    ensures s == {} || exists x :: x in s
  {
    if forall x :: x !in s {
      assert s == {};
    }
  }

  lemma {:induction false} HasLeast(s: set<int>)
    requires s != {}
    ensures exists m :: Least(m, s)
    decreases |s|
  {
    EmptyOrNot(s);
    var x :| x in s;
    var rest := s - {x};
    assert forall y :: y in s <==> y == x || y in rest;
    if rest == {} {
      assert Least(x, s);
    } else {
      HasLeast(rest);
      var m :| Least(m, rest);
      assert Least(if x < m then x else m, s);
    }
  }

  function MinOf(s: set<int>): (m: int)
    requires s != {}
    ensures Least(m, s)
  {
    HasLeast(s);
    var m :| m in s && Least(m, s);
    m
  }

  function Ascending(s: set<int>): seq<int>
    decreases |s|
  {
    if s == {} then []
    else
      var m := MinOf(s);
      [m] + Ascending(s - {m})
  }

  ghost predicate Increasing(ids: seq<int>) {
    forall i, j :: 0 <= i < j < |ids| ==> ids[i] < ids[j]
  }

  lemma {:induction false} AscendingIs(s: set<int>)
    ensures Increasing(Ascending(s)) && forall x :: x in Ascending(s) <==> x in s
    decreases |s|
  {
    if s != {} {
      var m := MinOf(s);
      AscendingIs(s - {m});
      var rest := Ascending(s - {m});
      assert forall x :: x in s <==> x == m || x in s - {m};
      forall j | 0 <= j < |rest| ensures m < rest[j] {
        assert rest[j] in rest;
      }
    }
  }

  /** `SELECT … WHERE id > $cursor ORDER BY id ASC LIMIT $batch`. */
  function PageIds(t: Table, cursor: Option<int>, batch: nat): seq<int> {
    var ids := Ascending(set id | id in t && After(id, cursor));
    if |ids| <= batch then ids else ids[..batch]
  }

  /** `ids` are rows of `t`, in order, from just after `cursor` on without a gap. */
  ghost predicate Consecutive(t: Table, cursor: Option<int>, ids: seq<int>) {
    && Increasing(ids)
    && (forall i :: 0 <= i < |ids| ==> ids[i] in t && After(ids[i], cursor))
    && (forall id, i :: id in t && After(id, cursor) && 0 <= i < |ids| && id <= ids[i] ==> id in ids)
  }

  lemma PageIsConsecutive(t: Table, cursor: Option<int>, batch: nat)
    requires batch > 0
    ensures Consecutive(t, cursor, PageIds(t, cursor, batch)) && |PageIds(t, cursor, batch)| <= batch
    ensures PageIds(t, cursor, batch) == [] ==> forall id :: id in t ==> !After(id, cursor)
  {
    var s := set id | id in t && After(id, cursor);
    AscendingIs(s);
    PrefixIsConsecutive(t, cursor, Ascending(s), |PageIds(t, cursor, batch)|);
    forall id | id in t && PageIds(t, cursor, batch) == [] ensures !After(id, cursor) {
      assert id in s <==> After(id, cursor);
    }
  }

  lemma PrefixIsConsecutive(t: Table, cursor: Option<int>, all: seq<int>, n: nat)
    requires n <= |all| && Increasing(all)
    requires forall id :: id in all <==> id in t && After(id, cursor)
    ensures Consecutive(t, cursor, all[..n])
  {
    forall i | 0 <= i < n ensures all[i] in t && After(all[i], cursor) {
      assert all[i] in all;
    }
    forall id, i | id in t && After(id, cursor) && 0 <= i < n && id <= all[i] ensures id in all[..n] {
      assert id in all;
      var j :| 0 <= j < |all| && all[j] == id;
      assert j <= i;
      assert all[..n][j] == id;
    }
  }

  // ---- the table, and those who write to it -------------------------------------------------

  /** What the other clients do to the table between the previous statement and the `n`-th. */
  type Others = (nat, Table) -> Table

  /** One row of a page, as it was read. */
  datatype Read = Read(id: int, text: Option<string>)

  function ReadsOf(t: Table, ids: seq<int>): (fetched: seq<Read>)
    requires forall i :: 0 <= i < |ids| ==> ids[i] in t
    ensures |fetched| == |ids| && forall i :: 0 <= i < |ids| ==> fetched[i] == Read(ids[i], t[ids[i]].text)
  {
    seq(|ids|, i requires 0 <= i < |ids| => Read(ids[i], t[ids[i]].text))
  }

  /** The table now, the table each statement met, and the updates issued. */
  datatype Record = Record(rows: Table, history: seq<Table>, stamps: seq<(int, Attribution)>)

  /** The database as one session sees it. The ghost fields are its record: the table each statement
      met, every row its pages returned, and every update it issued. */
  class Store {
    var rows: Table
    var statements: nat
    const others: Others
    ghost var history: seq<Table>
    ghost var fetched: seq<Read>
    ghost var stamps: seq<(int, Attribution)>

    constructor (rows: Table, others: Others)
      ensures this.rows == rows && this.others == others && statements == 0 && New()
    {
      this.rows, this.others, statements, history, fetched, stamps := rows, others, 0, [], [], [];
    }

    ghost function State(): Record
      reads this
    {
      Record(rows, history, stamps)
    }

    ghost predicate New()
      reads this
    {
      history == [] && fetched == [] && stamps == []
    }

    method Select(cursor: Option<int>, batch: nat) returns (page: seq<Read>)
      requires batch > 0
      modifies this
      ensures rows == others(old(statements), old(rows)) && statements == old(statements) + 1
      ensures forall i :: 0 <= i < |PageIds(rows, cursor, batch)| ==> PageIds(rows, cursor, batch)[i] in rows
      ensures page == ReadsOf(rows, PageIds(rows, cursor, batch))
      ensures history == old(history) + [rows] && fetched == old(fetched) + page && stamps == old(stamps)
    {
      rows := others(statements, rows);
      statements := statements + 1;
      history := history + [rows];
      PageIsConsecutive(rows, cursor, batch);
      page := ReadsOf(rows, PageIds(rows, cursor, batch));
      fetched := fetched + page;
    }

    method Update(id: int, a: Attribution)
      modifies this
      ensures rows == Stamp(others(old(statements), old(rows)), id, a) && statements == old(statements) + 1
      ensures history == old(history) + [others(old(statements), old(rows))]
      ensures fetched == old(fetched) && stamps == old(stamps) + [(id, a)]
    {
      rows := others(statements, rows);
      statements := statements + 1;
      history := history + [rows];
      rows := Stamp(rows, id, a);
      stamps := stamps + [(id, a)];
    }
  }

  // ---- what a session's record should be ----------------------------------------------------

  ghost function IdsOf(fetched: seq<Read>): (ids: seq<int>)
    ensures |ids| == |fetched| && forall i :: 0 <= i < |ids| ==> ids[i] == fetched[i].id
  {
    seq(|fetched|, i requires 0 <= i < |fetched| => fetched[i].id)
  }

  /** The rows that had a text when they were read. */
  ghost function Due(fetched: seq<Read>): seq<Read> {
    if fetched == [] then []
    else
      var r := fetched[|fetched| - 1];
      Due(fetched[..|fetched| - 1]) + if HasText(r.text) then [r] else []
  }

  /** One update for each such row, with the attribution of the text that was read. */
  ghost function StampsFor(fetched: seq<Read>, detect: string -> Detection): seq<(int, Attribution)> {
    if fetched == [] then []
    else
      var r := fetched[|fetched| - 1];
      StampsFor(fetched[..|fetched| - 1], detect)
      + if HasText(r.text) then [(r.id, AttributionFor(r.text.value, detect))] else []
  }

  lemma DueSnoc(fetched: seq<Read>, r: Read, detect: string -> Detection)
    ensures Due(fetched + [r]) == Due(fetched) + if HasText(r.text) then [r] else []
    ensures IdsOf(Due(fetched + [r])) == IdsOf(Due(fetched)) + if HasText(r.text) then [r.id] else []
    ensures IdsOf(fetched + [r]) == IdsOf(fetched) + [r.id]
    ensures StampsFor(fetched + [r], detect)
         == StampsFor(fetched, detect) + if HasText(r.text) then [(r.id, AttributionFor(r.text.value, detect))] else []
  {
    assert (fetched + [r])[..|fetched|] == fetched;
  }

  /** The row has been there with a text at every statement of the session. */
  ghost predicate Throughout(history: seq<Table>, id: int) {
    forall k :: 0 <= k < |history| ==> id in history[k] && HasText(history[k][id].text)
  }

  /** Every row read was there, with that text, at some statement. */
  ghost predicate Witnessed(history: seq<Table>, fetched: seq<Read>) {
    forall r :: r in fetched ==> Seen(history, r)
  }

  ghost predicate Seen(history: seq<Table>, r: Read) {
    exists k :: 0 <= k < |history| && r.id in history[k] && history[k][r.id].text == r.text
  }

  ghost predicate UpTo(id: int, cursor: Option<int>) {
    !After(id, cursor)
  }

  /** Every row up to `cursor` that was there throughout is in the log. */
  ghost predicate Covered(history: seq<Table>, cursor: Option<int>, log: seq<int>) {
    forall id :: UpTo(id, cursor) && Throughout(history, id) ==> id in log
  }

  /** Ids only go up, and none is beyond `cursor`. */
  ghost predicate Ordered(ids: seq<int>, cursor: Option<int>) {
    Increasing(ids) && forall i :: 0 <= i < |ids| ==> UpTo(ids[i], cursor)
  }

  /** A row the other clients never write to. */
  ghost predicate LeftAlone(others: Others, id: int) {
    forall n, t :: id in t ==> id in others(n, t) && others(n, t)[id] == t[id]
  }

  function Backfilled(f: Fact, detect: string -> Detection): Fact {
    if HasText(f.text) then f.(attribution := Some(AttributionFor(f.text.value, detect))) else f
  }

  /** The rows nobody else writes to: stamped if logged (and this is no dry run), else as found. */
  ghost predicate Steady(start: Table, rows: Table, others: Others, detect: string -> Detection,
                         dryRun: bool, log: seq<int>) {
    forall id :: id in start && LeftAlone(others, id) ==>
      id in rows && rows[id] == if id in log && !dryRun then Backfilled(start[id], detect) else start[id]
  }

  ghost predicate TextsKept(start: Table, t: Table, others: Others) {
    && (forall id :: id in start && LeftAlone(others, id) ==> id in t && t[id].text == start[id].text)
    && (Quiet(others) ==> t.Keys == start.Keys)
  }

  ghost predicate Quiet(others: Others) {
    forall n, t :: others(n, t) == t
  }

  // ---- one row ------------------------------------------------------------------------------

  lemma EarlierToo(history: seq<Table>, later: seq<Table>, id: int)
    requires history <= later && Throughout(later, id)
    ensures Throughout(history, id)
  {
    forall k | 0 <= k < |history| ensures id in history[k] && HasText(history[k][id].text) {
      assert later[k] == history[k];
    }
  }

  lemma StillWitnessed(history: seq<Table>, later: seq<Table>, fetched: seq<Read>)
    requires history <= later && Witnessed(history, fetched)
    ensures Witnessed(later, fetched)
  {
    forall r | r in fetched ensures Seen(later, r) {
      assert Seen(history, r);
      var k :| 0 <= k < |history| && r.id in history[k] && history[k][r.id].text == r.text;
      assert later[k] == history[k];
    }
  }

  /** Passing row `id`, the next one of the page, leaves no row behind. */
  lemma CoverNext(history: seq<Table>, later: seq<Table>, cursor: Option<int>, log: seq<int>,
                  id: int, logged: seq<int>)
    requires Covered(history, cursor, log) && history <= later
    requires forall x :: x in log ==> x in logged
    requires Throughout(later, id) ==> id in logged
    requires forall x :: Throughout(later, x) && After(x, cursor) && x <= id ==> x == id
    ensures Covered(later, Some(id), logged)
  {
    forall x | UpTo(x, Some(id)) && Throughout(later, x) ensures x in logged {
      EarlierToo(history, later, x);
      assert UpTo(x, cursor) || x == id;
    }
  }

  lemma SteadyNext(start: Table, rows: Table, others: Others, detect: string -> Detection,
                   log: seq<int>, n: nat, id: int, text: string)
    requires Steady(start, rows, others, detect, false, log) && id !in log
    requires id in start && LeftAlone(others, id) ==> start[id].text == Some(text) && text != ""
    requires Quiet(others) ==> rows.Keys == start.Keys
    ensures Steady(start, Stamp(others(n, rows), id, AttributionFor(text, detect)), others, detect, false, log + [id])
    ensures TextsKept(start, others(n, rows), others)
  {
    var t := others(n, rows);
    forall x | x in start && LeftAlone(others, x) ensures x in t && t[x] == rows[x] {
    }
    assert forall x :: x in log + [id] <==> x in log || x == id;
  }

  /** Where the session stands once it has passed the rows `seen`, up to `top`. */
  ghost predicate Sound(start: Table, others: Others, now: Record, detect: string -> Detection, dryRun: bool,
                        top: Option<int>, seen: seq<Read>) {
    && Ordered(IdsOf(seen), top) && Ordered(IdsOf(Due(seen)), top)
    && now.stamps == (if dryRun then [] else StampsFor(seen, detect))
    && Covered(now.history, top, IdsOf(Due(seen))) && Witnessed(now.history, seen)
    && Steady(start, now.rows, others, detect, dryRun, IdsOf(Due(seen)))
    && (forall k :: 0 <= k < |now.history| ==> TextsKept(start, now.history[k], others))
    && (Quiet(others) ==> now.rows.Keys == start.Keys)
  }

  /** `id` is the first row of `t` after `top`. */
  ghost predicate NextOf(t: Table, top: Option<int>, id: int) {
    id in t && After(id, top) && forall x :: x in t && After(x, top) && x <= id ==> x == id
  }

  lemma OrderedNext(ids: seq<int>, top: Option<int>, id: int)
    requires Ordered(ids, top) && After(id, top)
    ensures Ordered(ids, Some(id)) && Ordered(ids + [id], Some(id)) && id !in ids
  {
  }

  lemma WitnessNext(history: seq<Table>, seen: seq<Read>, t: Table, r: Read)
    requires Witnessed(history, seen) && t in history && r.id in t && t[r.id].text == r.text
    ensures Witnessed(history, seen + [r])
  {
    assert Seen(history, r);
    assert forall x :: x in seen + [r] <==> x in seen || x == r;
  }

  /** A row without a text, or any row of a dry run, is passed without a statement. */
  lemma SkipKeeps(start: Table, others: Others, now: Record, detect: string -> Detection, dryRun: bool,
                  top: Option<int>, seen: seq<Read>, t: Table, r: Read)
    requires Sound(start, others, now, detect, dryRun, top, seen) && (dryRun || !HasText(r.text))
    requires t in now.history && NextOf(t, top, r.id) && r.text == t[r.id].text
    ensures Sound(start, others, now, detect, dryRun, Some(r.id), seen + [r])
  {
    DueSnoc(seen, r, detect);
    OrderedNext(IdsOf(seen), top, r.id);
    OrderedNext(IdsOf(Due(seen)), top, r.id);
    WitnessNext(now.history, seen, t, r);
    forall x | Throughout(now.history, x) ensures x in t && HasText(t[x].text) {
    }
    var log, logged := IdsOf(Due(seen)), IdsOf(Due(seen + [r]));
    assert forall x :: x in logged <==> x in log || (HasText(r.text) && x == r.id);
    CoverNext(now.history, now.history, top, log, r.id, logged);
  }

  lemma CoverStamped(history: seq<Table>, met: Table, top: Option<int>, log: seq<int>, t: Table, id: int)
    requires t in history && NextOf(t, top, id) && Covered(history, top, log)
    ensures Covered(history + [met], Some(id), log + [id])
  {
    forall x | Throughout(history + [met], x) ensures x in t {
      EarlierToo(history, history + [met], x);
    }
    CoverNext(history, history + [met], top, log, id, log + [id]);
  }

  /** What the `n`-th statement leaves when it stamps `r`. */
  ghost function Stamped(now: Record, others: Others, n: nat, r: Read, detect: string -> Detection): Record
    requires HasText(r.text)
  {
    var met, a := others(n, now.rows), AttributionFor(r.text.value, detect);
    Record(Stamp(met, r.id, a), now.history + [met], now.stamps + [(r.id, a)])
  }

  lemma UpdateKeeps(start: Table, others: Others, now: Record, detect: string -> Detection,
                    top: Option<int>, seen: seq<Read>, n: nat, t: Table, r: Read)
    requires Sound(start, others, now, detect, false, top, seen) && HasText(r.text)
    requires t in now.history && NextOf(t, top, r.id) && r.text == t[r.id].text
    ensures Sound(start, others, Stamped(now, others, n, r, detect), detect, false, Some(r.id), seen + [r])
  {
    var log, met := IdsOf(Due(seen)), others(n, now.rows);
    DueSnoc(seen, r, detect);
    OrderedNext(IdsOf(seen), top, r.id);
    OrderedNext(log, top, r.id);
    WitnessNext(now.history, seen, t, r);
    StillWitnessed(now.history, now.history + [met], seen + [r]);
    CoverStamped(now.history, met, top, log, t, r.id);
    SteadyNext(start, now.rows, others, detect, log, n, r.id, r.text.value);
  }

  /** The other clients only ever use ids from `universe`, if one is given. */
  ghost predicate Within(others: Others, universe: Option<set<int>>) {
    forall n, t: Table :: Inside(t, universe) ==> Inside(others(n, t), universe)
  }

  ghost predicate Inside(t: Table, universe: Option<set<int>>) {
    universe.Some? ==> t.Keys <= universe.value
  }

  method PassRow(store: Store, r: Read, detect: string -> Detection, dryRun: bool,
                 ghost start: Table, ghost t: Table, ghost top: Option<int>, ghost seen: seq<Read>,
                 ghost universe: Option<set<int>>)
    returns (stamped: bool)
    requires Within(store.others, universe) && Inside(store.rows, universe)
    requires Sound(start, store.others, store.State(), detect, dryRun, top, seen)
    requires t in store.history && NextOf(t, top, r.id) && r.text == t[r.id].text
    modifies store
    ensures stamped == HasText(r.text)
    ensures Sound(start, store.others, store.State(), detect, dryRun, Some(r.id), seen + [r])
    ensures store.fetched == old(store.fetched) && t in store.history
    ensures Inside(store.rows, universe)
  {
    stamped := HasText(r.text);
    if !stamped || dryRun {
      SkipKeeps(start, store.others, store.State(), detect, dryRun, top, seen, t, r);
    } else {
      UpdateKeeps(start, store.others, store.State(), detect, top, seen, store.statements, t, r);
      store.Update(r.id, AttributionFor(r.text.value, detect));
      assert store.State() == Stamped(old(store.State()), store.others, old(store.statements), r, detect);
    }
  }

  ghost function TopAt(cursor: Option<int>, page: seq<Read>, i: nat): Option<int>
    requires i <= |page|
  {
    if i == 0 then cursor else Some(page[i - 1].id)
  }

  lemma NextInPage(t: Table, cursor: Option<int>, page: seq<Read>, i: nat)
    requires Consecutive(t, cursor, IdsOf(page)) && i < |page|
    ensures NextOf(t, TopAt(cursor, page, i), page[i].id)
  {
    var ids := IdsOf(page);
    forall a | 0 <= a < i ensures !After(ids[a], TopAt(cursor, page, i)) {
      assert ids[a] <= ids[i - 1];
    }
    forall x | x in t && After(x, TopAt(cursor, page, i)) && x <= ids[i] ensures x == ids[i] {
      assert After(ids[0], cursor) && After(x, cursor);
      assert x in ids;
      var j :| 0 <= j < |ids| && ids[j] == x;
      assert j >= i;
    }
  }

  /** `page` is what a query of `t` returned. */
  ghost predicate PageFrom(t: Table, cursor: Option<int>, page: seq<Read>) {
    && Consecutive(t, cursor, IdsOf(page))
    && forall i :: 0 <= i < |page| ==> page[i].id in t && page[i].text == t[page[i].id].text
  }

  /** What was read once `i` rows of the page are done. */
  ghost predicate PassedIs(passed: seq<Read>, seen: seq<Read>, page: seq<Read>, i: nat) {
    i <= |page| && passed == seen + page[..i]
  }

  lemma PassedNext(passed: seq<Read>, seen: seq<Read>, page: seq<Read>, i: nat)
    requires PassedIs(passed, seen, page, i) && i < |page|
    ensures PassedIs(passed + [page[i]], seen, page, i + 1)
  {
    PushNext(seen, page, i);
  }

  lemma WholePage(seen: seq<Read>, page: seq<Read>)
    ensures PassedIs(seen, seen, page, 0)
    ensures forall passed :: PassedIs(passed, seen, page, |page|) ==> passed == seen + page
  {
    assert page[..|page|] == page;
  }

  lemma DueGrows(fetched: seq<Read>, r: Read, detect: string -> Detection)
    ensures |Due(fetched + [r])| == |Due(fetched)| + if HasText(r.text) then 1 else 0
  {
    DueSnoc(fetched, r, detect);
  }

  /** The `i`-th row of a page. */
  method PassNth(store: Store, page: seq<Read>, i: nat, cursor: Option<int>, detect: string -> Detection, dryRun: bool,
                 ghost start: Table, ghost t: Table, ghost passed: seq<Read>, ghost universe: Option<set<int>>)
    returns (stamped: nat)
    requires i < |page| && PageFrom(t, cursor, page) && t in store.history
    requires Sound(start, store.others, store.State(), detect, dryRun, TopAt(cursor, page, i), passed)
    requires Within(store.others, universe) && Inside(store.rows, universe)
    modifies store
    ensures Sound(start, store.others, store.State(), detect, dryRun, TopAt(cursor, page, i + 1), passed + [page[i]])
    ensures |Due(passed + [page[i]])| == |Due(passed)| + stamped
    ensures store.fetched == old(store.fetched) && t in store.history && Inside(store.rows, universe)
  {
    NextInPage(t, cursor, page, i);
    DueGrows(passed, page[i], detect);
    assert TopAt(cursor, page, i + 1) == Some(page[i].id);
    var one := PassRow(store, page[i], detect, dryRun, start, t, TopAt(cursor, page, i), passed, universe);
    stamped := if one then 1 else 0;
  }

  method PassPage(store: Store, page: seq<Read>, cursor: Option<int>, detect: string -> Detection, dryRun: bool,
                  ghost start: Table, ghost t: Table, ghost seen: seq<Read>, ghost universe: Option<set<int>>)
    returns (stamped: nat)
    requires Sound(start, store.others, store.State(), detect, dryRun, cursor, seen)
    requires t in store.history && PageFrom(t, cursor, page)
    requires Within(store.others, universe) && Inside(store.rows, universe)
    modifies store
    ensures Sound(start, store.others, store.State(), detect, dryRun, TopAt(cursor, page, |page|), seen + page)
    ensures |Due(seen + page)| == |Due(seen)| + stamped
    ensures store.fetched == old(store.fetched) && Inside(store.rows, universe)
  {
    WholePage(seen, page);
    stamped := 0;
    var i := 0;
    ghost var passed := seen;
    while i < |page|
      invariant i <= |page| && PassedIs(passed, seen, page, i)
      invariant Sound(start, store.others, store.State(), detect, dryRun, TopAt(cursor, page, i), passed)
      invariant t in store.history && Inside(store.rows, universe) && store.fetched == old(store.fetched)
      invariant |Due(passed)| == |Due(seen)| + stamped
    {
      PassedNext(passed, seen, page, i);
      var one := PassNth(store, page, i, cursor, detect, dryRun, start, t, passed, universe);
      passed := passed + [page[i]];
      i, stamped := i + 1, stamped + one;
    }
  }

  /** What the `n`-th statement leaves when it is a query. */
  ghost function Queried(now: Record, others: Others, n: nat): Record {
    Record(others(n, now.rows), now.history + [others(n, now.rows)], now.stamps)
  }

  lemma QueryKeeps(start: Table, others: Others, now: Record, detect: string -> Detection, dryRun: bool,
                   cursor: Option<int>, seen: seq<Read>, n: nat)
    requires Sound(start, others, now, detect, dryRun, cursor, seen)
    ensures Sound(start, others, Queried(now, others, n), detect, dryRun, cursor, seen)
  {
    var met := others(n, now.rows);
    forall x | x in start && LeftAlone(others, x) ensures x in met && met[x] == now.rows[x] {
    }
    CoveredLater(now.history, now.history + [met], cursor, IdsOf(Due(seen)));
    StillWitnessed(now.history, now.history + [met], seen);
  }

  /** The query at the head of the loop. */
  method NextPage(store: Store, cursor: Option<int>, batch: nat, detect: string -> Detection, dryRun: bool,
                  ghost start: Table, ghost universe: Option<set<int>>)
    returns (page: seq<Read>)
    requires batch > 0 && Sound(start, store.others, store.State(), detect, dryRun, cursor, store.fetched)
    requires Within(store.others, universe) && Inside(store.rows, universe)
    modifies store
    ensures Sound(start, store.others, store.State(), detect, dryRun, cursor, old(store.fetched))
    ensures store.fetched == old(store.fetched) + page && Inside(store.rows, universe)
    ensures store.history != [] && PageFrom(store.history[|store.history| - 1], cursor, page)
    ensures page == [] ==> forall id :: id in store.history[|store.history| - 1] ==> !After(id, cursor)
    ensures page != [] ==>
      (universe.Some? ==> page[|page| - 1].id in universe.value) && After(page[|page| - 1].id, cursor)
  {
    QueryKeeps(start, store.others, store.State(), detect, dryRun, cursor, store.fetched, store.statements);
    page := store.Select(cursor, batch);
    assert store.State() == Queried(old(store.State()), store.others, old(store.statements));
    PageIsConsecutive(store.rows, cursor, batch);
    assert IdsOf(page) == PageIds(store.rows, cursor, batch);
  }

  /** What one session leaves behind, whatever the others do in between. Its pages list ids once
      each and in order; it issues one update for each row that had a text when it was read (none
      in a dry run), and every row that was there with a text all along is among them. A row that
      nobody else wrote to ends up stamped with its own attribution, or as it was. */
  ghost predicate Outcome(start: Table, store: Store, detect: string -> Detection, dryRun: bool)
    reads store
  {
    && store.history != []
    && Increasing(IdsOf(store.fetched)) && Increasing(IdsOf(Due(store.fetched)))
    && Witnessed(store.history, store.fetched)
    && store.stamps == (if dryRun then [] else StampsFor(store.fetched, detect))
    && (forall id :: Throughout(store.history, id) ==> id in IdsOf(Due(store.fetched)))
    && (forall id :: id in start && LeftAlone(store.others, id) ==>
      id in store.rows && store.rows[id] == if dryRun then start[id] else Backfilled(start[id], detect))
    && (forall k :: 0 <= k < |store.history| ==> TextsKept(start, store.history[k], store.others))
    && (Quiet(store.others) ==> store.rows.Keys == start.Keys)
  }

  /** The table of the last query had nothing after the cursor. */
  ghost predicate LastWasEmpty(store: Store, cursor: Option<int>)
    reads store
  {
    store.history != [] && forall id :: id in store.history[|store.history| - 1] ==> !After(id, cursor)
  }

  /** One round of the loop; `done` when the page was empty. */
  method Round(store: Store, cursor: Option<int>, batch: nat, detect: string -> Detection, dryRun: bool,
               ghost start: Table, ghost universe: Option<set<int>>)
    returns (done: bool, next: Option<int>, scanned: nat, stamped: nat)
    requires batch > 0 && Sound(start, store.others, store.State(), detect, dryRun, cursor, store.fetched)
    requires Within(store.others, universe) && Inside(store.rows, universe)
    modifies store
    ensures Sound(start, store.others, store.State(), detect, dryRun, next, store.fetched)
    ensures |store.fetched| == |old(store.fetched)| + scanned
    ensures |Due(store.fetched)| == |Due(old(store.fetched))| + stamped
    ensures Inside(store.rows, universe)
    ensures done ==> LastWasEmpty(store, next)
    ensures done ==> next == cursor && scanned == stamped == 0
    ensures !done ==> next.Some? && After(next.value, cursor) && scanned > 0
    ensures !done && universe.Some? ==> next.value in universe.value
  {
    ghost var seen := store.fetched;
    var page := NextPage(store, cursor, batch, detect, dryRun, start, universe);
    if |page| == 0 {
      assert seen + page == seen;
      return true, cursor, 0, 0;
    }
    var last := page[|page| - 1].id;
    ghost var t := store.history[|store.history| - 1];
    var more := PassPage(store, page, cursor, detect, dryRun, start, t, seen, universe);
    return false, Some(last), |page|, more;
  }

  /** The loop after at most `rounds` rounds, whatever the others write: what was read and stamped so
      far is as it should be, a round that does not end it reads at least one row more, and `done`
      comes with the outcome of a whole session. */
  method BackfillFor(store: Store, batch: nat, dryRun: bool, detect: string -> Detection, rounds: nat)
    returns (done: bool, cursor: Option<int>, scanned: nat, stamped: nat)
    requires batch > 0 && store.New()
    modifies store
    ensures Sound(old(store.rows), store.others, store.State(), detect, dryRun, cursor, store.fetched)
    ensures scanned == |store.fetched| && stamped == |Due(store.fetched)|
    ensures done ==> Outcome(old(store.rows), store, detect, dryRun)
    ensures !done ==> scanned >= rounds
  {
    ghost var start := store.rows;
    done, cursor, scanned, stamped := false, None, 0, 0;
    var round := 0;
    while !done && round < rounds
      invariant Sound(start, store.others, store.State(), detect, dryRun, cursor, store.fetched)
      invariant scanned == |store.fetched| && stamped == |Due(store.fetched)|
      invariant round <= rounds && (!done ==> scanned >= round)
      invariant done ==> LastWasEmpty(store, cursor)
      decreases rounds - round
    {
      var more, due;
      done, cursor, more, due := Round(store, cursor, batch, detect, dryRun, start, None);
      scanned, stamped, round := scanned + more, stamped + due, round + 1;
    }
    if done {
      AllCovered(start, store, detect, dryRun, cursor);
    }
  }

  ghost function Ahead(universe: set<int>, cursor: Option<int>): set<int> {
    set id | id in universe && After(id, cursor)
  }

  lemma AheadShrinks(universe: set<int>, cursor: Option<int>, id: int)
    requires id in universe && After(id, cursor)
    ensures Ahead(universe, Some(id)) < Ahead(universe, cursor)
  {
    assert id in Ahead(universe, cursor) && id !in Ahead(universe, Some(id));
  }

  /** The backfill. When the ids ever in use are finitely many, the loop ends although the table may
      go on changing, because the cursor leaves fewer and fewer ids ahead. */
  method BackfillAll(store: Store, batch: nat, dryRun: bool, detect: string -> Detection, ghost universe: set<int>)
    returns (scanned: nat, stamped: nat)
    requires batch > 0 && store.New()
    requires Within(store.others, Some(universe)) && Inside(store.rows, Some(universe))
    modifies store
    ensures Outcome(old(store.rows), store, detect, dryRun)
    ensures scanned == |store.fetched| && stamped == |Due(store.fetched)|
    ensures Inside(store.rows, Some(universe))
  {
    ghost var start := store.rows;
    var cursor: Option<int>, done := None, false;
    scanned, stamped := 0, 0;
    while !done
      invariant Sound(start, store.others, store.State(), detect, dryRun, cursor, store.fetched)
      invariant Inside(store.rows, Some(universe))
      invariant scanned == |store.fetched| && stamped == |Due(store.fetched)|
      invariant done ==> LastWasEmpty(store, cursor)
      decreases !done, Ahead(universe, cursor)
    {
      var more, due;
      ghost var before := cursor;
      done, cursor, more, due := Round(store, cursor, batch, detect, dryRun, start, Some(universe));
      scanned, stamped := scanned + more, stamped + due;
      if !done {
        AheadShrinks(universe, before, cursor.value);
      }
    }
    AllCovered(start, store, detect, dryRun, cursor);
  }

  lemma CoveredLater(history: seq<Table>, later: seq<Table>, cursor: Option<int>, log: seq<int>)
    requires Covered(history, cursor, log) && history <= later
    ensures Covered(later, cursor, log)
  {
    forall x | UpTo(x, cursor) && Throughout(later, x) ensures x in log {
      EarlierToo(history, later, x);
    }
  }

  /** When the last page came back empty, nothing that was there throughout is left. */
  lemma AllCovered(start: Table, store: Store, detect: string -> Detection, dryRun: bool, cursor: Option<int>)
    requires Sound(start, store.others, store.State(), detect, dryRun, cursor, store.fetched)
    requires LastWasEmpty(store, cursor)
    ensures Outcome(start, store, detect, dryRun)
  {
    var t, log := store.history[|store.history| - 1], IdsOf(Due(store.fetched));
    forall id | Throughout(store.history, id) ensures id in log {
      assert id in t;
    }
    forall id | id in start && LeftAlone(store.others, id) && HasText(start[id].text)
      ensures Throughout(store.history, id)
    {
      assert forall k :: 0 <= k < |store.history| ==> TextsKept(start, store.history[k], store.others);
    }
  }

  // ---- two passes ---------------------------------------------------------------------------

  lemma {:induction false} StampsMean(fetched: seq<Read>, detect: string -> Detection, p: (int, Attribution))
    ensures p in StampsFor(fetched, detect) <==>
      exists r :: r in fetched && HasText(r.text) && p == (r.id, AttributionFor(r.text.value, detect))
  {
    if fetched != [] {
      var n := |fetched| - 1;
      StampsMean(fetched[..n], detect, p);
      assert fetched == fetched[..n] + [fetched[n]];
    }
  }

  lemma {:induction false} DueMeans(fetched: seq<Read>, id: int)
    requires id in IdsOf(Due(fetched))
    ensures exists r :: r in fetched && HasText(r.text) && r.id == id
  {
    var n := |fetched| - 1;
    assert fetched == fetched[..n] + [fetched[n]];
    if !(HasText(fetched[n].text) && fetched[n].id == id) {
      var due := Due(fetched);
      var i :| 0 <= i < |due| && due[i].id == id;
      assert IdsOf(Due(fetched[..n]))[i] == id;
      DueMeans(fetched[..n], id);
    }
  }

  /** A row that nobody else writes to is stamped with the attribution of its own text, if it has
      one, and with nothing else. */
  lemma OwnStamps(start: Table, store: Store, detect: string -> Detection, id: int, a: Attribution)
    requires Outcome(start, store, detect, false)
    requires id in start && LeftAlone(store.others, id)
    ensures (id, a) in store.stamps <==> HasText(start[id].text) && a == AttributionFor(start[id].text.value, detect)
  {
    StampsMean(store.fetched, detect, (id, a));
    if (id, a) in store.stamps {
      var r :| r in store.fetched && HasText(r.text) && (id, a) == (r.id, AttributionFor(r.text.value, detect));
      assert Seen(store.history, r);
    }
    if HasText(start[id].text) {
      assert forall k :: 0 <= k < |store.history| ==> TextsKept(start, store.history[k], store.others);
      assert Throughout(store.history, id);
      DueMeans(store.fetched, id);
      var r :| r in store.fetched && HasText(r.text) && r.id == id;
      assert Seen(store.history, r);
    }
  }

  /** What such a stamp says: the language found, none if it could not be told, and how and how surely
      it was found; a row without a text, or with an empty one, gets no stamp. */
  lemma StampSays(start: Table, store: Store, detect: string -> Detection, id: int, a: Attribution)
    requires Outcome(start, store, detect, false)
    requires id in start && LeftAlone(store.others, id)
    ensures (id, a) in store.stamps <==>
      && start[id].text.Some? && |start[id].text.value| > 0
      && (var found := detect(start[id].text.value);
          && (a.lang == None <==> found.language == "und") && (a.lang.Some? ==> a.lang.value == found.language)
          && a.confidence == found.confidence && a.source == "detected" && a.version == found.version)
  {
    OwnStamps(start, store, detect, id, a);
  }

  lemma {:induction false} StampIds(fetched: seq<Read>, detect: string -> Detection)
    ensures |StampsFor(fetched, detect)| == |Due(fetched)|
    ensures forall i :: 0 <= i < |Due(fetched)| ==> StampsFor(fetched, detect)[i].0 == Due(fetched)[i].id
  {
    if fetched != [] {
      StampIds(fetched[..|fetched| - 1], detect);
    }
  }

  ghost predicate Rising(stamps: seq<(int, Attribution)>) {
    forall i, j :: 0 <= i < j < |stamps| ==> stamps[i].0 < stamps[j].0
  }

  lemma {:induction false} SameStamps(a: seq<(int, Attribution)>, b: seq<(int, Attribution)>)
    requires Rising(a) && Rising(b) && forall p :: p in a <==> p in b
    ensures a == b
  {
    if a == [] {
      NoneIn(b);
    } else {
      assert a[0] in b && b != [];
      assert b[0] in a;
      assert a == [a[0]] + a[1..] && b == [b[0]] + b[1..];
      assert a[0] == b[0];
      assert a[0] !in a[1..] && b[0] !in b[1..];
      forall p ensures p in a[1..] <==> p in b[1..] {
        assert p in a <==> p in b;
      }
      SameStamps(a[1..], b[1..]);
    }
  }

  lemma NoneIn(b: seq<(int, Attribution)>)
    ensures b != [] ==> b[0] in b
  {
  }

  /** If nobody else writes at all, the updates are those of the rows with a text, in id order. */
  lemma QuietStamps(start: Table, store: Store, detect: string -> Detection, p: (int, Attribution))
    requires Outcome(start, store, detect, false) && Quiet(store.others)
    ensures Rising(store.stamps)
    ensures p in store.stamps <==>
      p.0 in start && HasText(start[p.0].text) && p.1 == AttributionFor(start[p.0].text.value, detect)
  {
    StampIds(store.fetched, detect);
    var due := Due(store.fetched);
    forall i, j | 0 <= i < j < |due| ensures due[i].id < due[j].id {
      assert IdsOf(due)[i] < IdsOf(due)[j];
    }
    assert LeftAlone(store.others, p.0);
    if p in store.stamps {
      StampsMean(store.fetched, detect, p);
      var r :| r in store.fetched && HasText(r.text) && p == (r.id, AttributionFor(r.text.value, detect));
      assert Seen(store.history, r);
      var k :| 0 <= k < |store.history| && r.id in store.history[k];
      assert TextsKept(start, store.history[k], store.others);
    }
    if p.0 in start {
      OwnStamps(start, store, detect, p.0, p.1);
    }
  }

  /** Two sessions of the script, one after the other. For a row that only this script writes, the
      first pass leaves it stamped, and the second issues the same update and leaves it as it was;
      and if nobody else writes at all, the second pass issues exactly the updates of the first, in
      the same order, and leaves the same table. */
  method RunTwice(rows: Table, others: Others, later: Others, batch: nat, detect: string -> Detection,
                  ghost universe: set<int>)
    returns (first: Store, second: Store)
    requires batch > 0 && rows.Keys <= universe
    requires Within(others, Some(universe)) && Within(later, Some(universe))
    ensures fresh(first) && fresh(second) && first.others == others && second.others == later
    ensures Outcome(rows, first, detect, false) && Outcome(first.rows, second, detect, false)
    ensures forall id :: id in rows && LeftAlone(others, id) && LeftAlone(later, id) ==>
      && id in first.rows && first.rows[id] == Backfilled(rows[id], detect)
      && id in second.rows && second.rows[id] == first.rows[id]
      && forall a :: (id, a) in second.stamps <==> (id, a) in first.stamps
    ensures Quiet(others) && Quiet(later) ==> second.rows == first.rows && second.stamps == first.stamps
  {
    first := new Store(rows, others);
    var scanned, stamped := BackfillAll(first, batch, false, detect, universe);
    second := new Store(first.rows, later);
    scanned, stamped := BackfillAll(second, batch, false, detect, universe);
    forall id, a | id in rows && LeftAlone(others, id) && LeftAlone(later, id)
      ensures (id, a) in second.stamps <==> (id, a) in first.stamps
    {
      OwnStamps(rows, first, detect, id, a);
      OwnStamps(first.rows, second, detect, id, a);
    }
    if Quiet(others) && Quiet(later) {
      QuietAgain(rows, first, second, detect);
    }
  }

  lemma QuietAgain(rows: Table, first: Store, second: Store, detect: string -> Detection)
    requires Outcome(rows, first, detect, false) && Outcome(first.rows, second, detect, false)
    requires Quiet(first.others) && Quiet(second.others)
    ensures second.rows == first.rows && second.stamps == first.stamps
  {
    assert forall id :: LeftAlone(first.others, id) && LeftAlone(second.others, id);
    assert forall id :: id in first.rows ==> second.rows[id] == first.rows[id];
    forall p ensures p in first.stamps <==> p in second.stamps {
      QuietStamps(rows, first, detect, p);
      QuietStamps(first.rows, second, detect, p);
      assert p.0 in rows <==> p.0 in first.rows;
      if p.0 in rows {
        assert LeftAlone(first.others, p.0);
        assert first.rows[p.0] == Backfilled(rows[p.0], detect);
      }
    }
    var p := (0, Attribution(None, 0.0, "", ""));
    QuietStamps(rows, first, detect, p);
    QuietStamps(first.rows, second, detect, p);
    SameStamps(first.stamps, second.stamps);
  }
}
