/** The three tables of one chain, and the statements the worker runs on them. */
module Tables {
  import opened Domain

  datatype TableSet = TableSet(blocks: map<int, Block>, alerts: map<nat, Alert>, periods: map<int, Period>)

  const APPENDER_CHUNK_ROWS := 2048
  const ALERT_PAGE := 500

  // ---- blocks -------------------------------------------------------------

  /** The primary key on height lets the batch in. */
  ghost predicate Insertable(rows: map<int, Block>, batch: seq<Block>) {
    && (forall b <- batch :: b.height !in rows)
    && (forall i, j :: 0 <= i < j < |batch| ==> batch[i].height != batch[j].height)
  }

  predicate InsertableNow(rows: map<int, Block>, batch: seq<Block>)
    ensures InsertableNow(rows, batch) <==> Insertable(rows, batch)
  {
    && (forall i :: 0 <= i < |batch| ==> batch[i].height !in rows)
    && (forall i, j :: 0 <= i < j < |batch| ==> batch[i].height != batch[j].height)
  }

  function WithBlocks(rows: map<int, Block>, batch: seq<Block>): (r: map<int, Block>)
    ensures r.Keys == rows.Keys + set b | b in batch :: b.height
    ensures forall h :: h in rows && (forall b <- batch :: b.height != h) ==> r[h] == rows[h]
  {
    if batch == [] then rows
    else
      var last := batch[|batch| - 1];
      var before := batch[..|batch| - 1];
      assert batch == before + [last];
      WithBlocks(rows, before)[last.height := last]
  }

  lemma {:induction false} WithBlocksAt(rows: map<int, Block>, batch: seq<Block>, k: nat)
    requires Insertable(rows, batch) && k < |batch|
    ensures WithBlocks(rows, batch)[batch[k].height] == batch[k]
  {
    if k < |batch| - 1 {
      var before := batch[..|batch| - 1];
      assert forall b <- before :: b in batch;
      WithBlocksAt(rows, before, k);
    }
  }

  lemma {:induction false} MaxExists(keys: set<int>)
    requires keys != {}
    ensures exists h :: h in keys && forall x <- keys :: x <= h
    decreases |keys|
  {
    assert (forall x :: x !in keys) ==> keys == {};
    var a :| a in keys;
    if keys - {a} == {} {
      assert forall x <- keys :: x == a by {
        forall x | x in keys ensures x == a { assert x !in keys - {a}; }
      }
    } else {
      MaxExists(keys - {a});
      var m :| m in keys - {a} && forall x <- keys - {a} :: x <= m;
      var top := if a > m then a else m;
      assert top in keys && forall x <- keys :: x <= top by {
        forall x | x in keys ensures x <= top { if x != a { assert x in keys - {a}; } }
      }
    }
  }

  /** The greatest stored height, if any. */
  function Latest(rows: map<int, Block>): (r: Option<int>)
    ensures r.None? <==> rows == map[]
    ensures r.Some? ==> r.value in rows && forall h <- rows :: h <= r.value
  {
    if rows == map[] then None
    else
      assert rows.Keys != {};
      MaxExists(rows.Keys);
      var h :| h in rows.Keys && forall x <- rows.Keys :: x <= h;
      Some(h)
  }

  /** The stored blocks with from <= height <= last, in ascending order. */
  function Rows(rows: map<int, Block>, from: int, last: int): (r: seq<Block>)
    ensures forall b <- r :: exists h :: from <= h <= last && h in rows && b == rows[h]
    decreases last - from + 1
  {
    if from > last then []
    else Rows(rows, from, last - 1) + (if last in rows then [rows[last]] else [])
  }

  /** How many stored blocks in the range count towards the window, and how many of those are misses. */
  function Stats(rows: map<int, Block>, from: int, last: int): (r: WindowStats)
    ensures r.missed <= r.total
    decreases last - from + 1
  {
    if from > last then WindowStats(0, 0)
    else
      var below := Stats(rows, from, last - 1);
      if last !in rows then below
      else WindowStats(if rows[last].signed != -1 then below.total + 1 else below.total,
                       if rows[last].signed == 0 then below.missed + 1 else below.missed)
  }

  ghost predicate KeyedByHeight(rows: map<int, Block>) {
    forall h <- rows :: rows[h].height == h
  }

  /** A range read returns exactly the stored blocks of the range, each once, in ascending order. */
  lemma {:induction false} RowsAreRange(rows: map<int, Block>, from: int, last: int)
    requires KeyedByHeight(rows)
    ensures
      var r := Rows(rows, from, last);
      && (forall h :: from <= h <= last && h in rows ==> rows[h] in r)
      && (forall b <- r :: from <= b.height <= last && b.height in rows && rows[b.height] == b)
      && (forall i, j :: 0 <= i < j < |r| ==> r[i].height < r[j].height)
    decreases last - from + 1
  {
    if from <= last {
      RowsAreRange(rows, from, last - 1);
      var below, r := Rows(rows, from, last - 1), Rows(rows, from, last);
      assert forall i :: 0 <= i < |below| ==> r[i] == below[i] && below[i] in below;
      assert last in rows ==> r[|r| - 1] == rows[last];
    }
  }

  /** The heights of a range that count towards the window: those at which the validator was active. */
  function Counted(rows: map<int, Block>, from: int, last: int): set<int> {
    set h | h in rows && from <= h <= last && rows[h].signed != -1
  }

  function Missed(rows: map<int, Block>, from: int, last: int): set<int> {
    set h | h in rows && from <= h <= last && rows[h].signed == 0
  }

  lemma CountedSnoc(rows: map<int, Block>, from: int, last: int)
    requires from <= last
    ensures
      var before := |Counted(rows, from, last - 1)|;
      |Counted(rows, from, last)| == if last in rows && rows[last].signed != -1 then before + 1 else before
  {
    assert Counted(rows, from, last) ==
      Counted(rows, from, last - 1) + if last in rows && rows[last].signed != -1 then {last} else {};
  }

  lemma MissedSnoc(rows: map<int, Block>, from: int, last: int)
    requires from <= last
    ensures
      var before := |Missed(rows, from, last - 1)|;
      |Missed(rows, from, last)| == if last in rows && rows[last].signed == 0 then before + 1 else before
  {
    assert Missed(rows, from, last) ==
      Missed(rows, from, last - 1) + if last in rows && rows[last].signed == 0 then {last} else {};
  }

  /** The window's two counts are the numbers of heights that count, and of those that were missed. */
  lemma {:induction false} StatsCount(rows: map<int, Block>, from: int, last: int)
    ensures Stats(rows, from, last) == WindowStats(|Counted(rows, from, last)|, |Missed(rows, from, last)|)
    decreases last - from + 1
  {
    assert from > last ==> Counted(rows, from, last) == {} && Missed(rows, from, last) == {};
    hide Counted, Missed;
    if from <= last {
      StatsCount(rows, from, last - 1);
      CountedSnoc(rows, from, last);
      MissedSnoc(rows, from, last);
    }
  }

  // ---- alerts -------------------------------------------------------------

  predicate Unclosed(a: Alert) { a.closedAt.None? }

  /** The unclosed rows among the alerts with id below `n`, oldest first. */
  function UnclosedBelow(rows: map<nat, Alert>, n: nat): (r: seq<Alert>)
    ensures forall a <- r :: exists id :: id < n && id in rows && rows[id] == a && Unclosed(a)
    ensures forall id :: id < n && id in rows && Unclosed(rows[id]) ==> rows[id] in r
  {
    if n == 0 then []
    else UnclosedBelow(rows, n - 1) + (if n - 1 in rows && Unclosed(rows[n - 1]) then [rows[n - 1]] else [])
  }

  ghost predicate Ascending(r: seq<Alert>, rows: map<nat, Alert>, n: nat) {
    && (forall i :: 0 <= i < |r| ==> r[i].id < n && r[i].id in rows && rows[r[i].id] == r[i])
    && (forall i, j :: 0 <= i < j < |r| ==> r[i].id < r[j].id)
  }

  lemma {:induction false} UnclosedAscending(rows: map<nat, Alert>, n: nat)
    requires forall id <- rows :: rows[id].id == id
    ensures Ascending(UnclosedBelow(rows, n), rows, n)
  {
    if n > 0 {
      UnclosedAscending(rows, n - 1);
    }
  }

  /** Each unclosed row is listed once, in the order of the ids, which is that of opening as long as the clock does not go back. */
  lemma UnclosedInOrder(rows: map<nat, Alert>, n: nat)
    requires forall id <- rows :: rows[id].id == id
    ensures
      var r := UnclosedBelow(rows, n);
      && (forall id: nat :: id < n && id in rows && Unclosed(rows[id]) <==> exists i :: 0 <= i < |r| && r[i].id == id)
      && (forall i, j :: 0 <= i < j < |r| ==> r[i].id < r[j].id)
      && ((forall a, b :: a in rows && b in rows && a < b ==> rows[a].openedAt <= rows[b].openedAt) ==>
            forall i, j :: 0 <= i < j < |r| ==> r[i].openedAt <= r[j].openedAt)
  {
    UnclosedAscending(rows, n);
    hide UnclosedBelow;
    var r := UnclosedBelow(rows, n);
    forall i | 0 <= i < |r| ensures Unclosed(r[i]) {
      assert r[i] in r;
    }
    forall id: nat | id < n && id in rows && Unclosed(rows[id]) ensures exists i :: 0 <= i < |r| && r[i].id == id {
      assert rows[id] in r;
    }
    forall i, j | 0 <= i < j < |r| && (forall a, b :: a in rows && b in rows && a < b ==> rows[a].openedAt <= rows[b].openedAt)
      ensures r[i].openedAt <= r[j].openedAt
    {
      assert r[i] == rows[r[i].id] && r[j] == rows[r[j].id];
    }
  }

  /** First page of the unclosed alerts. Ids are handed out in opening order. */
  function UnclosedPage(rows: map<nat, Alert>, nextId: nat): seq<Alert> {
    var all := UnclosedBelow(rows, nextId);
    if |all| <= ALERT_PAGE then all else all[..ALERT_PAGE]
  }

  /** The page holds at most 500 rows, and an unclosed row is left out only for 500 with smaller ids. */
  lemma PageIsFirst(rows: map<nat, Alert>, nextId: nat, id: nat)
    requires (forall i <- rows :: rows[i].id == i) && id < nextId && id in rows && Unclosed(rows[id])
    ensures
      var page := UnclosedPage(rows, nextId);
      && |page| <= 500
      && (rows[id] in page || (|page| == 500 && forall a <- page :: a.id < id))
  {
    UnclosedAscending(rows, nextId);
    hide UnclosedBelow;
    var all, page := UnclosedBelow(rows, nextId), UnclosedPage(rows, nextId);
    var k :| 0 <= k < |all| && all[k] == rows[id];
    assert k < |page| ==> page[k] == rows[id];
  }

  function Closing(rows: map<nat, Alert>, id: nat, at: int): map<nat, Alert> {
    if id in rows then rows[id := rows[id].(closedAt := Some(at))] else rows
  }

  function Touching(rows: map<nat, Alert>, id: nat, at: int, count: nat): map<nat, Alert> {
    if id in rows then rows[id := rows[id].(lastNotifiedAt := Some(at), repeatCount := count)] else rows
  }

  // ---- inactivity periods -------------------------------------------------

  predicate Ongoing(p: Period) { p.endHeight.None? }

  function OngoingStarts(rows: map<int, Period>): set<int> {
    set h | h in rows && Ongoing(rows[h])
  }

  /** The newest ongoing period. */
  function NewestOngoing(rows: map<int, Period>): (r: Option<Period>)
    ensures r.None? <==> OngoingStarts(rows) == {}
    ensures r.Some? ==> exists h :: h in OngoingStarts(rows) && r.value == rows[h] && forall x <- OngoingStarts(rows) :: x <= h
  {
    var starts := OngoingStarts(rows);
    if starts == {} then None
    else
      MaxExists(starts);
      var h :| h in starts && forall x <- starts :: x <= h;
      Some(rows[h])
  }

  function Ending(rows: map<int, Period>, start: int, end: int, time: int): map<int, Period> {
    if start in rows then rows[start := rows[start].(endHeight := Some(end), endTime := Some(time))] else rows
  }

  /**
   * One chain's rows as the worker's database handle sees them. The `ok` argument of a statement
   * says whether the database carries it out; a statement that fails changes nothing.
   */
  class ChainDb {
    var blocks: map<int, Block>
    var alerts: map<nat, Alert>
    var periods: map<int, Period>

    constructor (t: TableSet)
      ensures Contents() == t
    {
      blocks, alerts, periods := t.blocks, t.alerts, t.periods;
    }

    ghost function Contents(): TableSet
      reads this
    {
      TableSet(blocks, alerts, periods)
    }

    method AppendBlocks(batch: seq<Block>, ok: bool) returns (done: bool)
      modifies this`blocks
      ensures done <==> ok && Insertable(old(blocks), batch)
      ensures blocks == if done then WithBlocks(old(blocks), batch) else old(blocks)
    {
      var staged: seq<Block> := [];
      var i := 0;
      while i < |batch|
        invariant 0 <= i
        invariant staged == batch[..if i <= |batch| then i else |batch|]
        invariant blocks == old(blocks)
      {
        var end := if i + APPENDER_CHUNK_ROWS <= |batch| then i + APPENDER_CHUNK_ROWS else |batch|;
        staged := staged + batch[i..end];
        i := i + APPENDER_CHUNK_ROWS;
      }
      assert staged == batch;
      done := ok && InsertableNow(blocks, staged);
      if done {
        blocks := WithBlocks(blocks, staged);
      }
    }

    method InsertBlocks(batch: seq<Block>, ok: bool) returns (done: bool)
      modifies this`blocks
      ensures done <==> ok && Insertable(old(blocks), batch)
      ensures blocks == if done then WithBlocks(old(blocks), batch) else old(blocks)
    {
      done := ok && InsertableNow(blocks, batch);
      if done {
        blocks := WithBlocks(blocks, batch);
      }
    }

    method InsertAlert(a: Alert, ok: bool) returns (done: bool)
      modifies this`alerts
      ensures done <==> ok && a.id !in old(alerts)
      ensures alerts == if done then old(alerts)[a.id := a] else old(alerts)
    {
      done := ok && a.id !in alerts;
      if done {
        alerts := alerts[a.id := a];
      }
    }

    method CloseAlert(id: nat, at: int, ok: bool)
      modifies this`alerts
      ensures alerts == if ok then Closing(old(alerts), id, at) else old(alerts)
    {
      if ok {
        alerts := Closing(alerts, id, at);
      }
    }

    method TouchAlertNotified(id: nat, at: int, count: nat, ok: bool)
      modifies this`alerts
      ensures alerts == if ok then Touching(old(alerts), id, at, count) else old(alerts)
    {
      if ok {
        alerts := Touching(alerts, id, at, count);
      }
    }

    method InsertInactivity(p: Period, ok: bool)
      modifies this`periods
      ensures periods == if ok then old(periods)[p.height := p] else old(periods)
    {
      if ok {
        periods := periods[p.height := p];
      }
    }

    method EndInactivity(start: int, end: int, time: int, ok: bool)
      modifies this`periods
      ensures periods == if ok then Ending(old(periods), start, end, time) else old(periods)
    {
      if ok {
        periods := Ending(periods, start, end, time);
      }
    }
  }
}
