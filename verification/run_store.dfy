/**
  The durable run table. Every operation is one atomic statement against the table, so each is a
  function on the table's value; the class below applies them in place. Times are integers
  (module Timestamps justifies this), and a lease or TTL is in the same unit.
 */
module RunStore {
  import opened Wrappers

  datatype Status = Pending | Running | Completed | MaxStepsReached | Failed {
    predicate Terminal() { !Pending? && !Running? }
    // Position in pending -> running -> terminal.
    function Rank(): nat { if Pending? then 0 else if Running? then 1 else 2 }
  }

  datatype Payload = Payload(goal: string, result: Option<string>)

  datatype Row = Row(kind: string, status: Status, payload: Payload, key: Option<string>, error: Option<string>,
                     created: int, updated: int)

  type Rows = map<string, Row>

  // ----- The UNIQUE (kind, idempotency_key) constraint; absent keys are distinct -----

  predicate SameKey(a: Row, b: Row) {
    a.kind == b.kind && a.key.Some? && a.key == b.key
  }

  ghost predicate UniqueKeys(rows: Rows) {
    forall i, j :: i in rows && j in rows && SameKey(rows[i], rows[j]) ==> i == j
  }

  predicate KeyTaken(rows: Rows, kind: string, key: string) {
    exists i :: i in rows && rows[i].kind == kind && rows[i].key == Some(key)
  }

  // get_run_by_idempotency_key: an empty key is never looked up.
  ghost function FindByKey(rows: Rows, kind: string, key: string): (found: Option<string>)
    ensures found.Some? <==> key != "" && KeyTaken(rows, kind, key)
    ensures found.Some? ==> found.value in rows && rows[found.value].kind == kind && rows[found.value].key == Some(key)
  {
    if key != "" && KeyTaken(rows, kind, key) then
      var i :| i in rows && rows[i].kind == kind && rows[i].key == Some(key);
      Some(i)
    else
      None
  }

  // ----- create_run -----

  // The run id of the record returned, or the integrity error raised again.
  datatype Creation = Stored(id: string) | Raised

  // The INSERT violates the primary key or the UNIQUE constraint.
  predicate Conflict(rows: Rows, id: string, kind: string, key: Option<string>) {
    id in rows || (key.Some? && KeyTaken(rows, kind, key.value))
  }

  ghost function Create(rows: Rows, id: string, row: Row): (Rows, Creation) {
    if !Conflict(rows, id, row.kind, row.key) then
      (rows[id := row], Stored(id))
    else
      var byKey := if row.key.Some? then FindByKey(rows, row.kind, row.key.value) else None;
      (rows, if byKey.Some? then Stored(byKey.value) else if id in rows then Stored(id) else Raised)
  }

  function NewRow(kind: string, payload: Payload, key: Option<string>, now: int): Row {
    Row(kind, Pending, payload, key, None, now, now)
  }

  /** For a fresh id: the caller gets its own id iff no row has its key; a taken non-empty key returns the
      row that has it; a taken empty key raises, although submit treats an empty key as no key. */
  lemma CreateFresh(rows: Rows, id: string, row: Row)
    requires id !in rows && UniqueKeys(rows)
    ensures var (rows', c) := Create(rows, id, row);
      && UniqueKeys(rows')
      && (c == Stored(id) <==> !(row.key.Some? && KeyTaken(rows, row.kind, row.key.value)))
      && (c == Stored(id) ==> rows' == rows[id := row])
      && (c != Stored(id) ==> rows' == rows)
      && (c == Raised <==> row.key == Some("") && KeyTaken(rows, row.kind, ""))
      && (c.Stored? && c.id != id ==> c.id in rows && SameKey(rows[c.id], row))
  {
  }

  /** For an id that is taken: nothing is written; a run with the non-empty key is returned if there is one, and the run
      with the id otherwise. */
  lemma CreateCollision(rows: Rows, id: string, row: Row)
    requires id in rows
    ensures var (rows', c) := Create(rows, id, row);
      && rows' == rows && c.Stored? && c.id in rows
      && (if row.key.Some? && row.key != Some("") && KeyTaken(rows, row.kind, row.key.value) then SameKey(rows[c.id], row)
          else c.id == id)
  {
  }

  // ----- upsert_run, claim_run, touch_run, sweep_stuck_runs -----

  // The row that upsert_run writes: an absent key leaves the stored one.
  function Upserted(rows: Rows, id: string, kind: string, status: Status, payload: Payload, key: Option<string>,
                    error: Option<string>, now: int): Row
  {
    var row := if id in rows then rows[id] else Row(kind, status, payload, None, error, now, now);
    row.(status := status, payload := payload, error := error, updated := now, key := if key.Some? then key else row.key)
  }

  // Writing the row would violate the UNIQUE constraint.
  predicate Clashes(rows: Rows, id: string, row: Row) {
    exists i :: i in rows && i != id && SameKey(rows[i], row)
  }

  // A write that fails on the constraint is swallowed. Without a key there is nothing to violate.
  function Upsert(rows: Rows, id: string, kind: string, status: Status, payload: Payload, key: Option<string>,
                  error: Option<string>, now: int): Rows
  {
    var row := Upserted(rows, id, kind, status, payload, key, error, now);
    if key.Some? && Clashes(rows, id, row) then rows else rows[id := row]
  }

  predicate Stale(row: Row, lease: int, now: int) {
    row.updated < now - lease
  }

  predicate Claimable(row: Row, lease: int, now: int) {
    row.status == Pending || (row.status == Running && Stale(row, lease, now))
  }

  predicate ClaimWins(rows: Rows, id: string, lease: int, now: int) {
    id in rows && Claimable(rows[id], lease, now)
  }

  function Claim(rows: Rows, id: string, lease: int, now: int): Rows {
    if ClaimWins(rows, id, lease, now) then rows[id := rows[id].(status := Running, updated := now)] else rows
  }

  function Touch(rows: Rows, id: string, now: int): Rows {
    if id in rows then rows[id := rows[id].(updated := now)] else rows
  }

  predicate Stuck(row: Row, ttl: int, now: int) {
    row.status == Running && Stale(row, ttl, now)
  }

  const NO_HEARTBEAT := Some("no heartbeat - presumed dead")

  function Sweep(rows: Rows, ttl: int, now: int): Rows {
    map i | i in rows ::
      if Stuck(rows[i], ttl, now) then rows[i].(status := Failed, error := NO_HEARTBEAT, updated := now) else rows[i]
  }

  /** A crashed owner's run: from the moment its heartbeat is older than the lease a new delivery wins the claim
      and the sweeper fails it, and not a moment earlier. */
  lemma AbandonedRun(rows: Rows, id: string, lease: int, now: int)
    requires id in rows && rows[id].status == Running
    ensures ClaimWins(rows, id, lease, now) <==> now > rows[id].updated + lease
    ensures Sweep(rows, lease, now)[id].status == Failed <==> now > rows[id].updated + lease
    ensures 0 <= lease ==> !ClaimWins(Claim(rows, id, lease, now), id, lease, now)
  {
  }

  // ----- list_nonterminal_runs -----

  function NonTerminal(rows: Rows): set<string> {
    set i | i in rows && !rows[i].status.Terminal()
  }

  // An answer of SELECT ... WHERE status IN ('pending','running') ORDER BY created_at LIMIT `limit`.
  ghost predicate IsListing(rows: Rows, limit: nat, ids: seq<string>) {
    && (forall k :: 0 <= k < |ids| ==> ids[k] in NonTerminal(rows))
    && (forall j, k :: 0 <= j < k < |ids| ==> ids[j] != ids[k] && rows[ids[j]].created <= rows[ids[k]].created)
    && (|ids| == limit || forall i :: i in NonTerminal(rows) ==> i in ids)
    && |ids| <= limit
    && (forall i, k :: i in NonTerminal(rows) && i !in ids && 0 <= k < |ids| ==> rows[ids[k]].created <= rows[i].created)
  }

  // A row of `ids` that was created first.
  lemma {:induction false} Oldest(rows: Rows, ids: set<string>) returns (first: string)
    requires ids != {} && forall i :: i in ids ==> i in rows
    ensures first in ids && forall i :: i in ids ==> rows[first].created <= rows[i].created
    decreases |ids|
  {
    var some :| some in ids;
    var rest := ids - {some};
    first := some;
    if rest != {} {
      var other := Oldest(rows, rest);
      if rows[other].created < rows[some].created {
        first := other;
      }
    }
    forall i | i in ids
      ensures rows[first].created <= rows[i].created
    {
      assert i == some || i in rest;
    }
  }

  /** The query always has an answer. */
  lemma {:induction false} ListingExists(rows: Rows, limit: nat) returns (ids: seq<string>)
    ensures IsListing(rows, limit, ids)
    decreases limit
  {
    if limit == 0 {
      return [];
    }
    ids := ListingExists(rows, limit - 1);
    var rest := NonTerminal(rows) - set k | 0 <= k < |ids| :: ids[k];
    if |ids| == limit - 1 && rest != {} {
      var next := Oldest(rows, rest);
      ids := ids + [next];
    } else {
      assert forall i :: i in NonTerminal(rows) && i !in rest ==> i in ids;
    }
  }

  /** With at most `limit` non-terminal runs the listing holds all of them. */
  lemma {:induction false} ListingComplete(rows: Rows, limit: nat, ids: seq<string>)
    requires IsListing(rows, limit, ids) && |NonTerminal(rows)| <= limit
    ensures forall i :: i in NonTerminal(rows) ==> i in ids
  {
    if |ids| == limit {
      var listed := set k | 0 <= k < |ids| :: ids[k];
      DistinctCount(ids);
      assert listed <= NonTerminal(rows);
      SubsetOfSameSize(listed, NonTerminal(rows));
    }
  }

  lemma {:induction false} DistinctCount(ids: seq<string>)
    requires forall j, k :: 0 <= j < k < |ids| ==> ids[j] != ids[k]
    ensures |set k | 0 <= k < |ids| :: ids[k]| == |ids|
  {
    if ids != [] {
      var front := ids[..|ids| - 1];
      DistinctCount(front);
      assert (set k | 0 <= k < |ids| :: ids[k]) == (set k | 0 <= k < |front| :: front[k]) + {ids[|ids| - 1]};
    }
  }

  lemma SubsetOfSameSize<T>(a: set<T>, b: set<T>)
    requires a <= b && |b| <= |a|
    ensures a == b
  {
    assert |b - a| == |b| - |a|;
  }

  // ----- The table, updated in place -----

  class Store {
    var rows: Rows

    ghost predicate Valid()
      reads this
    {
      UniqueKeys(rows)
    }

    constructor ()
      ensures Valid() && rows == map[]
    {
      rows := map[];
    }

    method GetRunByIdempotencyKey(kind: string, key: string) returns (found: Option<string>)
      requires Valid()
      ensures found == FindByKey(rows, kind, key)
    {
      if key == "" {
        return None;
      }
      if i :| i in rows && rows[i].kind == kind && rows[i].key == Some(key) {
        assert SameKey(rows[i], rows[FindByKey(rows, kind, key).value]);
        return Some(i);
      }
      return None;
    }

    method CreateRun(id: string, row: Row) returns (c: Creation)
      requires Valid()
      modifies this
      ensures Valid()
      ensures (rows, c) == Create(old(rows), id, row)
    {
      if !Conflict(rows, id, row.kind, row.key) {
        rows := rows[id := row];
        return Stored(id);
      }
      if row.key.Some? {
        var existing := GetRunByIdempotencyKey(row.kind, row.key.value);
        if existing.Some? {
          return Stored(existing.value);
        }
      }
      return if id in rows then Stored(id) else Raised;
    }

    method UpsertRun(id: string, kind: string, status: Status, payload: Payload, key: Option<string>,
                     error: Option<string>, now: int) returns (stored: bool)
      requires Valid()
      modifies this
      ensures Valid() && rows == Upsert(old(rows), id, kind, status, payload, key, error, now)
      ensures var row := Upserted(old(rows), id, kind, status, payload, key, error, now);
              stored <==> !(key.Some? && Clashes(old(rows), id, row))
      // a stored row has the given fields, and its kind, creation time and, unless given, key as before
      ensures stored ==> id in rows && rows == old(rows)[id := rows[id]]
      ensures stored ==>
        var row := rows[id];
        && row.status == status && row.payload == payload && row.error == error && row.updated == now
        && (key.Some? ==> row.key == key)
        && (id in old(rows) ==> row.kind == old(rows)[id].kind && row.created == old(rows)[id].created
                                && (key.None? ==> row.key == old(rows)[id].key))
        && (id !in old(rows) ==> row.kind == kind && row.created == now && row.key == key)
      ensures !stored ==> rows == old(rows)
    {
      var row := if id in rows then rows[id] else Row(kind, status, payload, None, error, now, now);
      row := row.(status := status, payload := payload, error := error, updated := now);
      if key.Some? {
        row := row.(key := key);
        if Clashes(rows, id, row) {
          return false;
        }
      }
      rows := rows[id := row];
      return true;
    }

    method ClaimRun(id: string, lease: int, now: int) returns (won: bool)
      requires Valid()
      modifies this
      ensures Valid() && rows == Claim(old(rows), id, lease, now)
      ensures won == ClaimWins(old(rows), id, lease, now)
      // won iff the run is pending, or running and not heard of for more than the lease
      ensures won <==>
        && id in old(rows)
        && var row := old(rows)[id];
           row.status == Pending || (row.status == Running && row.updated + lease < now)
      ensures won ==>
        var row := old(rows)[id];
        rows == old(rows)[id := Row(row.kind, Running, row.payload, row.key, row.error, row.created, now)]
      ensures !won ==> rows == old(rows)
    {
      won := id in rows && Claimable(rows[id], lease, now);
      if won {
        rows := rows[id := rows[id].(status := Running, updated := now)];
      }
    }

    method TouchRun(id: string, now: int)
      requires Valid()
      modifies this
      ensures Valid() && rows == Touch(old(rows), id, now)
      ensures id in old(rows) ==>
        var row := old(rows)[id];
        rows == old(rows)[id := Row(row.kind, row.status, row.payload, row.key, row.error, row.created, now)]
      ensures id !in old(rows) ==> rows == old(rows)
    {
      if id in rows {
        rows := rows[id := rows[id].(updated := now)];
      }
    }

    method SweepStuckRuns(ttl: int, now: int) returns (count: nat)
      requires Valid()
      modifies this
      ensures Valid() && rows == Sweep(old(rows), ttl, now)
      ensures count == |set i | i in old(rows) && Stuck(old(rows)[i], ttl, now)|
      // exactly the running rows not heard of for more than the TTL become failed
      ensures rows.Keys == old(rows).Keys
      ensures forall i :: i in rows ==>
        var row := old(rows)[i];
        rows[i] == if row.status == Running && row.updated + ttl < now
                   then Row(row.kind, Failed, row.payload, row.key, NO_HEARTBEAT, row.created, now) else row
    {
      count := |set i | i in rows && Stuck(rows[i], ttl, now)|;
      var before := rows;
      rows := Sweep(rows, ttl, now);
      forall i, j | i in rows && j in rows && SameKey(rows[i], rows[j]) ensures i == j {
        assert SameKey(before[i], before[j]);
      }
    }
  }
}
