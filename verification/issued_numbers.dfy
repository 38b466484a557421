/** The `IssuedNumber` table and the `getTurns` query of the issued-number resolver:
    a client's live turns (status 0, 1 or 2), newest id first, at most five. */
module IssuedNumbers {
  import opened Wrappers

  /** A turn waiting to be served. */
  const PENDING: int := 0
  /** A turn the client cancelled. */
  const CANCELLED: int := 3
  /** The `first: 5` bound of the query. */
  const TURNS_LIMIT: nat := 5

  /** One row of the issued-number table. Timestamps are plain integers. */
  datatype IssuedNumber = IssuedNumber(
    id: int,
    shopId: int,
    clientId: int,
    number: int,
    status: int,
    createdAt: int)

  /** The table, indexed by primary key. */
  type Table = map<int, IssuedNumber>

  /** Every row is stored under its own id. */
  predicate Keyed(db: Table) {
    forall k | k in db :: db[k].id == k
  }

  /** The statuses the query selects (`status IN (0, 1, 2)`). */
  predicate IsLive(status: int) {
    0 <= status <= 2
  }

  /** A row the query selects for `clientId`. */
  predicate Selected(row: IssuedNumber, clientId: int) {
    row.clientId == clientId && IsLive(row.status)
  }

  /** The ids of the rows the query selects for `clientId`, before ordering and limiting. */
  function SelectedIds(db: Table, clientId: int): set<int> {
    set k | k in db && Selected(db[k], clientId)
  }

  /** The ids of a list of rows. */
  function Ids(turns: seq<IssuedNumber>): set<int> {
    set i | 0 <= i < |turns| :: turns[i].id
  }

  /** Strictly decreasing ids: the `orderBy: { id: 'desc' }` of the query. */
  predicate NewestFirst(turns: seq<IssuedNumber>) {
    forall i, j | 0 <= i < j < |turns| :: turns[i].id > turns[j].id
  }

  /** `m` is the largest element of `s`. */
  predicate IsMaxOf(m: int, s: set<int>) {
    m in s && forall x | x in s :: x <= m
  }

  lemma {:induction false} MaxExists(s: set<int>)
    requires s != {}
    ensures exists m :: IsMaxOf(m, s)
    decreases s
  {
    if forall x :: x !in s {
      assert false;
    }
    var y :| y in s;
    var t := s - {y};
    if forall x :: x !in t {
      assert IsMaxOf(y, s) by {
        forall x | x in s ensures x <= y {
          assert x !in t;
        }
      }
    } else {
      MaxExists(t);
      var m :| IsMaxOf(m, t);
      var top := if y <= m then m else y;
      assert IsMaxOf(top, s) by {
        forall x | x in s ensures x <= top {
          if x != y {
            assert x in t;
          }
        }
      }
    }
  }

  /** The largest id of a non-empty set. */
  function MaxOf(s: set<int>): (m: int)
    requires s != {}
    ensures m in s
    ensures forall x | x in s :: x <= m
  {
    MaxExists(s);
    var m :| IsMaxOf(m, s);
    m
  }

  lemma IdsCons(row: IssuedNumber, rest: seq<IssuedNumber>)
    ensures Ids([row] + rest) == {row.id} + Ids(rest)
  {
    var turns := [row] + rest;
    forall k | k in Ids(turns) ensures k in {row.id} + Ids(rest) {
      var i :| 0 <= i < |turns| && turns[i].id == k;
      if i > 0 {
        assert rest[i - 1].id == k;
      }
    }
    forall k | k in Ids(rest) ensures k in Ids(turns) {
      var i :| 0 <= i < |rest| && rest[i].id == k;
      assert turns[i + 1].id == k;
    }
    assert turns[0].id == row.id;
  }

  lemma {:induction false} SubsetCardinality(a: set<int>, b: set<int>)
    requires a <= b
    ensures |a| <= |b|
    decreases a
  {
    if forall x :: x !in a {
      assert a == {};
    } else {
      var x :| x in a;
      SubsetCardinality(a - {x}, b - {x});
    }
  }

  /** A list of rows has at most as many distinct ids as rows. */
  lemma {:induction false} IdsBound(turns: seq<IssuedNumber>)
    ensures |Ids(turns)| <= |turns|
  {
    if turns != [] {
      assert [turns[0]] + turns[1..] == turns;
      IdsCons(turns[0], turns[1..]);
      IdsBound(turns[1..]);
    }
  }

  /** Rows in strictly decreasing id order carry as many distinct ids as there are rows. */
  lemma {:induction false} IdsDistinct(turns: seq<IssuedNumber>)
    requires NewestFirst(turns)
    ensures |Ids(turns)| == |turns|
  {
    if turns != [] {
      var rest := turns[1..];
      assert [turns[0]] + rest == turns;
      IdsCons(turns[0], rest);
      IdsDistinct(rest);
      assert turns[0].id !in Ids(rest);
    }
  }

  /** The `n` rows with the largest ids among `ids`, largest first. */
  function TakeNewest(db: Table, ids: set<int>, n: nat): (r: seq<IssuedNumber>)
    requires ids <= db.Keys
    ensures |r| == if n < |ids| then n else |ids|
    decreases n
  {
    if n == 0 || ids == {} then []
    else
      var m := MaxOf(ids);
      [db[m]] + TakeNewest(db, ids - {m}, n - 1)
  }

  /** What the selection computes: the `min(n, |ids|)` largest ids of `ids`, as their
      rows, in strictly decreasing id order, and every id left out is smaller than
      every id taken (so only a full selection leaves ids out). */
  lemma {:induction false} TakeNewestSpec(db: Table, ids: set<int>, n: nat)
    requires Keyed(db) && ids <= db.Keys
    ensures var r := TakeNewest(db, ids, n);
      && |r| == (if n < |ids| then n else |ids|)
      && (forall i | 0 <= i < |r| :: r[i].id in ids && db[r[i].id] == r[i])
      && NewestFirst(r)
      && (forall k | k in ids && k !in Ids(r) :: |r| == n && forall i | 0 <= i < |r| :: k < r[i].id)
    decreases n
  {
    if n == 0 || ids == {} {
    } else {
      var m := MaxOf(ids);
      TakeNewestSpec(db, ids - {m}, n - 1);
      TakeNewestStep(db, ids, n, m, TakeNewest(db, ids - {m}, n - 1));
    }
  }

  /** Putting the largest id in front of a valid selection of the others gives a
      valid selection of all of them. */
  lemma TakeNewestStep(db: Table, ids: set<int>, n: nat, m: int, rest: seq<IssuedNumber>)
    requires Keyed(db) && ids <= db.Keys
    requires m in ids && forall x | x in ids :: x <= m
    requires forall i | 0 <= i < |rest| :: rest[i].id in ids - {m} && db[rest[i].id] == rest[i]
    requires NewestFirst(rest)
    requires forall k | k in ids - {m} && k !in Ids(rest) :: |rest| == n - 1 && forall i | 0 <= i < |rest| :: k < rest[i].id
    ensures |ids - {m}| == |ids| - 1
    ensures forall i | 0 <= i < |[db[m]] + rest| ::
      ([db[m]] + rest)[i].id in ids && db[([db[m]] + rest)[i].id] == ([db[m]] + rest)[i]
    ensures NewestFirst([db[m]] + rest)
    ensures forall k | k in ids && k !in Ids([db[m]] + rest) ::
      |[db[m]] + rest| == n && forall i | 0 <= i < |[db[m]] + rest| :: k < ([db[m]] + rest)[i].id
  {
    var r := [db[m]] + rest;
    assert r[0].id == m;
    forall i | 0 < i < |r| ensures r[i].id < m {
      assert r[i] == rest[i - 1];
    }
    IdsCons(db[m], rest);
    forall k | k in ids && k !in Ids(r) ensures |r| == n && forall i | 0 <= i < |r| :: k < r[i].id {
      assert k != m && k in ids - {m} && k !in Ids(rest);
      forall i | 0 <= i < |r| ensures k < r[i].id {
        if i > 0 {
          assert r[i] == rest[i - 1];
        }
      }
    }
  }

  /** `getTurns(clientId)`: the client's live turns, newest first, at most five. */
  function GetTurns(db: Table, clientId: int): (turns: seq<IssuedNumber>)
    requires Keyed(db)
    ensures |turns| <= TURNS_LIMIT
    ensures forall i | 0 <= i < |turns| ::
      turns[i].id in db && db[turns[i].id] == turns[i] && Selected(turns[i], clientId)
    ensures NewestFirst(turns)
    ensures forall k | k in db && Selected(db[k], clientId) && k !in Ids(turns) ::
      |turns| == TURNS_LIMIT && forall i | 0 <= i < |turns| :: k < turns[i].id
  {
    TakeNewestSpec(db, SelectedIds(db, clientId), TURNS_LIMIT);
    TakeNewest(db, SelectedIds(db, clientId), TURNS_LIMIT)
  }

  /** A client with more than five live turns does not get the oldest of them
      fetched: a selected id below some other selected one is left out, and all five
      fetched ids are above it. */
  lemma GetTurnsDropsOlderTurns(db: Table, clientId: int, oldest: int)
    requires Keyed(db)
    requires |SelectedIds(db, clientId)| > TURNS_LIMIT
    requires oldest in SelectedIds(db, clientId)
    requires forall k | k in SelectedIds(db, clientId) :: oldest <= k
    ensures var turns := GetTurns(db, clientId);
      |turns| == TURNS_LIMIT && oldest !in Ids(turns)
      && forall i | 0 <= i < |turns| :: turns[i].id > oldest
  {
    var all := SelectedIds(db, clientId);
    var turns := GetTurns(db, clientId);
    IdsBound(turns);
    assert !(all <= Ids(turns)) by {
      if all <= Ids(turns) {
        SubsetCardinality(all, Ids(turns));
      }
    }
    var k :| k in all && k !in Ids(turns);
    assert k in db && Selected(db[k], clientId);
    forall i | 0 <= i < |turns| ensures turns[i].id > oldest {
      assert turns[i].id in all;
      assert turns[i].id != oldest;
    }
  }

  /** No row of the result is cancelled: cancelled turns never reach a quota check. */
  lemma GetTurnsHasNoCancelled(db: Table, clientId: int)
    requires Keyed(db)
    ensures forall i | 0 <= i < |GetTurns(db, clientId)| :: GetTurns(db, clientId)[i].status != CANCELLED
  {
  }

  /** The selection depends only on the rows under the selected ids. */
  lemma {:induction false} TakeNewestLocal(db1: Table, db2: Table, ids: set<int>, n: nat)
    requires ids <= db1.Keys && ids <= db2.Keys
    requires forall k | k in ids :: db1[k] == db2[k]
    ensures TakeNewest(db1, ids, n) == TakeNewest(db2, ids, n)
    decreases n
  {
    if n == 0 || ids == {} {
    } else {
      var m := MaxOf(ids);
      TakeNewestLocal(db1, db2, ids - {m}, n - 1);
    }
  }

  /** The table after `id` is set to status 3 and every other row kept. */
  function Cancel(db: Table, id: int): (r: Table)
    requires id in db
    ensures r.Keys == db.Keys
    ensures r[id].status == CANCELLED
    ensures r[id] == db[id].(status := CANCELLED)
    ensures forall k | k in db && k != id :: r[k] == db[k]
  {
    db[id := db[id].(status := CANCELLED)]
  }

  /** A cancelled turn is invisible to `getTurns`: the client's fetched turns are the
      same as if the row had never existed. */
  lemma CancelledTurnIsInvisible(db: Table, id: int, clientId: int)
    requires Keyed(db) && id in db
    ensures Keyed(Cancel(db, id)) && Keyed(db - {id})
    ensures GetTurns(Cancel(db, id), clientId) == GetTurns(db - {id}, clientId)
    ensures id !in Ids(GetTurns(Cancel(db, id), clientId))
  {
    var c := Cancel(db, id);
    var d := db - {id};
    assert SelectedIds(c, clientId) == SelectedIds(d, clientId);
    TakeNewestLocal(c, d, SelectedIds(c, clientId), TURNS_LIMIT);
  }
}
