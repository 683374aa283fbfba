/** The claim query: which rows a relay may lease, and in which order. */
module ClaimOrder {
  import opened Basics
  import opened OutboxMessages

  /** The WHERE clause of the claim query. */
  predicate Eligible(row: OutboxMessage, now: Time) {
    row.publishedAt.None? && (row.leaseExpiresAt.None? || row.leaseExpiresAt.value <= now)
  }

  /** Rows the query can return: eligible, and not locked by another transaction. */
  function Candidates(rows: map<Id, OutboxMessage>, locked: set<Id>, now: Time): set<Id> {
    set m | m in rows && m !in locked && Eligible(rows[m], now)
  }

  /** ORDER BY created_at, id. */
  predicate Before(rows: map<Id, OutboxMessage>, a: Id, b: Id)
    requires a in rows && b in rows
  {
    rows[a].createdAt < rows[b].createdAt || (rows[a].createdAt == rows[b].createdAt && a < b)
  }

  predicate IsFirst(rows: map<Id, OutboxMessage>, pool: set<Id>, m: Id)
    requires pool <= rows.Keys
  {
    m in pool && forall x :: x in pool && x != m ==> Before(rows, m, x)
  }

  lemma {:induction false} FirstExists(rows: map<Id, OutboxMessage>, pool: set<Id>)
    requires pool <= rows.Keys && pool != {}
    ensures exists m :: IsFirst(rows, pool, m)
    decreases pool
  {
    var a :| a in pool;
    if pool == {a} {
      assert IsFirst(rows, pool, a);
    } else {
      FirstExists(rows, pool - {a});
      var b :| IsFirst(rows, pool - {a}, b);
      var m := if Before(rows, a, b) then a else b;
      forall x | x in pool && x != m
        ensures Before(rows, m, x)
      {
        assert x == a || x == b || Before(rows, b, x);
      }
      assert IsFirst(rows, pool, m);
    }
  }

  function First(rows: map<Id, OutboxMessage>, pool: set<Id>): (m: Id)
    requires pool <= rows.Keys && pool != {}
    ensures IsFirst(rows, pool, m)
  {
    FirstExists(rows, pool);
    var m :| IsFirst(rows, pool, m);
    m
  }

  /** LIMIT limit over the ordered pool. */
  function Take(rows: map<Id, OutboxMessage>, pool: set<Id>, limit: nat): seq<Id>
    requires pool <= rows.Keys
    decreases limit
  {
    if limit == 0 || pool == {} then []
    else
      var m := First(rows, pool);
      [m] + Take(rows, pool - {m}, limit - 1)
  }

  /** A list is the ordered head of a pool, with the given length limit. */
  ghost predicate IsHead(rows: map<Id, OutboxMessage>, pool: set<Id>, limit: nat, ids: seq<Id>)
    requires pool <= rows.Keys
  {
    && |ids| == (if |pool| <= limit then |pool| else limit)
    && (forall i :: 0 <= i < |ids| ==> ids[i] in pool)
    && (forall i, j :: 0 <= i < j < |ids| ==> Before(rows, ids[i], ids[j]))
    && (forall i, x :: 0 <= i < |ids| && x in pool && x !in ids ==> Before(rows, ids[i], x))
  }

  lemma {:induction false} TakeIsHead(rows: map<Id, OutboxMessage>, pool: set<Id>, limit: nat)
    requires pool <= rows.Keys
    ensures IsHead(rows, pool, limit, Take(rows, pool, limit))
    decreases limit
  {
    if limit != 0 && pool != {} {
      var m := First(rows, pool);
      TakeIsHead(rows, pool - {m}, limit - 1);
      var rest := Take(rows, pool - {m}, limit - 1);
      var ids := Take(rows, pool, limit);
      assert ids == [m] + rest;
      assert |pool - {m}| == |pool| - 1;
      forall i, x | 0 <= i < |ids| && x in pool && x !in ids
        ensures Before(rows, ids[i], x)
      {
        assert x != ids[0];
        if i > 0 { assert ids[i] == rest[i - 1]; }
      }
    }
  }

  /** The query on the columns: unlocked unpublished rows without a lease that is still running, oldest first and by id
      among equals, none left out before one that is taken, and as many as there are up to the limit. */
  lemma TakeIs(rows: map<Id, OutboxMessage>, locked: set<Id>, now: Time, limit: nat)
    ensures var ids := Take(rows, Candidates(rows, locked, now), limit);
      && |ids| <= limit
      && (forall i :: 0 <= i < |ids| ==>
            && ids[i] in rows && ids[i] !in locked && rows[ids[i]].publishedAt.None?
            && (rows[ids[i]].leaseExpiresAt.None? || rows[ids[i]].leaseExpiresAt.value <= now))
      && (forall i, j :: 0 <= i < j < |ids| ==>
            rows[ids[i]].createdAt < rows[ids[j]].createdAt
            || (rows[ids[i]].createdAt == rows[ids[j]].createdAt && ids[i] < ids[j]))
      && (forall m :: m in rows && m !in locked && rows[m].publishedAt.None?
                      && (rows[m].leaseExpiresAt.None? || rows[m].leaseExpiresAt.value <= now) && m !in ids ==>
            && |ids| == limit
            && forall i :: 0 <= i < |ids| ==>
                 rows[ids[i]].createdAt < rows[m].createdAt
                 || (rows[ids[i]].createdAt == rows[m].createdAt && ids[i] < m))
  {
    var pool := Candidates(rows, locked, now);
    var ids := Take(rows, pool, limit);
    TakeIsHead(rows, pool, limit);
    forall i, j | 0 <= i < j < |ids|
      ensures Before(rows, ids[i], ids[j])
    {
    }
    forall m | m in pool && m !in ids
      ensures |ids| == limit && forall i :: 0 <= i < |ids| ==> Before(rows, ids[i], m)
    {
      HeadMisses(pool, ids, m);
    }
  }

  /** Distinct members that leave one out are fewer than the set. */
  lemma HeadMisses(pool: set<Id>, ids: seq<Id>, m: Id)
    requires m in pool && m !in ids && forall i :: 0 <= i < |ids| ==> ids[i] in pool
    requires forall i, j :: 0 <= i < j < |ids| ==> ids[i] != ids[j]
    ensures |ids| < |pool|
    decreases |ids|
  {
    if ids == [] {
      assert pool != {};
    } else {
      var last := |ids| - 1;
      HeadMisses(pool - {ids[last]}, ids[..last], m);
    }
  }

  function Elems(ids: seq<Id>): set<Id> {
    set m | m in ids
  }

  lemma {:induction false} ElemsSize(ids: seq<Id>)
    requires forall i, j :: 0 <= i < j < |ids| ==> ids[i] != ids[j]
    ensures |Elems(ids)| == |ids|
  {
    if ids != [] {
      ElemsSize(ids[1..]);
      assert Elems(ids) == Elems(ids[1..]) + {ids[0]};
      assert ids[0] !in Elems(ids[1..]);
    } else {
      assert Elems(ids) == {};
    }
  }

  /** The ordered head of a pool is unique, so IsHead says which rows a claim returns and nothing less. */
  lemma HeadUnique(rows: map<Id, OutboxMessage>, pool: set<Id>, limit: nat, a: seq<Id>, b: seq<Id>)
    requires pool <= rows.Keys
    requires IsHead(rows, pool, limit, a) && IsHead(rows, pool, limit, b)
    ensures a == b
  {
    HeadsAgree(rows, pool, limit, a, b, |a|);
  }

  lemma {:induction false} HeadsAgree(
      rows: map<Id, OutboxMessage>, pool: set<Id>, limit: nat, a: seq<Id>, b: seq<Id>, k: nat)
    requires pool <= rows.Keys
    requires IsHead(rows, pool, limit, a) && IsHead(rows, pool, limit, b)
    requires k <= |a|
    ensures forall i :: 0 <= i < k ==> a[i] == b[i]
  {
    if k != 0 {
      var j := k - 1;
      HeadsAgree(rows, pool, limit, a, b, j);
      HeadStep(rows, pool, limit, a, b, j);
      HeadStep(rows, pool, limit, b, a, j);
    }
  }

  /** After a common prefix, neither head has a later row than the other. */
  lemma HeadStep(rows: map<Id, OutboxMessage>, pool: set<Id>, limit: nat, a: seq<Id>, b: seq<Id>, j: nat)
    requires pool <= rows.Keys
    requires IsHead(rows, pool, limit, a) && IsHead(rows, pool, limit, b)
    requires j < |a| && forall i :: 0 <= i < j ==> a[i] == b[i]
    ensures a[j] == b[j] || Before(rows, a[j], b[j])
  {
    assert forall i :: 0 <= i < j ==> Before(rows, b[i], b[j]) && a[i] != b[j];
  }
}
