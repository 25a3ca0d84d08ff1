/**
 * One user's partition of the session table: the sessions whose partition key
 * is that user's id, kept in ascending order of the sort key `sessionId`.
 * Lookup by key, put, the query with `Limit` and an exclusive start key, and
 * the completed-session totals are defined here on values; the record store
 * applies them to its state.
 */
module Partition {
  import opened Wrappers
  import opened Strings
  import opened Types

  /** Every session belongs to `userId` and session ids strictly ascend. */
  predicate WellFormed(userId: string, ps: seq<FastingSession>) {
    && (forall i :: 0 <= i < |ps| ==> ps[i].userId == userId)
    && (forall i, j :: 0 <= i < j < |ps| ==> Less(ps[i].sessionId, ps[j].sessionId))
  }

  /** Session ids strictly descend: the order of a query with `ScanIndexForward: false`. */
  predicate Descending(ds: seq<FastingSession>) {
    forall i, j :: 0 <= i < j < |ds| ==> Less(ds[j].sessionId, ds[i].sessionId)
  }

  // ------------------------------------------------------------ key lookup

  /** The item with sort key `sessionId`, if the partition holds one. */
  function Find(ps: seq<FastingSession>, sessionId: string): (r: Option<FastingSession>)
    ensures r.Some? ==> r.value in ps && r.value.sessionId == sessionId
    ensures r.None? ==> forall i :: 0 <= i < |ps| ==> ps[i].sessionId != sessionId
    decreases |ps|
  {
    if |ps| == 0 then None
    else if ps[0].sessionId == sessionId then Some(ps[0])
    else Find(ps[1..], sessionId)
  }

  /** Writes `s` under its key: replaces the item with the same session id, or inserts it in order. */
  function Put(ps: seq<FastingSession>, s: FastingSession): seq<FastingSession>
    decreases |ps|
  {
    if |ps| == 0 then [s]
    else if ps[0].sessionId == s.sessionId then [s] + ps[1..]
    else if Less(s.sessionId, ps[0].sessionId) then [s] + ps
    else [ps[0]] + Put(ps[1..], s)
  }

  /** In a well-formed partition an item is found by its own id. */
  lemma {:induction false} FindMember(u: string, ps: seq<FastingSession>, i: nat)
    requires WellFormed(u, ps) && i < |ps|
    ensures Find(ps, ps[i].sessionId) == Some(ps[i])
    decreases |ps|
  {
    if i > 0 {
      assert Less(ps[0].sessionId, ps[i].sessionId);
      LessIrreflexive(ps[i].sessionId);
      FindMember(u, ps[1..], i - 1);
    }
  }

  /** In a well-formed partition, the lookup by id finds exactly the member with that id. */
  lemma FindIff(u: string, ps: seq<FastingSession>, x: FastingSession)
    requires WellFormed(u, ps)
    ensures Find(ps, x.sessionId) == Some(x) <==> x in ps
  {
    if x in ps {
      var k :| 0 <= k < |ps| && ps[k] == x;
      FindMember(u, ps, k);
    }
  }

  /** After a put the items are `s` and the old items with other ids. */
  lemma {:induction false} PutMembers(u: string, ps: seq<FastingSession>, s: FastingSession)
    requires WellFormed(u, ps)
    ensures forall x :: x in Put(ps, s) <==> x == s || (x in ps && x.sessionId != s.sessionId)
    decreases |ps|
  {
    if |ps| == 0 {
    } else if ps[0].sessionId == s.sessionId {
      forall x | x in ps[1..] ensures x.sessionId != s.sessionId {
        var k :| 0 <= k < |ps[1..]| && ps[1..][k] == x;
        assert Less(ps[0].sessionId, ps[k + 1].sessionId);
        LessIrreflexive(x.sessionId);
      }
      assert ps == [ps[0]] + ps[1..];
    } else if Less(s.sessionId, ps[0].sessionId) {
      forall x | x in ps ensures x.sessionId != s.sessionId {
        var k :| 0 <= k < |ps| && ps[k] == x;
        if k > 0 {
          LessTransitive(s.sessionId, ps[0].sessionId, ps[k].sessionId);
          LessIrreflexive(s.sessionId);
        }
      }
    } else {
      PutMembers(u, ps[1..], s);
      assert ps == [ps[0]] + ps[1..];
    }
  }

  /** A put of a session of the same user keeps the partition well formed. */
  lemma {:induction false} PutWellFormed(u: string, ps: seq<FastingSession>, s: FastingSession)
    requires WellFormed(u, ps) && s.userId == u
    ensures WellFormed(u, Put(ps, s))
    decreases |ps|
  {
    if |ps| == 0 {
    } else if ps[0].sessionId == s.sessionId {
      ConsWellFormed(u, s, ps[1..], ps[0].sessionId);
    } else if Less(s.sessionId, ps[0].sessionId) {
      forall x | x in ps ensures Less(s.sessionId, x.sessionId) {
        var k :| 0 <= k < |ps| && ps[k] == x;
        if k > 0 { LessTransitive(s.sessionId, ps[0].sessionId, x.sessionId); }
      }
      ConsWellFormed(u, s, ps, s.sessionId);
    } else {
      var tail := ps[1..];
      PutWellFormed(u, tail, s);
      PutAfterHead(u, ps, s);
      ConsWellFormed(u, ps[0], Put(tail, s), ps[0].sessionId);
    }
  }

  /** Putting a session with an id above the head's into the tail keeps every item above the head. */
  lemma PutAfterHead(u: string, ps: seq<FastingSession>, s: FastingSession)
    requires WellFormed(u, ps) && |ps| > 0
    requires ps[0].sessionId != s.sessionId && !Less(s.sessionId, ps[0].sessionId)
    ensures forall x :: x in Put(ps[1..], s) ==> Less(ps[0].sessionId, x.sessionId)
  {
    var tail := ps[1..];
    LessTotal(s.sessionId, ps[0].sessionId);
    PutMembers(u, tail, s);
    forall x | x in Put(tail, s) ensures Less(ps[0].sessionId, x.sessionId) {
      if x != s {
        var k :| 0 <= k < |tail| && tail[k] == x;
        assert ps[k + 1] == x;
      }
    }
  }

  /** A session in front of a well-formed partition whose ids all lie above `key`, its own id being `key`. */
  lemma ConsWellFormed(u: string, h: FastingSession, rest: seq<FastingSession>, key: string)
    requires WellFormed(u, rest) && h.userId == u && h.sessionId == key
    requires forall x :: x in rest ==> Less(key, x.sessionId)
    ensures WellFormed(u, [h] + rest)
  {
    var r := [h] + rest;
    forall i, j | 0 <= i < j < |r| ensures Less(r[i].sessionId, r[j].sessionId) {
      if i == 0 { assert r[j] == rest[j - 1] && r[j] in rest; }
      else { assert r[i] == rest[i - 1] && r[j] == rest[j - 1]; }
    }
  }

  /**
   * A put keeps the partition well formed; afterwards `s` is found under its
   * id and every other id finds what it found before.
   */
  lemma PutSpec(u: string, ps: seq<FastingSession>, s: FastingSession)
    requires WellFormed(u, ps) && s.userId == u
    ensures WellFormed(u, Put(ps, s))
    ensures Find(Put(ps, s), s.sessionId) == Some(s)
    ensures forall id :: id != s.sessionId ==> Find(Put(ps, s), id) == Find(ps, id)
  {
    var r := Put(ps, s);
    PutWellFormed(u, ps, s);
    PutMembers(u, ps, s);
    FindIff(u, r, s);
    forall id | id != s.sessionId ensures Find(r, id) == Find(ps, id) {
      var a, b := Find(r, id), Find(ps, id);
      if a.Some? { FindIff(u, ps, a.value); }
      if b.Some? { FindIff(u, r, b.value); }
    }
  }

  // ------------------------------------------------------------ the active lookup

  /**
   * A query for the user's items with `Limit: 1` and a filter on the status:
   * the limit stops the query after the first item of the partition, and the
   * filter then keeps it only if it is active.
   */
  function FirstActive(ps: seq<FastingSession>): (r: Option<FastingSession>)
    ensures r.Some? <==> |ps| > 0 && ps[0].status == Active
    ensures r.Some? ==> r.value == ps[0] && r.value.status == Active
  {
    if |ps| > 0 && ps[0].status == Active then Some(ps[0]) else None
  }

  /** At most one session of the partition is active. */
  predicate AtMostOneActive(ps: seq<FastingSession>) {
    forall i, j :: 0 <= i < |ps| && 0 <= j < |ps| && ps[i].status == Active && ps[j].status == Active ==> i == j
  }

  /**
   * An active session that is not first in the partition is missed: the lookup
   * reports none even though the user is fasting.
   */
  lemma FirstActiveMisses(ps: seq<FastingSession>, i: nat)
    requires 0 < i < |ps| && ps[i].status == Active
    requires AtMostOneActive(ps)
    ensures FirstActive(ps) == None
  {
  }

  /** No session after the partition's first is active: the shape in which the active-session lookup sees every active session. */
  predicate OnlyFirstActive(ps: seq<FastingSession>) {
    forall i :: 0 < i < |ps| ==> ps[i].status != Active
  }

  /** Under that shape the lookup is exact: it finds nothing only when nothing is active. */
  lemma FirstActiveExact(ps: seq<FastingSession>)
    requires OnlyFirstActive(ps)
    ensures FirstActive(ps).None? <==> forall x :: x in ps ==> x.status != Active
  {
  }

  /**
   * Putting an active session into a partition where nothing is active
   * leaves exactly one active session, the new one.
   */
  lemma {:induction false} PutOnlyActive(u: string, ps: seq<FastingSession>, s: FastingSession)
    requires WellFormed(u, ps) && s.userId == u && s.status == Active
    requires forall x :: x in ps ==> x.status != Active
    ensures AtMostOneActive(Put(ps, s))
    ensures forall x :: x in Put(ps, s) && x.status == Active ==> x == s
  {
    PutMembers(u, ps, s);
    PutWellFormed(u, ps, s);
    var r := Put(ps, s);
    forall i, j | 0 <= i < |r| && 0 <= j < |r| && r[i].status == Active && r[j].status == Active
      ensures i == j
    {
      assert r[i] in r && r[j] in r;
      if i < j {
        LessIrreflexive(s.sessionId);
      } else if j < i {
        LessIrreflexive(s.sessionId);
      }
    }
  }

  /** Putting an active session under a new id beside an active one leaves two active sessions. */
  lemma PutSecondActive(u: string, ps: seq<FastingSession>, s: FastingSession, running: FastingSession)
    requires WellFormed(u, ps) && running in ps && running.status == Active
    requires s.status == Active && s.sessionId != running.sessionId
    ensures !AtMostOneActive(Put(ps, s))
  {
    PutMembers(u, ps, s);
    var r := Put(ps, s);
    var i :| 0 <= i < |r| && r[i] == running;
    var j :| 0 <= j < |r| && r[j] == s;
    assert i != j;
  }

  // ------------------------------------------------------------ the paged query

  /** The partition read backwards: highest session id first. */
  function Reverse(ps: seq<FastingSession>): (ds: seq<FastingSession>)
    ensures |ds| == |ps|
  {
    seq(|ps|, i requires 0 <= i < |ps| => ps[|ps| - 1 - i])
  }

  lemma ReverseMembers(ps: seq<FastingSession>)
    ensures forall x :: x in Reverse(ps) <==> x in ps
  {
    var ds := Reverse(ps);
    forall x | x in ps ensures x in ds {
      var k :| 0 <= k < |ps| && ps[k] == x;
      assert ds[|ps| - 1 - k] == x;
    }
  }

  lemma ReverseDescending(u: string, ps: seq<FastingSession>)
    requires WellFormed(u, ps)
    ensures Descending(Reverse(ps))
  {
  }

  /**
   * Where a descending query resumes after the exclusive start key `start`:
   * the items are skipped while their id is not below the key.
   */
  function From(ds: seq<FastingSession>, start: Option<string>): (r: seq<FastingSession>)
    ensures |r| <= |ds| && r == ds[|ds| - |r|..]
    decreases |ds|
  {
    if start.None? || |ds| == 0 || Less(ds[0].sessionId, start.value) then ds
    else From(ds[1..], start)
  }

  /** On a descending sequence, resuming after `start` keeps exactly the items with an id below `start`. */
  lemma {:induction false} FromBelow(ds: seq<FastingSession>, start: string)
    requires Descending(ds)
    ensures forall x :: x in From(ds, Some(start)) <==> x in ds && Less(x.sessionId, start)
    decreases |ds|
  {
    if |ds| > 0 {
      if Less(ds[0].sessionId, start) {
        forall x | x in ds ensures Less(x.sessionId, start) {
          var k :| 0 <= k < |ds| && ds[k] == x;
          if k > 0 { LessTransitive(x.sessionId, ds[0].sessionId, start); }
        }
      } else {
        FromBelow(ds[1..], start);
        assert ds == [ds[0]] + ds[1..];
      }
    }
  }

  /** Resuming after the id of the item at position `m` gives the items after it. */
  lemma {:induction false} FromAt(ds: seq<FastingSession>, m: nat)
    requires Descending(ds) && m < |ds|
    ensures From(ds, Some(ds[m].sessionId)) == ds[m + 1..]
    decreases |ds|
  {
    LessIrreflexive(ds[m].sessionId);
    if m > 0 {
      LessAsymmetric(ds[m].sessionId, ds[0].sessionId);
      FromAt(ds[1..], m - 1);
    }
  }

  /** The result of one query page: the items and the last evaluated key, if the limit was reached. */
  datatype QueryPage = QueryPage(items: seq<FastingSession>, lastKey: Option<(string, string)>)

  /**
   * A descending query with `Limit: limit` after the exclusive start key: at
   * most `limit` items, and a last evaluated key, the (sessionId, userId) of
   * the last item, when the limit stopped the query.
   */
  function Query(ps: seq<FastingSession>, limit: int, start: Option<string>): (p: QueryPage)
    requires limit >= 1
    ensures |p.items| <= limit
    ensures p.lastKey.Some? <==> |p.items| == limit
    ensures p.lastKey.Some? ==> p.lastKey.value == (p.items[limit - 1].sessionId, p.items[limit - 1].userId)
  {
    var rest := From(Reverse(ps), start);
    if |rest| >= limit then
      QueryPage(rest[..limit], Some((rest[limit - 1].sessionId, rest[limit - 1].userId)))
    else
      QueryPage(rest, None)
  }

  /** A slice of a descending sequence is descending. */
  lemma DescendingSlice(ds: seq<FastingSession>, a: nat, b: nat)
    requires Descending(ds) && a <= b <= |ds|
    ensures Descending(ds[a..b])
  {
    var sl := ds[a..b];
    forall i, j | 0 <= i < j < |sl| ensures Less(sl[j].sessionId, sl[i].sessionId) {
      assert sl[i] == ds[a + i] && sl[j] == ds[a + j];
    }
  }

  /** A page is a prefix of what the query resumes from, and holds items of the partition only. */
  lemma QueryPrefix(ps: seq<FastingSession>, limit: int, start: Option<string>)
    requires limit >= 1
    ensures var items, rest := Query(ps, limit, start).items, From(Reverse(ps), start);
      && |items| <= |rest|
      && items == rest[..|items|]
      && (|items| < limit ==> items == rest)
      && (forall x :: x in items ==> x in rest && x in ps)
  {
    ReverseMembers(ps);
  }

  /**
   * What one page holds: items of this user only, in strictly descending id
   * order, each below the start key, and no item of the partition below the
   * start key is left out ahead of them.
   */
  lemma QueryItems(u: string, ps: seq<FastingSession>, limit: int, start: Option<string>)
    requires limit >= 1
    ensures WellFormed(u, ps) ==> var items := Query(ps, limit, start).items;
      && Descending(items)
      && (forall x :: x in items ==> x in ps && x.userId == u)
      && (start.Some? ==> forall x :: x in items ==> Less(x.sessionId, start.value))
      && items == From(Reverse(ps), start)[..|items|]
      && (|items| < limit ==> items == From(Reverse(ps), start))
  {
    QueryPrefix(ps, limit, start);
    if WellFormed(u, ps) {
      QueryDescending(u, ps, limit, start);
      if start.Some? { QueryBelow(u, ps, limit, start.value); }
    }
  }

  /** A page of a well-formed partition is in strictly descending id order. */
  lemma QueryDescending(u: string, ps: seq<FastingSession>, limit: int, start: Option<string>)
    requires WellFormed(u, ps) && limit >= 1
    ensures Descending(Query(ps, limit, start).items)
  {
    ReverseDescending(u, ps);
    QueryPrefix(ps, limit, start);
    PrefixDescending(Reverse(ps), start, |Query(ps, limit, start).items|);
  }

  /** The first `n` items after the start key of a descending sequence are descending. */
  lemma PrefixDescending(ds: seq<FastingSession>, start: Option<string>, n: nat)
    requires Descending(ds) && n <= |From(ds, start)|
    ensures Descending(From(ds, start)[..n])
  {
    var t := |ds| - |From(ds, start)|;
    SliceOfSuffix(ds, t, n);
    DescendingSlice(ds, t, t + n);
  }

  /** Every item of a page that resumes after `start` has an id below `start`. */
  lemma QueryBelow(u: string, ps: seq<FastingSession>, limit: int, start: string)
    requires WellFormed(u, ps) && limit >= 1
    ensures forall x :: x in Query(ps, limit, Some(start)).items ==> Less(x.sessionId, start)
  {
    var ds := Reverse(ps);
    QueryPrefix(ps, limit, Some(start));
    ReverseDescending(u, ps);
    FromBelow(ds, start);
  }

  lemma SliceOfSuffix(xs: seq<FastingSession>, t: nat, n: nat)
    requires t + n <= |xs|
    ensures xs[t..][..n] == xs[t..t + n]
  {
  }

  lemma SplitAt(xs: seq<FastingSession>, n: nat)
    requires n <= |xs|
    ensures xs[..n] + xs[n..] == xs
  {
  }

  /** On a descending sequence, the items of a full page followed by what resumes after its last item are all there was. */
  lemma FromResume(ds: seq<FastingSession>, limit: nat, start: Option<string>)
    requires Descending(ds) && 1 <= limit <= |From(ds, start)|
    ensures From(ds, start)[..limit] + From(ds, Some(From(ds, start)[limit - 1].sessionId)) == From(ds, start)
  {
    var rest := From(ds, start);
    var m := |ds| - |rest| + limit - 1;
    FromAt(ds, m);
    ResumeJoin(ds, rest, limit, m, From(ds, Some(ds[m].sessionId)));
  }

  /** A suffix `rest` of `xs` split after its item at `limit - 1`, which is the item of `xs` at `m`. */
  lemma ResumeJoin(xs: seq<FastingSession>, rest: seq<FastingSession>, limit: nat, m: nat, after: seq<FastingSession>)
    requires 1 <= limit <= |rest| <= |xs| && rest == xs[|xs| - |rest|..]
    requires m == |xs| - |rest| + limit - 1 && after == xs[m + 1..]
    ensures rest[limit - 1] == xs[m]
    ensures rest[..limit] + after == rest
  {
    SuffixSplit(xs, |xs| - |rest|, limit - 1);
  }

  /** Splitting a suffix after its item at `k`: the item is the sequence's at `t + k`, and the two parts rejoin. */
  lemma SuffixSplit(xs: seq<FastingSession>, t: nat, k: nat)
    requires t + k < |xs|
    ensures xs[t..][k] == xs[t + k]
    ensures xs[t..][..k + 1] + xs[t + k + 1..] == xs[t..]
  {
    assert xs[t..][k + 1..] == xs[t + k + 1..];
    SplitAt(xs[t..], k + 1);
  }

  /**
   * Resuming a query after the last key of a full page gives exactly the items
   * that follow that page: paging neither repeats nor skips a session.
   */
  lemma QueryResume(u: string, ps: seq<FastingSession>, limit: int, start: Option<string>)
    requires WellFormed(u, ps) && limit >= 1
    requires Query(ps, limit, start).lastKey.Some?
    ensures var p := Query(ps, limit, start);
      p.items + From(Reverse(ps), Some(p.lastKey.value.0)) == From(Reverse(ps), start)
  {
    ReverseDescending(u, ps);
    FromResume(Reverse(ps), limit, start);
  }

  // ------------------------------------------------------------ completed totals

  /** The items a query filtered on `status = completed` returns, in partition order. */
  function CompletedItems(ps: seq<FastingSession>): (cs: seq<FastingSession>)
    ensures |cs| <= |ps|
    decreases |ps|
  {
    if |ps| == 0 then []
    else CompletedItems(ps[..|ps| - 1]) + (if ps[|ps| - 1].status == Completed then [ps[|ps| - 1]] else [])
  }

  /** The completed items are exactly the completed sessions of the partition. */
  lemma {:induction false} CompletedMembers(ps: seq<FastingSession>)
    ensures forall x :: x in CompletedItems(ps) <==> x in ps && x.status == Completed
    decreases |ps|
  {
    if |ps| > 0 {
      CompletedMembers(ps[..|ps| - 1]);
      assert ps == ps[..|ps| - 1] + [ps[|ps| - 1]];
    }
  }

  /** The number of completed sessions, counted one by one. */
  function CountCompleted(ps: seq<FastingSession>): nat
    decreases |ps|
  {
    if |ps| == 0 then 0
    else CountCompleted(ps[..|ps| - 1]) + (if ps[|ps| - 1].status == Completed then 1 else 0)
  }

  /** The filtered query returns one item per completed session, timed or not. */
  lemma {:induction false} CompletedCount(ps: seq<FastingSession>)
    ensures |CompletedItems(ps)| == CountCompleted(ps)
    decreases |ps|
  {
    if |ps| > 0 { CompletedCount(ps[..|ps| - 1]); }
  }

  /** The hours of the items that have an end time; items without one add nothing. */
  function HoursSum(items: seq<FastingSession>): real
    decreases |items|
  {
    if |items| == 0 then 0.0
    else
      var s := items[|items| - 1];
      HoursSum(items[..|items| - 1]) + (if s.endTime.Some? then HoursBetween(s.startTime, s.endTime.value) else 0.0)
  }

  /** The milliseconds fasted over the items that have an end time. */
  function MillisSum(items: seq<FastingSession>): int
    decreases |items|
  {
    if |items| == 0 then 0
    else
      var s := items[|items| - 1];
      MillisSum(items[..|items| - 1]) + (if s.endTime.Some? then s.endTime.value - s.startTime else 0)
  }

  /** The total hours are the total milliseconds of the timed items divided by 3 600 000. */
  lemma {:induction false} HoursSumMillis(items: seq<FastingSession>)
    ensures HoursSum(items) * (MillisPerHour as real) == MillisSum(items) as real
    decreases |items|
  {
    if |items| > 0 {
      HoursSumMillis(items[..|items| - 1]);
      var s := items[|items| - 1];
      if s.endTime.Some? {
        var h := HoursBetween(s.startTime, s.endTime.value);
        assert (HoursSum(items[..|items| - 1]) + h) * (MillisPerHour as real)
            == HoursSum(items[..|items| - 1]) * (MillisPerHour as real) + h * (MillisPerHour as real);
      }
    }
  }

  /** When no session ended before it started, the total is not negative. */
  lemma {:induction false} HoursSumNonNegative(items: seq<FastingSession>)
    requires forall i :: 0 <= i < |items| && items[i].endTime.Some? ==> items[i].startTime <= items[i].endTime.value
    ensures HoursSum(items) >= 0.0
    decreases |items|
  {
    if |items| > 0 { HoursSumNonNegative(items[..|items| - 1]); }
  }
}
