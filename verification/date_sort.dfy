/**
 * The merge order of the IMAP fetcher: collected messages sorted by date,
 * newest first, with a stable sort (equal dates keep their collection order,
 * as `Array.prototype.sort` guarantees).
 */
module DateSort {

  /** A collected message: its id and its date as a timestamp. */
  datatype Dated = Dated(id: string, time: int)

  predicate NonIncreasing(s: seq<Dated>)
  {
    forall i, j :: 0 <= i < j < |s| ==> s[i].time >= s[j].time
  }

  /** Places `x` after every newer message and before every message as old as or older than it. */
  function Insert(x: Dated, t: seq<Dated>): (r: seq<Dated>)
    ensures multiset(r) == multiset(t) + multiset{x}
    ensures |r| == |t| + 1
    decreases |t|
  {
    if t == [] || x.time >= t[0].time then [x] + t
    else
      assert t == [t[0]] + t[1..];
      [t[0]] + Insert(x, t[1..])
  }

  lemma {:induction false} InsertSorted(x: Dated, t: seq<Dated>)
    requires NonIncreasing(t)
    ensures NonIncreasing(Insert(x, t))
    decreases |t|
  {
    if t != [] && x.time < t[0].time {
      InsertSorted(x, t[1..]);
      var rest := Insert(x, t[1..]);
      var r := Insert(x, t);
      assert r == [t[0]] + rest;
      forall j | 0 <= j < |rest| ensures rest[j].time <= t[0].time {
        assert rest[j] in multiset(rest);
        assert rest[j] in multiset(t[1..]) || rest[j] == x;
        if rest[j] != x {
          var i :| 0 <= i < |t[1..]| && t[1..][i] == rest[j];
          assert t[i + 1] == rest[j];
        }
      }
      forall i, j | 0 <= i < j < |r| ensures r[i].time >= r[j].time {
        if i > 0 {
          assert r[i] == rest[i - 1] && r[j] == rest[j - 1];
        } else {
          assert r[j] == rest[j - 1];
        }
      }
    }
  }

  /** The comparator `(a, b) => b.date - a.date`: newest first, ties in their original order. */
  function SortByDateDesc(s: seq<Dated>): (r: seq<Dated>)
    ensures NonIncreasing(r)
    ensures multiset(r) == multiset(s)
    ensures |r| == |s|
    decreases |s|
  {
    if s == [] then []
    else
      assert s == [s[0]] + s[1..];
      InsertSorted(s[0], SortByDateDesc(s[1..]));
      Insert(s[0], SortByDateDesc(s[1..]))
  }

  /** The messages of one date, in order. */
  function WithTime(s: seq<Dated>, time: int): seq<Dated>
    decreases |s|
  {
    if s == [] then []
    else (if s[0].time == time then [s[0]] else []) + WithTime(s[1..], time)
  }

  lemma {:induction false} InsertWithTime(x: Dated, t: seq<Dated>, time: int)
    ensures WithTime(Insert(x, t), time) == if x.time == time then [x] + WithTime(t, time) else WithTime(t, time)
    decreases |t|
  {
    if t == [] || x.time >= t[0].time {
      assert ([x] + t)[1..] == t;
    } else {
      InsertWithTime(x, t[1..], time);
      var r := Insert(x, t);
      assert r[0] == t[0] && r[1..] == Insert(x, t[1..]);
    }
  }

  /** Stability: for every date, the messages of that date appear in the order they were collected. */
  lemma {:induction false} SortStable(s: seq<Dated>, time: int)
    ensures WithTime(SortByDateDesc(s), time) == WithTime(s, time)
    decreases |s|
  {
    if s != [] {
      SortStable(s[1..], time);
      InsertWithTime(s[0], SortByDateDesc(s[1..]), time);
    }
  }

  /** The last element of a sorted non-empty merge is the oldest collected message. */
  lemma LastIsOldest(s: seq<Dated>)
    requires s != []
    ensures var r := SortByDateDesc(s);
      r[|r| - 1] in s && forall m :: m in s ==> r[|r| - 1].time <= m.time
  {
    var r := SortByDateDesc(s);
    assert r[|r| - 1] in multiset(s);
    forall m | m in s ensures r[|r| - 1].time <= m.time {
      assert m in multiset(r);
      var i :| 0 <= i < |r| && r[i] == m;
      if i < |r| - 1 {
        assert r[i].time >= r[|r| - 1].time;
      }
    }
  }

  /** `messages.map(m => m.id)`. */
  function Ids(s: seq<Dated>): (r: seq<string>)
    ensures |r| == |s| && forall i :: 0 <= i < |s| ==> r[i] == s[i].id
    decreases |s|
  {
    if s == [] then [] else [s[0].id] + Ids(s[1..])
  }
}
