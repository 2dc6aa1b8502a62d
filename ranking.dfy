/**
 * The leaderboard: `[...data].sort((a, b) => b.totalVotes - a.totalVotes)`. The
 * comparator orders by total votes, highest first, and `Array.prototype.sort` is
 * stable (ECMA-262, 2019 edition onward), so ties keep their snapshot order. The
 * library sort is modelled by a stable insertion sort over values; the copy leaves the
 * snapshot itself untouched because sequences are values.
 */
module Ranking {

  import opened Polls

  /** Total votes never increase along the sequence. */
  predicate SortedByTotal(s: seq<Poll>)
  {
    forall i, j :: 0 <= i < j < |s| ==> s[i].totalVotes >= s[j].totalVotes
  }

  /** The polls of `s` whose total is `k`, in their order in `s`. */
  function WithTotal(s: seq<Poll>, k: nat): seq<Poll>
  {
    if s == [] then []
    else (if s[0].totalVotes == k then [s[0]] else []) + WithTotal(s[1..], k)
  }

  /** Places `x` in front of the first poll whose total does not exceed its own. */
  function Insert(x: Poll, s: seq<Poll>): (r: seq<Poll>)
    ensures |r| == |s| + 1
    ensures multiset(r) == multiset(s) + multiset{x}
  {
    if s == [] || x.totalVotes >= s[0].totalVotes then [x] + s
    else
      assert s == [s[0]] + s[1..];
      [s[0]] + Insert(x, s[1..])
  }

  /** Every poll of `Insert(x, s)` is `x` or a poll of `s`. */
  lemma InsertMembers(x: Poll, s: seq<Poll>)
    ensures forall p :: p in Insert(x, s) ==> p == x || p in s
  {
    forall p | p in Insert(x, s)
      ensures p == x || p in s
    {
      assert p in multiset(Insert(x, s));
    }
  }

  /** Inserting into a sorted sequence keeps it sorted. */
  lemma {:induction false} InsertSorted(x: Poll, s: seq<Poll>)
    requires SortedByTotal(s)
    ensures SortedByTotal(Insert(x, s))
  {
    if s != [] && x.totalVotes < s[0].totalVotes {
      var rest := Insert(x, s[1..]);
      InsertSorted(x, s[1..]);
      InsertMembers(x, s[1..]);
      var r := [s[0]] + rest;
      forall i, j | 0 <= i < j < |r|
        ensures r[i].totalVotes >= r[j].totalVotes
      {
        if i == 0 {
          assert r[j] in rest;
          if r[j] != x {
            var m :| 0 <= m < |s[1..]| && s[1..][m] == r[j];
            assert s[m + 1] == r[j];
          }
        } else {
          assert r[i] == rest[i - 1] && r[j] == rest[j - 1];
        }
      }
    }
  }

  /** The leaderboard: a permutation of the snapshot with non-increasing totals. */
  function Leaderboard(s: seq<Poll>): (r: seq<Poll>)
    ensures |r| == |s|
    ensures multiset(r) == multiset(s)
    ensures SortedByTotal(r)
  {
    if s == [] then []
    else
      assert s == [s[0]] + s[1..];
      InsertSorted(s[0], Leaderboard(s[1..]));
      Insert(s[0], Leaderboard(s[1..]))
  }

  /** Inserting `x` puts it ahead of every poll of the same total. */
  lemma {:induction false} InsertKeepsTies(x: Poll, s: seq<Poll>, k: nat)
    ensures WithTotal(Insert(x, s), k) == (if x.totalVotes == k then [x] else []) + WithTotal(s, k)
  {
    if s == [] || x.totalVotes >= s[0].totalVotes {
      assert ([x] + s)[1..] == s;
    } else {
      InsertKeepsTies(x, s[1..], k);
      assert ([s[0]] + Insert(x, s[1..]))[1..] == Insert(x, s[1..]);
    }
  }

  /** Stability: for every total, the polls with that total appear in snapshot order. */
  lemma {:induction false} LeaderboardStable(s: seq<Poll>)
    ensures forall k :: WithTotal(Leaderboard(s), k) == WithTotal(s, k)
  {
    if s != [] {
      LeaderboardStable(s[1..]);
      forall k
        ensures WithTotal(Leaderboard(s), k) == WithTotal(s, k)
      {
        InsertKeepsTies(s[0], Leaderboard(s[1..]), k);
      }
    }
  }

  /** Polls of equal total appear in ascending id order. */
  predicate TiesByAscendingId(s: seq<Poll>)
  {
    forall i, j :: 0 <= i < j < |s| && s[i].totalVotes == s[j].totalVotes ==> s[i].id < s[j].id
  }

  lemma {:induction false} InsertSmallestId(x: Poll, s: seq<Poll>)
    requires TiesByAscendingId(s)
    requires forall p :: p in s ==> x.id < p.id
    ensures TiesByAscendingId(Insert(x, s))
  {
    if s != [] && x.totalVotes < s[0].totalVotes {
      InsertSmallestId(x, s[1..]);
      InsertMembers(x, s[1..]);
      var rest := Insert(x, s[1..]);
      var r := [s[0]] + rest;
      forall i, j | 0 <= i < j < |r| && r[i].totalVotes == r[j].totalVotes
        ensures r[i].id < r[j].id
      {
        if i == 0 {
          assert r[j] in rest;
          if r[j] == x {
            assert x.totalVotes < s[0].totalVotes;
          } else {
            var m :| 1 <= m < |s| && s[m] == r[j];
          }
        } else {
          assert r[i] == rest[i - 1] && r[j] == rest[j - 1];
        }
      }
    }
  }

  /**
   * On a snapshot (ids strictly ascending) stability means that polls with the same
   * total are ranked by ascending id.
   */
  lemma {:induction false} LeaderboardTiesByAscendingId(s: seq<Poll>)
    requires StrictlyAscendingIds(s)
    ensures TiesByAscendingId(Leaderboard(s))
  {
    if s != [] {
      LeaderboardTiesByAscendingId(s[1..]);
      var rest := Leaderboard(s[1..]);
      forall p | p in rest
        ensures s[0].id < p.id
      {
        assert p in multiset(rest);
        assert p in multiset(s[1..]);
        var m :| 0 <= m < |s[1..]| && s[1..][m] == p;
        assert s[m + 1] == p;
      }
      InsertSmallestId(s[0], rest);
    }
  }

  /** The example of two polls with totals 10 and 2: the larger total ranks first. */
  lemma TwoPollExample(a: Poll, b: Poll)
    requires a.voteCounts == [3, 7] && b.voteCounts == [1, 1]
    requires WellFormed(a) && WellFormed(b)
    ensures a.totalVotes == 10 && b.totalVotes == 2
    ensures Leaderboard([a, b]) == [a, b]
  {
    assert [3, 7][..1] == [3] && [3][..0] == [];
    assert [1, 1][..1] == [1] && [1][..0] == [];
    assert [a, b][1..] == [b];
    assert [b][1..] == [];
  }
}
