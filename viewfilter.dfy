/**
 * `filteredPolls`: the polls shown in the list view, and the per-option test that
 * decides whether a "Vote" button is offered. Every test is evaluated against an
 * explicit clock reading `nowMs` (what `Date.now()` returns, in milliseconds).
 */
module ViewFilter {

  import opened Wrappers
  import opened Ledger
  import opened Polls

  /** The four values of the filter selector. */
  datatype Mode = All | Mine | Active | Inactive

  /** The session context the filter reads: selector, search box, account and clock. */
  datatype Query = Query(mode: Mode, searchTerm: string, account: Address, nowMs: int)

  /** `toLowerCase` on one character, restricted to ASCII letters. */
  function LowerChar(c: char): char
  {
    if 'A' <= c <= 'Z' then (c as int + 32) as char else c
  }

  function Lower(s: string): (r: string)
    ensures |r| == |s|
    ensures forall i :: 0 <= i < |s| ==> r[i] == LowerChar(s[i])
  {
    seq(|s|, i requires 0 <= i < |s| => LowerChar(s[i]))
  }

  /** Lower-casing twice changes nothing more than lower-casing once. */
  lemma LowerIdempotent(s: string)
    ensures Lower(Lower(s)) == Lower(s)
  {
  }

  /** `needle` occurs in `hay` starting at position `i`. */
  predicate OccursAt(hay: string, needle: string, i: int)
  {
    0 <= i && i + |needle| <= |hay| && hay[i..i + |needle|] == needle
  }

  lemma OccursShift(hay: string, needle: string)
    requires hay != []
    ensures forall i :: 0 <= i ==> (OccursAt(hay[1..], needle, i) <==> OccursAt(hay, needle, i + 1))
  {
    forall i | 0 <= i
      ensures OccursAt(hay[1..], needle, i) <==> OccursAt(hay, needle, i + 1)
    {
      if 0 <= i && i + |needle| <= |hay| - 1 {
        assert hay[1..][i..i + |needle|] == hay[i + 1..i + 1 + |needle|];
      }
    }
  }

  /** `String.prototype.includes`: some position of `hay` starts a copy of `needle`. */
  function Contains(hay: string, needle: string): (b: bool)
    ensures b <==> exists i :: OccursAt(hay, needle, i)
    decreases |hay|
  {
    if |needle| > |hay| then false
    else if hay[..|needle|] == needle then
      assert OccursAt(hay, needle, 0);
      true
    else
      OccursShift(hay, needle);
      assert forall i :: OccursAt(hay, needle, i) ==> i >= 1;
      assert forall i :: OccursAt(hay, needle, i) ==> OccursAt(hay[1..], needle, i - 1);
      Contains(hay[1..], needle)
  }

  /** "Effectively active": `p.isActive && p.expiry > Date.now() / 1000`, in whole milliseconds. */
  predicate IsLive(p: Poll, nowMs: int)
  {
    p.isActive && p.expiry * 1000 > nowMs
  }

  /** `matchFilter`: the selector's test, addresses compared case-insensitively. */
  predicate MatchesMode(p: Poll, q: Query)
  {
    match q.mode
    case All => true
    case Mine => Lower(p.creator) == Lower(q.account)
    case Active => IsLive(p, q.nowMs)
    case Inactive => !p.isActive || p.expiry * 1000 <= q.nowMs
  }

  /** `matchSearch`: the question contains the search term, ignoring case. */
  predicate MatchesSearch(p: Poll, q: Query)
  {
    Contains(Lower(p.question), Lower(q.searchTerm))
  }

  predicate Shown(p: Poll, q: Query)
  {
    MatchesMode(p, q) && MatchesSearch(p, q)
  }

  /** `polls.filter(...)`. */
  function FilterPolls(polls: seq<Poll>, q: Query): seq<Poll>
  {
    if polls == [] then []
    else (if Shown(polls[0], q) then [polls[0]] else []) + FilterPolls(polls[1..], q)
  }

  /** `a` is `b` with some entries left out and the rest in their order. */
  predicate IsSubsequence<T(==)>(a: seq<T>, b: seq<T>)
  {
    if a == [] then true
    else if b == [] then false
    else (a[0] == b[0] && IsSubsequence(a[1..], b[1..])) || IsSubsequence(a, b[1..])
  }

  /** The view keeps snapshot order and contains exactly the shown polls. */
  lemma {:induction false} FilterIsOrderedSelection(polls: seq<Poll>, q: Query)
    ensures IsSubsequence(FilterPolls(polls, q), polls)
    ensures forall p :: p in FilterPolls(polls, q) <==> p in polls && Shown(p, q)
  {
    if polls != [] {
      FilterIsOrderedSelection(polls[1..], q);
      var r := FilterPolls(polls, q);
      if Shown(polls[0], q) {
        assert r[1..] == FilterPolls(polls[1..], q);
      } else {
        assert r == FilterPolls(polls[1..], q);
      }
      assert polls == [polls[0]] + polls[1..];
    }
  }

  /**
   * The search ignores case: a term matches exactly when its lower-cased form does,
   * and a question is matched exactly as its lower-cased form would be.
   */
  lemma SearchIgnoresCase(p: Poll, q: Query)
    ensures MatchesSearch(p, q) <==> MatchesSearch(p, q.(searchTerm := Lower(q.searchTerm)))
    ensures MatchesSearch(p, q) <==> MatchesSearch(p.(question := Lower(p.question)), q)
  {
    LowerIdempotent(q.searchTerm);
    LowerIdempotent(p.question);
  }

  /** The empty term occurs in every text; lower-casing it leaves it empty. */
  lemma EmptySearchMatches(p: Poll, q: Query)
    requires q.searchTerm == ""
    ensures MatchesSearch(p, q)
  {
    assert OccursAt(Lower(p.question), Lower(q.searchTerm), 0);
  }

  /** Mode `all` with an empty search term shows the whole snapshot in order. */
  lemma {:induction false} FilterAllShowsEverything(polls: seq<Poll>, q: Query)
    requires q.mode == All && q.searchTerm == ""
    ensures FilterPolls(polls, q) == polls
  {
    if polls != [] {
      EmptySearchMatches(polls[0], q);
      FilterAllShowsEverything(polls[1..], q);
      assert polls == [polls[0]] + polls[1..];
    }
  }

  /** For one clock reading, `active` and `inactive` split what `all` shows into two parts. */
  lemma {:induction false} ActiveInactiveCover(polls: seq<Poll>, q: Query)
    ensures multiset(FilterPolls(polls, q.(mode := Active))) + multiset(FilterPolls(polls, q.(mode := Inactive)))
         == multiset(FilterPolls(polls, q.(mode := All)))
  {
    if polls != [] {
      ActiveInactiveCover(polls[1..], q);
      var qa, qi, ql := q.(mode := Active), q.(mode := Inactive), q.(mode := All);
      var p := polls[0];
      assert FilterPolls(polls, qa) == (if Shown(p, qa) then [p] else []) + FilterPolls(polls[1..], qa);
      assert FilterPolls(polls, qi) == (if Shown(p, qi) then [p] else []) + FilterPolls(polls[1..], qi);
      assert FilterPolls(polls, ql) == (if Shown(p, ql) then [p] else []) + FilterPolls(polls[1..], ql);
      assert MatchesSearch(p, qa) == MatchesSearch(p, ql) == MatchesSearch(p, qi);
    }
  }

  /** No poll is in both the `active` and the `inactive` view at the same clock reading. */
  lemma ActiveInactiveDisjoint(polls: seq<Poll>, q: Query)
    ensures forall p :: p in FilterPolls(polls, q.(mode := Active)) ==> p !in FilterPolls(polls, q.(mode := Inactive))
  {
    FilterIsOrderedSelection(polls, q.(mode := Active));
    FilterIsOrderedSelection(polls, q.(mode := Inactive));
  }

  /** The `active` view never shows a poll that is closed or expired at evaluation time. */
  lemma {:induction false} ActiveShowsOnlyLive(polls: seq<Poll>, q: Query)
    requires q.mode == Active
    ensures forall p :: p in FilterPolls(polls, q) ==> p.isActive && p.expiry * 1000 > q.nowMs
  {
    FilterIsOrderedSelection(polls, q);
  }

  /** The condition for rendering a "Vote" button under an option. */
  predicate CanVote(p: Poll, nowMs: int)
  {
    !p.hasVoted && IsLive(p, nowMs)
  }

  /**
   * In a snapshot a poll offers voting exactly when the account's vote lookup failed
   * and the poll is effectively active; such a poll is always in the `active` view.
   */
  lemma {:induction false} CanVoteInSnapshot(g: Gateway, user: Address, n: nat, k: nat, nowMs: int)
    requires k < |Snapshot(g, user, n)|
    ensures var p := Snapshot(g, user, n)[k];
      CanVote(p, nowMs) <==> g.getUserVote(p.id, user).None? && p.isActive && p.expiry * 1000 > nowMs
    ensures CanVote(Snapshot(g, user, n)[k], nowMs) ==>
      forall q: Query :: q.mode == Active && q.nowMs == nowMs ==> MatchesMode(Snapshot(g, user, n)[k], q)
  {
    SnapshotVotes(g, user, n);
  }
}
