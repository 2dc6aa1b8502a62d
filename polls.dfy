/**
 * The snapshot builder: `loadPolls` reads the poll count, fetches every poll in id
 * order, normalises each record (summing its tallies and attaching the current
 * account's vote) and keeps only the polls whose fetch and normalisation succeed.
 */
module Polls {

  import opened Wrappers
  import opened Ledger

  /** One entry of the snapshot, as pushed onto `data` in `loadPolls`. */
  datatype Poll = Poll(
    id: nat,
    question: string,
    options: seq<string>,
    voteCounts: seq<nat>,
    totalVotes: nat,
    creator: Address,
    isActive: bool,
    expiry: nat,
    createdAt: nat,
    hasVoted: bool,
    userVote: Option<nat>)

  /** `voteCounts.reduce((a, b) => a.add(b), 0)`: a left fold of BigNumber additions. */
  function Sum(s: seq<nat>): nat
  {
    if s == [] then 0 else Sum(s[..|s| - 1]) + s[|s| - 1]
  }

  /** Every tally fits `toNumber()`. */
  predicate AllSafe(s: seq<nat>)
  {
    forall i :: 0 <= i < |s| ==> IsSafe(s[i])
  }

  /** No single tally exceeds the sum of all of them. */
  lemma {:induction false} SumBoundsEach(s: seq<nat>, i: nat)
    requires i < |s|
    ensures s[i] <= Sum(s)
  {
    if i < |s| - 1 {
      SumBoundsEach(s[..|s| - 1], i);
    }
  }

  /** A total that converts safely implies that every tally converts safely. */
  lemma SafeSumMakesAllSafe(s: seq<nat>)
    ensures IsSafe(Sum(s)) ==> AllSafe(s)
  {
    forall i | 0 <= i < |s| && IsSafe(Sum(s))
      ensures IsSafe(s[i])
    {
      SumBoundsEach(s, i);
    }
  }

  /**
   * The object literal of `loadPolls`: `hasVoted` is set before `vote.toNumber()` runs,
   * so a lookup that answers with an unsafe index keeps `hasVoted` true and `userVote`
   * null. Any `toNumber()` over the record itself throws and drops the poll.
   */
  function Normalize(id: nat, raw: RawPoll, vote: Option<nat>): (r: Option<Poll>)
    ensures r.Some? <==> IsSafe(Sum(raw.voteCounts)) && IsSafe(raw.expiry) && IsSafe(raw.createdAt)
    ensures r.Some? ==>
      && r.value.id == id
      && r.value.question == raw.question
      && r.value.options == raw.options
      && r.value.voteCounts == raw.voteCounts
      && r.value.totalVotes == Sum(r.value.voteCounts)
      && r.value.creator == raw.creator
      && r.value.isActive == raw.isActive
      && r.value.expiry == raw.expiry
      && r.value.createdAt == raw.createdAt
    ensures r.Some? ==> (r.value.hasVoted <==> vote.Some?)
    ensures r.Some? && vote.Some? && IsSafe(vote.value) ==> r.value.userVote == vote
    ensures r.Some? && vote.None? ==> r.value.userVote == None
    ensures r.Some? && vote.Some? && !IsSafe(vote.value) ==> r.value.hasVoted && r.value.userVote == None
  {
    var total := Sum(raw.voteCounts);
    SafeSumMakesAllSafe(raw.voteCounts);
    if AllSafe(raw.voteCounts) && IsSafe(total) && IsSafe(raw.expiry) && IsSafe(raw.createdAt) then
      var hasVoted := vote.Some?;
      var userVote := if vote.Some? && IsSafe(vote.value) then vote else None;
      Some(Poll(id, raw.question, raw.options, raw.voteCounts, total, raw.creator,
                raw.isActive, raw.expiry, raw.createdAt, hasVoted, userVote))
    else
      None
  }

  /** The body of one iteration of the `for` loop: fetch poll `id`, then normalise it. */
  function Fetch(g: Gateway, user: Address, id: nat): Option<Poll>
  {
    match g.getPoll(id)
    case None => None
    case Some(raw) => Normalize(id, raw, g.getUserVote(id, user))
  }

  /** The `data` array after the loop has visited the ids `0..n-1`. */
  function Snapshot(g: Gateway, user: Address, n: nat): seq<Poll>
  {
    if n == 0 then []
    else
      Snapshot(g, user, n - 1) +
      match Fetch(g, user, n - 1)
      case None => []
      case Some(p) => [p]
  }

  /** Ids that strictly increase along the sequence (hence no id twice). */
  predicate StrictlyAscendingIds(s: seq<Poll>)
  {
    forall i, j :: 0 <= i < j < |s| ==> s[i].id < s[j].id
  }

  /** The tally invariant of a normalised poll. */
  predicate WellFormed(p: Poll)
  {
    p.totalVotes == Sum(p.voteCounts)
  }

  /** The snapshot lists, in strictly ascending order, only ids below the count. */
  lemma {:induction false} SnapshotOrdered(g: Gateway, user: Address, n: nat)
    ensures |Snapshot(g, user, n)| <= n
    ensures StrictlyAscendingIds(Snapshot(g, user, n))
    ensures forall k :: 0 <= k < |Snapshot(g, user, n)| ==> Snapshot(g, user, n)[k].id < n
  {
    if n > 0 {
      SnapshotOrdered(g, user, n - 1);
    }
  }

  /** Every entry of the snapshot is exactly what fetching its own id yields. */
  lemma {:induction false} SnapshotEntries(g: Gateway, user: Address, n: nat)
    ensures forall k :: 0 <= k < |Snapshot(g, user, n)| ==>
      Fetch(g, user, Snapshot(g, user, n)[k].id) == Some(Snapshot(g, user, n)[k])
  {
    if n > 0 {
      SnapshotEntries(g, user, n - 1);
    }
  }

  /** An id below the count is in the snapshot exactly when its fetch succeeds. */
  lemma {:induction false} SnapshotCoversFetched(g: Gateway, user: Address, n: nat, id: nat)
    ensures (exists k :: 0 <= k < |Snapshot(g, user, n)| && Snapshot(g, user, n)[k].id == id)
        <==> id < n && Fetch(g, user, id).Some?
  {
    if n > 0 {
      SnapshotCoversFetched(g, user, n - 1, id);
      SnapshotEntries(g, user, n);
      var prev, cur := Snapshot(g, user, n - 1), Snapshot(g, user, n);
      assert cur[..|prev|] == prev;
      if k :| 0 <= k < |cur| && cur[k].id == id {
        if k < |prev| {
          assert prev[k].id == id;
        }
      }
      if id == n - 1 && Fetch(g, user, id).Some? {
        assert cur[|prev|].id == id;
      } else if id < n - 1 && Fetch(g, user, id).Some? {
        var k :| 0 <= k < |prev| && prev[k].id == id;
        assert cur[k].id == id;
      }
    }
  }

  /** Every snapshot entry keeps the tally invariant and one tally per raw tally. */
  lemma {:induction false} SnapshotWellFormed(g: Gateway, user: Address, n: nat)
    ensures forall k :: 0 <= k < |Snapshot(g, user, n)| ==>
      && WellFormed(Snapshot(g, user, n)[k])
      && g.getPoll(Snapshot(g, user, n)[k].id).Some?
      && Snapshot(g, user, n)[k].voteCounts == g.getPoll(Snapshot(g, user, n)[k].id).value.voteCounts
  {
    SnapshotEntries(g, user, n);
  }

  /**
   * A kept poll records a vote exactly when the lookup answered; a failed lookup still
   * keeps the poll, with no vote recorded; an answer too large to convert is recorded
   * as voted with no index.
   */
  lemma {:induction false} SnapshotVotes(g: Gateway, user: Address, n: nat)
    ensures forall k :: 0 <= k < |Snapshot(g, user, n)| ==>
      var p := Snapshot(g, user, n)[k];
      && (p.hasVoted <==> g.getUserVote(p.id, user).Some?)
      && (g.getUserVote(p.id, user).None? ==> p.userVote == None)
      && (g.getUserVote(p.id, user).Some? && IsSafe(g.getUserVote(p.id, user).value) ==>
            p.userVote == g.getUserVote(p.id, user))
      && (g.getUserVote(p.id, user).Some? && !IsSafe(g.getUserVote(p.id, user).value) ==>
            p.hasVoted && p.userVote == None)
  {
    SnapshotEntries(g, user, n);
  }

  /**
   * `loadPolls` without its state updates: a failed count read yields nothing, otherwise
   * the loop over `0..count-1` yields the snapshot, which is ordered by id and well formed.
   */
  method BuildSnapshot(g: Gateway, user: Address) returns (r: Option<seq<Poll>>)
    ensures r.None? <==> g.pollCount.None?
    ensures r.Some? ==> r.value == Snapshot(g, user, g.pollCount.value)
    ensures r.Some? ==> StrictlyAscendingIds(r.value)
    ensures r.Some? ==> forall p :: p in r.value ==> WellFormed(p) && p.id < g.pollCount.value
  {
    if g.pollCount.None? {
      return None;
    }
    var count := g.pollCount.value;
    var data: seq<Poll> := [];
    var i := 0;
    while i < count
      invariant 0 <= i <= count
      invariant data == Snapshot(g, user, i)
    {
      var fetched := g.getPoll(i);
      if fetched.Some? {
        var p := Normalize(i, fetched.value, g.getUserVote(i, user));
        if p.Some? {
          data := data + [p.value];
        }
      }
      i := i + 1;
    }
    SnapshotOrdered(g, user, count);
    SnapshotWellFormed(g, user, count);
    r := Some(data);
  }
}
