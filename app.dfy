/**
 * The component's state and the handlers that change it. Each `useState` slot is a
 * field; a setter call replaces the field's value wholesale. Transactions and the
 * wallet are outside the model: whether a transaction confirms, and which account the
 * wallet hands over, arrive as parameters.
 */
module App {

  import opened Wrappers
  import opened Ledger
  import opened Polls
  import opened Ranking

  /** The fixed duration `createPoll` passes: one day in seconds. */
  const DefaultDuration: nat := 86400

  /** The guard at the top of `createPoll`, and the call it lets through. */
  function CreateRequestFor(question: string, options: seq<string>): (r: Option<CreateRequest>)
    ensures r.None? <==> question == "" || |options| < 2
    ensures r.Some? ==> r.value.question == question && r.value.options == options
    ensures r.Some? ==> r.value.duration == DefaultDuration
  {
    if question == "" || |options| < 2 then None
    else Some(CreateRequest(question, options, DefaultDuration))
  }

  /**
   * What a session's leaderboard always is: a permutation of its snapshot, highest
   * total first, with equal totals in ascending id order.
   */
  lemma SessionLeaderboard(s: Session)
    requires s.Valid()
    ensures multiset(s.leaderboard) == multiset(s.polls)
    ensures SortedByTotal(s.leaderboard)
    ensures TiesByAscendingId(s.leaderboard)
  {
    LeaderboardTiesByAscendingId(s.polls);
  }

  class Session {
    var polls: seq<Poll>
    var leaderboard: seq<Poll>
    var account: Address
    var question: string
    var options: seq<string>

    /**
     * What every handler keeps: the draft has at least two options, the snapshot is
     * ordered by id and well formed, and the leaderboard is the ranking of the snapshot.
     */
    ghost predicate Valid()
      reads this
    {
      && |options| >= 2
      && StrictlyAscendingIds(polls)
      && (forall p :: p in polls ==> WellFormed(p))
      && leaderboard == Leaderboard(polls)
    }

    /** The initial `useState` values. */
    constructor ()
      ensures Valid()
      ensures polls == [] && leaderboard == [] && account == ""
      ensures question == "" && options == ["", ""]
    {
      polls, leaderboard, account := [], [], "";
      question, options := "", ["", ""];
    }

    /**
     * `loadPolls`: on a successful count read both the snapshot and the leaderboard are
     * replaced; when the count read fails nothing changes.
     */
    method Sync(g: Gateway, user: Address) returns (ok: bool)
      requires Valid()
      modifies this`polls, this`leaderboard
      ensures Valid()
      ensures ok <==> g.pollCount.Some?
      ensures ok ==> polls == Snapshot(g, user, g.pollCount.value) && leaderboard == Leaderboard(polls)
      ensures !ok ==> polls == old(polls) && leaderboard == old(leaderboard)
    {
      var data := BuildSnapshot(g, user);
      ok := data.Some?;
      if ok {
        polls := data.value;
        leaderboard := Leaderboard(data.value);
      }
    }

    /** `connectWallet`: with a wallet present, adopt its first account and load the polls. */
    method Connect(wallet: Option<Address>, g: Gateway) returns (ok: bool)
      requires Valid()
      modifies this`account, this`polls, this`leaderboard
      ensures Valid()
      ensures wallet.None? ==> !ok && account == old(account) && polls == old(polls)
      ensures wallet.None? ==> leaderboard == old(leaderboard)
      ensures wallet.Some? ==> account == wallet.value
      ensures wallet.Some? ==> (ok <==> g.pollCount.Some?)
      ensures wallet.Some? && ok ==> polls == Snapshot(g, wallet.value, g.pollCount.value)
      ensures wallet.Some? && !ok ==> polls == old(polls) && leaderboard == old(leaderboard)
    {
      ok := false;
      if wallet.Some? {
        account := wallet.value;
        ok := Sync(g, wallet.value);
      }
    }

    /** `addOption`: one more, empty, option at the end. */
    method AddOption()
      requires Valid()
      modifies this`options
      ensures Valid()
      ensures |options| == old(|options|) + 1
      ensures options[..old(|options|)] == old(options) && options[old(|options|)] == ""
    {
      options := options + [""];
    }

    /**
     * `removeOption(idx)`: refused with a warning while only two options remain;
     * otherwise option `idx` goes and the others keep their order.
     */
    method RemoveOption(idx: nat) returns (warned: bool)
      requires Valid()
      requires idx < |options|
      modifies this`options
      ensures Valid()
      ensures warned <==> old(|options|) <= 2
      ensures warned ==> options == old(options)
      ensures !warned ==> |options| == old(|options|) - 1
      ensures !warned ==> forall j :: 0 <= j < idx ==> options[j] == old(options[j])
      ensures !warned ==> forall j :: idx <= j < |options| ==> options[j] == old(options[j + 1])
    {
      warned := |options| <= 2;
      if !warned {
        options := options[..idx] + options[idx + 1..];
      }
    }

    /** `updateOption(idx, value)`: only position `idx` changes; no validation happens here. */
    method UpdateOption(idx: nat, value: string)
      requires Valid()
      requires idx < |options|
      modifies this`options
      ensures Valid()
      ensures |options| == old(|options|)
      ensures options[idx] == value
      ensures forall j :: 0 <= j < |options| && j != idx ==> options[j] == old(options[j])
    {
      options := options[idx := value];
    }

    /** The question input's `onChange`. */
    method SetQuestion(value: string)
      requires Valid()
      modifies this`question
      ensures Valid()
      ensures question == value
    {
      question := value;
    }

    /**
     * `createPoll`: an empty question stops it before any ledger call (a draft always
     * has two options, so the count test never fires); otherwise the ledger is asked
     * once with the draft and the default duration. A confirmed transaction clears the
     * draft and reloads the polls; a failed one leaves everything as it was.
     */
    method CreatePoll(confirms: CreateRequest -> bool, g: Gateway) returns (request: Option<CreateRequest>)
      requires Valid()
      modifies this`question, this`options, this`polls, this`leaderboard
      ensures Valid()
      ensures request.None? <==> old(question) == ""
      ensures request.Some? ==> request.value == CreateRequest(old(question), old(options), DefaultDuration)
      ensures request.None? || !confirms(request.value) ==>
        question == old(question) && options == old(options) &&
        polls == old(polls) && leaderboard == old(leaderboard)
      ensures request.Some? && confirms(request.value) ==> question == "" && options == ["", ""]
      ensures request.Some? && confirms(request.value) && g.pollCount.Some? ==>
        polls == Snapshot(g, account, g.pollCount.value)
      ensures request.Some? && confirms(request.value) && g.pollCount.None? ==>
        polls == old(polls) && leaderboard == old(leaderboard)
    {
      request := CreateRequestFor(question, options);
      if request.Some? && confirms(request.value) {
        question := "";
        options := ["", ""];
        var _ := Sync(g, account);
      }
    }

    /**
     * `vote(pollId, optionIndex)`: `confirms` says whether the ledger's `vote`
     * transaction for that poll and option confirms. A confirmed vote reloads the
     * polls; a failed one changes nothing.
     */
    method Vote(pollId: nat, optionIndex: nat, confirms: (nat, nat) -> bool, g: Gateway)
      requires Valid()
      modifies this`polls, this`leaderboard
      ensures Valid()
      ensures confirms(pollId, optionIndex) && g.pollCount.Some? ==>
        polls == Snapshot(g, account, g.pollCount.value)
      ensures !confirms(pollId, optionIndex) || g.pollCount.None? ==>
        polls == old(polls) && leaderboard == old(leaderboard)
    {
      if confirms(pollId, optionIndex) {
        var _ := Sync(g, account);
      }
    }
  }
}
