# DecentraPoll poll-state engine in Dafny

DecentraPoll is a React front end for a poll contract on Ethereum. Inside its one
component, `App.js`, sits a small sequential engine, and this project models it:

- **Snapshot builder** (`loadPolls`). It reads the poll count, then fetches poll
  `0..count-1` in order. For each poll it sums the tallies into `totalVotes` and looks
  up the connected account's vote. A failed lookup becomes "not voted". A poll whose
  fetch or numeric conversion fails is dropped.
- **Leaderboard**. A copy of the snapshot, sorted by total votes with the highest first.
  The sort is stable, so ties keep snapshot order.
- **View filter** (`filteredPolls`). It takes a mode (`all`, `mine`, `active`,
  `inactive`) and a case-insensitive search term. The per-option "Vote" button uses
  the same active test.
- **Draft editor**. `addOption`, `removeOption` (never below two options),
  `updateOption`, and the validation and reset in `createPoll`.
- **`timeSince`**. A creation time becomes "N units ago" or "just now".

Modules, one per component: `Wrappers` (Option), `Ledger` (the gateway, the raw
record, the safe-integer limit), `Polls` (normaliser and snapshot builder), `Ranking`,
`ViewFilter`, `Age` (`timeSince`) and `App`. `App` holds the class `Session`, whose
fields are the component's `useState` slots.

The ledger is a `Gateway` value made of three total functions: the poll count, `getPoll`
and `getUserVote`. Each answers `Some` or fails with `None`; `None` stands for a call
that throws. `Snapshot(g, user, n)` is the specification of the loop. `BuildSnapshot` is
the loop itself, proved equal to it. `FilterPolls` and `Shown` specify the filter, and
`CanVote` the vote button.

Numbers follow ethers v5. Ledger integers are unbounded. `BigNumber.toNumber()` throws
above 2^53 - 1. That happens inside the per-poll `try` in the source, so a poll with an
unsafe tally, total, expiry or creation time is dropped. The model states this
explicitly. The clock is a parameter `nowMs`, what `Date.now()` returns. The source
tests `expiry > Date.now() / 1000` on a fractional value; the model tests
`expiry * 1000 > nowMs`, which is exact for integer values. `timeSince` floors
`nowMs / 1000`. Dafny's `/` by a positive divisor is floor division, like `Math.floor`.

Where the code's behaviour is easy to misread, the model follows the code:

- The code assigns `hasVoted = true` before it converts the returned vote index. An
  index above 2^53 - 1 therefore leaves `hasVoted` true and `userVote` null.
  `Normalize` and `SnapshotVotes` state exactly this. One might expect `userVote`
  always to be the returned index.
- The code does not check a raw poll. The question may be empty, there may be fewer
  than two options, and the tallies need not match the options one for one. The model
  assumes none of these.
- The validation in `createPoll` also rejects a draft with fewer than two options.
  `removeOption` never lets a draft get below two, so that arm cannot fire. The
  `Session.Valid` invariant proves this; see `Session.CreatePoll`.

## Model

| member | source | states |
|---|---|---|
| `Polls.SumBoundsEach` | App.js:43 | no single tally exceeds the sum `reduce` computes |
| `Polls.SafeSumMakesAllSafe` | App.js:56-57 | if the total converts with `toNumber()`, every tally converts too |
| `Polls.Normalize` | App.js:42-64 | a record is kept exactly when its total, expiry and creation time are safe integers; the kept poll carries the fetched fields and the raw tallies unchanged (same length); `totalVotes` is their sum; `hasVoted` holds exactly when the lookup answered; `userVote` is null after a failed lookup, the index after a safe answer, and null (with `hasVoted` true) after an answer too large to convert |
| `Polls.SnapshotOrdered` | App.js:39-66 | the snapshot has at most `count` entries; its ids strictly ascend (so no id repeats), and all lie below the count |
| `Polls.SnapshotEntries` | App.js:40-65 | every snapshot entry is exactly the normalised record fetched for its own id |
| `Polls.SnapshotCoversFetched` | App.js:40-65 | an id is in the snapshot if and only if it is below the count and both its fetch and normalisation succeed; a failed poll is absent, never partial |
| `Polls.SnapshotWellFormed` | App.js:43-57 | every snapshot entry has `totalVotes == Sum(voteCounts)` and the raw ledger tallies |
| `Polls.SnapshotVotes` | App.js:44-50 | in the snapshot, `hasVoted` holds if and only if the vote lookup answered; after a failed lookup `userVote` is null and the poll is still kept; after a safe answer it is the returned index; after an unsafe answer `hasVoted` is true and `userVote` null |
| `Polls.BuildSnapshot` | App.js:36-67 | the loop fails exactly when the count read fails; otherwise it returns the snapshot of ids `0..count-1`, ordered by id and well formed |
| `Ranking.Insert` | App.js:68 | inserting one poll adds exactly that poll (multiset) |
| `Ranking.InsertMembers` | App.js:68 | insertion introduces no poll but the inserted one |
| `Ranking.InsertSorted` | App.js:68 | insertion into a list with non-increasing totals keeps it non-increasing |
| `Ranking.Leaderboard` | App.js:68 | the leaderboard has the snapshot's length, is a permutation of it, and its totals are non-increasing; an empty snapshot gives an empty leaderboard |
| `Ranking.InsertKeepsTies` | App.js:68 | an inserted poll goes ahead of all polls with its own total and does not reorder them |
| `Ranking.LeaderboardStable` | App.js:68 | for every total, the polls with that total appear in the leaderboard in snapshot order (stable sort) |
| `Ranking.InsertSmallestId` | App.js:68 | inserting a poll whose id is below all others keeps equal totals in ascending id order |
| `Ranking.LeaderboardTiesByAscendingId` | App.js:68 | on a snapshot with strictly ascending ids, polls with equal totals are ranked by ascending id |
| `Ranking.TwoPollExample` | App.js:43-68 | polls with tallies [3, 7] and [1, 1] total 10 and 2, and rank in that order |
| `ViewFilter.SearchIgnoresCase` | App.js:167 | the search is case-insensitive: lower-casing the term or the question never changes whether a poll matches |
| `ViewFilter.OccursShift` | App.js:167 | an occurrence in the tail of a text is an occurrence one position later in the text |
| `ViewFilter.Contains` | App.js:167 | `includes` holds if and only if the term occurs at some position of the text |
| `ViewFilter.FilterIsOrderedSelection` | App.js:161-169 | the view is an order-preserving subsequence of the snapshot; a poll is in it if and only if it is in the snapshot and passes both the mode test and the search test |
| `ViewFilter.EmptySearchMatches` | App.js:167 | an empty search term matches every question |
| `ViewFilter.FilterAllShowsEverything` | App.js:161-169 | mode `all` with an empty search returns the whole snapshot, same order |
| `ViewFilter.ActiveInactiveCover` | App.js:165-166 | at one clock reading, the `active` and `inactive` views together are, as a multiset, exactly the `all` view under the same search |
| `ViewFilter.ActiveInactiveDisjoint` | App.js:165-166 | no poll is in both the `active` and the `inactive` view at one clock reading |
| `ViewFilter.ActiveShowsOnlyLive` | App.js:165 | the `active` view never contains a closed poll or one with `expiry <= now` |
| `ViewFilter.CanVoteInSnapshot` | App.js:253 | a snapshot poll offers voting if and only if the account's vote lookup failed and the poll is active and unexpired; such a poll passes the `active` mode test |
| `Age.Position` | App.js:145-151 | each unit has a place in the interval table, and longer units come earlier |
| `Age.NatToString` | App.js:155 | the rendered count consists of decimal digits with no leading zero |
| `Age.NatToStringRoundTrip` | App.js:155 | reading the rendered digits back gives the count |
| `Age.TimeSince` | App.js:143-159 | "just now" exactly when the age is under 60 seconds, negative ages included; otherwise the floor count of the chosen unit is at least 1, and the age is below every longer unit; the text is the rendered template |
| `App.SessionLeaderboard` | App.js:67-69 | in every session state, the leaderboard is a permutation of the snapshot, highest total first, with ties in ascending id order |
| `App.Session.constructor` | App.js:11-20 | the initial state: empty snapshot and leaderboard, no account, an empty question, two empty options |
| `App.Session.Sync` | App.js:36-76 | a successful count read replaces the snapshot and recomputes the leaderboard; a failed one leaves both untouched; the draft is untouched |
| `App.Session.Connect` | App.js:23-34 | with a wallet, adopt its first account and load the polls for it; without one, nothing changes |
| `App.Session.AddOption` | App.js:123-125 | exactly one empty option is appended; the existing options are unchanged |
| `App.Session.RemoveOption` | App.js:127-135 | with at most two options it warns and changes nothing; otherwise option `idx` is removed and the others keep their order |
| `App.Session.UpdateOption` | App.js:137-141 | only position `idx` changes, to the new text; the length is kept |
| `App.Session.SetQuestion` | App.js:202 | the question becomes the typed text |
| `App.Session.CreatePoll` | App.js:78-104 | an empty question makes no ledger call and changes nothing; otherwise it calls once with the draft and duration 86400; on confirmation it resets the draft to `('', ['', ''])` and reloads; on failure it changes nothing |
| `App.Session.Vote` | App.js:106-121 | a confirmed vote reloads the polls; a failed one changes nothing |

All `Session` methods also keep `Session.Valid`. That invariant says the draft has at
least two options, the snapshot is ordered and well formed, and the leaderboard is the
ranking of the snapshot.

## Left out

- Wallet discovery (`window.ethereum`, `eth_requestAccounts`), provider, signer and
  contract construction. These are I/O. The wallet's answer is the `Option<Address>`
  parameter of `Connect`.
- Submitting transactions and waiting for them (`tx.wait`). These are foreign calls.
  Whether a `createPoll` or `vote` transaction confirms is a parameter function. Any
  exception on those paths, including a missing wallet, counts as not confirmed.
- The ledger contract itself. Its counts, records and vote lookups are arbitrary total
  functions.
- The `await` points. Reads are modelled as instantaneous, and one flow runs at a time.
  Gateway state cannot change during a sync.
- Toasts, `console.error`, the `loading` flag, dark mode, the view selector, and all JSX
  rendering. These are presentation. The "You voted this" marker and the
  address shortening in the header are presentation too.
- The progress-bar percentage. It is floating point.
- `Date.now()`. It becomes the integer parameter `nowMs`.
- ViewFilter.Lower: lowers ASCII letters only. Unicode case mapping of `toLowerCase`
  is not modelled.
- Filter strings other than the four the selector offers. The mode is an enumeration;
  for any other string the source shows nothing.
- App.Session.RemoveOption: requires `0 <= idx < |options|`, because the handler is
  only bound to existing rows. `splice` with an out-of-range or negative index is not
  modelled.
- App.Session.UpdateOption: requires `0 <= idx < |options|` for the same reason. Index
  assignment past the end is not modelled.
- Polls.Normalize: a raw record's fields are trusted to have their ABI types. Other
  ways the destructuring could throw fold into "fetch failed".
