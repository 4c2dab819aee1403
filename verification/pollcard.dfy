/**
 * The logic under the poll card: the vote total, the "LEADING" option, the
 * percentage shown beside each option, and the guard that decides whether
 * clicking an option casts a new vote.
 *
 * The card's `poll.votes` object is a sequence of (option, count) entries in
 * the order `Object.entries` visits them; a poll without `votes` is `None`.
 */
module PollCard {
  import opened Wrappers
  import VoteSlice

  /** One `[option, votes]` entry of `poll.votes`. */
  datatype VoteEntry = VoteEntry(option: string, count: int)

  /** `Object.values(votes).reduce((acc, vote) => acc + vote, 0)`: a left fold from 0. */
  function Tally(votes: seq<VoteEntry>): int {
    if |votes| == 0 then 0 else Tally(votes[..|votes| - 1]) + votes[|votes| - 1].count
  }

  /** `totalVotes`: the tally of `poll.votes`, or 0 when the poll has none. */
  function TotalVotes(votes: Option<seq<VoteEntry>>): (total: int)
    ensures votes.None? ==> total == 0
    ensures votes.Some? ==> total == Tally(votes.value)
  {
    if votes.Some? then Tally(votes.value) else 0
  }

  predicate NonNegativeCounts(votes: seq<VoteEntry>) {
    forall i :: 0 <= i < |votes| ==> votes[i].count >= 0
  }

  /** The tally of two runs of entries is the sum of their tallies. */
  lemma {:induction false} TallyAppend(a: seq<VoteEntry>, b: seq<VoteEntry>)
    ensures Tally(a + b) == Tally(a) + Tally(b)
    decreases |b|
  {
    if |b| == 0 {
      assert a + b == a;
    } else {
      assert (a + b)[..|a + b| - 1] == a + b[..|b| - 1];
      assert (a + b)[|a + b| - 1] == b[|b| - 1];
      TallyAppend(a, b[..|b| - 1]);
    }
  }

  /** With non-negative counts the total is at least every single count. */
  lemma {:induction false} TallyBoundsEach(votes: seq<VoteEntry>)
    requires NonNegativeCounts(votes)
    ensures Tally(votes) >= 0
    ensures forall i :: 0 <= i < |votes| ==> votes[i].count <= Tally(votes)
  {
    if |votes| > 0 {
      TallyBoundsEach(votes[..|votes| - 1]);
    }
  }

  /** With non-negative counts the total is 0 exactly when every count is 0. */
  lemma {:induction false} TallyZeroIff(votes: seq<VoteEntry>)
    requires NonNegativeCounts(votes)
    ensures Tally(votes) == 0 <==> forall i :: 0 <= i < |votes| ==> votes[i].count == 0
  {
    TallyBoundsEach(votes);
    if |votes| > 0 {
      var init := votes[..|votes| - 1];
      TallyZeroIff(init);
      TallyBoundsEach(init);
      if Tally(votes) == 0 {
        forall i | 0 <= i < |votes|
          ensures votes[i].count == 0
        {
          if i < |votes| - 1 {
            assert votes[i] == init[i];
          }
        }
      }
    }
  }

  /**
   * The percentage beside an option, before `toFixed(1)` rounds it:
   * `count / total * 100` when the total is positive, and 0 otherwise.
   */
  function Percentage(count: int, total: int): (p: real)
    ensures total <= 0 ==> p == 0.0
    ensures total > 0 ==> p * total as real == 100.0 * count as real
    ensures total > 0 && 0 <= count <= total ==> 0.0 <= p <= 100.0
  {
    if total > 0 then (count as real / total as real) * 100.0 else 0.0
  }

  /** The percentages of a run of entries, added up. */
  function SumPercentages(votes: seq<VoteEntry>, total: int): real {
    if |votes| == 0 then 0.0
    else SumPercentages(votes[..|votes| - 1], total) + Percentage(votes[|votes| - 1].count, total)
  }

  /** The percentages of two counts add up to the percentage of their sum. */
  lemma PercentageAdd(a: int, b: int, total: int)
    requires total > 0
    ensures Percentage(a, total) + Percentage(b, total) == Percentage(a + b, total)
  {
    var t := total as real;
    assert a as real / t + b as real / t == (a + b) as real / t;
  }

  /** The sum of the entries' percentages is the percentage of their tally. */
  lemma {:induction false} SumPercentagesOfTally(votes: seq<VoteEntry>, total: int)
    requires total > 0
    ensures SumPercentages(votes, total) == Percentage(Tally(votes), total)
  {
    if |votes| > 0 {
      var init := votes[..|votes| - 1];
      SumPercentagesOfTally(init, total);
      PercentageAdd(Tally(init), votes[|votes| - 1].count, total);
    }
  }

  /** When anybody has voted, the percentages of all options add up to 100. */
  lemma PercentagesSumToHundred(votes: seq<VoteEntry>)
    requires Tally(votes) > 0
    ensures SumPercentages(votes, Tally(votes)) == 100.0
  {
    var t := Tally(votes);
    SumPercentagesOfTally(votes, t);
    PercentageOfWhole(t);
  }

  /** A count equal to a positive total is 100 percent of it. */
  lemma PercentageOfWhole(total: int)
    requires total > 0
    ensures Percentage(total, total) == 100.0
  {
    var t := total as real;
    assert t / t == 1.0;
  }

  /**
   * Entry `i` is the one `findWinningOption` settles on: its count is
   * positive, no entry has more, and every earlier entry has strictly less,
   * so a tie goes to the first entry reaching the maximum.
   */
  ghost predicate IsLeader(votes: seq<VoteEntry>, i: int) {
    && 0 <= i < |votes|
    && votes[i].count > 0
    && (forall j :: 0 <= j < |votes| ==> votes[j].count <= votes[i].count)
    && (forall j :: 0 <= j < i ==> votes[j].count < votes[i].count)
  }

  /** At most one entry is the leader. */
  lemma LeaderUnique(votes: seq<VoteEntry>, i: int, j: int)
    requires IsLeader(votes, i) && IsLeader(votes, j)
    ensures i == j
  {
  }

  /**
   * `findWinningOption`: null when the poll has no votes object; otherwise a
   * scan from a maximum of 0 that takes an entry only when its count is
   * strictly greater, so there is no winner when no count is positive and the
   * winner is the option of the unique leader otherwise.
   */
  method FindWinningOption(votes: Option<seq<VoteEntry>>) returns (winner: Option<string>)
    ensures votes.None? ==> winner.None?
    ensures votes.Some? ==>
              (winner.None? <==> forall i :: 0 <= i < |votes.value| ==> votes.value[i].count <= 0)
    ensures winner.Some? ==>
              votes.Some? && exists i :: IsLeader(votes.value, i) && votes.value[i].option == winner.value
  {
    winner := None;
    if votes.None? {
      return;
    }
    var entries := votes.value;
    var maxVotes := 0;
    ghost var at := 0;
    for i := 0 to |entries|
      invariant winner.None? <==> forall j :: 0 <= j < i ==> entries[j].count <= 0
      invariant winner.None? ==> maxVotes == 0
      invariant winner.Some? ==>
                  && 0 <= at < i
                  && entries[at].option == winner.value
                  && entries[at].count == maxVotes > 0
                  && (forall j :: 0 <= j < i ==> entries[j].count <= maxVotes)
                  && (forall j :: 0 <= j < at ==> entries[j].count < maxVotes)
    {
      if entries[i].count > maxVotes {
        maxVotes := entries[i].count;
        winner := Some(entries[i].option);
        at := i;
      }
    }
    if winner.Some? {
      assert IsLeader(entries, at);
    }
  }

  /**
   * The voting half of the card: the local `selectedOption` state and the
   * store the card dispatches to.
   */
  class PollCardView {
    const store: VoteSlice.VoteState
    /** The option whose vote request last succeeded, or None. */
    var selectedOption: Option<string>

    constructor (store: VoteSlice.VoteState)
      ensures this.store == store && selectedOption.None?
    {
      this.store := store;
      selectedOption := None;
    }

    /**
     * `handleOptionSelect(option)`: when `option` differs from
     * `selectedOption`, start a vote request for it (returned as `vote`) and
     * dispatch `setValue(option)`; otherwise do nothing.
     */
    method OptionSelect(option: string) returns (vote: Option<string>)
      modifies store
      ensures selectedOption == old(selectedOption)
      ensures old(selectedOption) != Some(option) ==> vote == Some(option) && store.value == option
      ensures old(selectedOption) == Some(option) ==> vote.None? && store.value == old(store.value)
    {
      vote := None;
      if selectedOption != Some(option) {
        vote := Some(option);
        store.SetValue(option);
      }
    }

    /**
     * The end of `handleVote(option)`: `selectedOption` becomes `option` only
     * when the request succeeded; a failure is logged and changes nothing.
     */
    method VoteSettled(option: string, succeeded: bool)
      modifies this
      ensures succeeded ==> selectedOption == Some(option)
      ensures !succeeded ==> selectedOption == old(selectedOption)
    {
      if succeeded {
        selectedOption := Some(option);
      }
    }
  }
}
