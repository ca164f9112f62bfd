/**
 * The majority tally of mafia/voting.py. Every voter holds one ballot, either
 * a candidate's name or no vote; the winner is the candidate named by more
 * than half of the ballots.
 */
module Votes {
  import opened Wrappers

  /** A ballot: Some(candidate), or None for "no vote" (also the initial ballot). */
  type Ballot = Option<string>

  /** The number of voters among `voters` whose ballot is b. */
  function Tally(votes: map<string, Ballot>, voters: set<string>, b: Ballot): nat {
    |set v | v in voters && v in votes && votes[v] == b|
  }

  /** The number of ballots equal to b. */
  function Count(votes: map<string, Ballot>, b: Ballot): nat {
    Tally(votes, votes.Keys, b)
  }

  /** `len(votes) // 2 + 1`: the smallest number of ballots that is more than half of n. */
  function Threshold(n: nat): (t: nat)
    ensures n < 2 * t <= n + 2
  {
    n / 2 + 1
  }

  lemma {:induction false} SubsetCard<T>(a: set<T>, b: set<T>)
    requires a <= b
    ensures |a| <= |b|
    decreases |b|
  {
    if a != {} {
      var x :| x in a;
      SubsetCard(a - {x}, b - {x});
    }
  }

  /** Two different ballots cannot both reach the threshold: their voters are disjoint. */
  lemma UniqueMajority(votes: map<string, Ballot>, a: Ballot, b: Ballot)
    requires Count(votes, a) >= Threshold(|votes|)
    requires Count(votes, b) >= Threshold(|votes|)
    ensures a == b
  {
    if a != b {
      var sa := set v | v in votes.Keys && v in votes && votes[v] == a;
      var sb := set v | v in votes.Keys && v in votes && votes[v] == b;
      assert |votes.Keys| == |votes|;
      assert sa !! sb;
      assert |sa + sb| == |sa| + |sb|;
      SubsetCard(sa + sb, votes.Keys);
    }
  }

  /** Count in the tally of a subset of voters never exceeds the full count. */
  lemma TallyBelowCount(votes: map<string, Ballot>, voters: set<string>, b: Ballot)
    ensures Tally(votes, voters, b) <= Count(votes, b)
  {
    SubsetCard(set v | v in voters && v in votes && votes[v] == b,
               set v | v in votes.Keys && v in votes && votes[v] == b);
  }

  /** Adding one voter raises the tally of that voter's ballot by one and leaves the others alone. */
  lemma TallyAdd(votes: map<string, Ballot>, voters: set<string>, x: string, b: Ballot)
    requires x in votes && x !in voters
    ensures Tally(votes, voters + {x}, b) == Tally(votes, voters, b) + (if votes[x] == b then 1 else 0)
  {
    var before := set v | v in voters && v in votes && votes[v] == b;
    var after := set v | v in voters + {x} && v in votes && votes[v] == b;
    if votes[x] == b {
      assert after == before + {x};
    } else {
      assert after == before;
    }
  }

  /**
   * The outcome of a vote: the candidate whose ballots reach the threshold, or
   * None when no candidate does. By UniqueMajority there is at most one such
   * candidate, so the outcome does not depend on the order ballots are counted in.
   */
  ghost function MajorityOf(votes: map<string, Ballot>): (w: Ballot)
    ensures w.Some? <==> exists c :: Count(votes, Some(c)) >= Threshold(|votes|)
    ensures w.Some? ==> Count(votes, w) >= Threshold(|votes|)
  {
    if exists c :: Count(votes, Some(c)) >= Threshold(|votes|) then
      var c :| Count(votes, Some(c)) >= Threshold(|votes|);
      Some(c)
    else None
  }

  /** Counting one more voter into a running tally map keeps it equal to Tally. */
  lemma CountOneMore(votes: map<string, Ballot>, seen: set<string>, voter: string, counts: map<Ballot, nat>)
    requires voter in votes && voter !in seen
    requires forall b :: Tally(votes, seen, b) == (if b in counts then counts[b] else 0)
    ensures var c := votes[voter];
            var next := counts[c := (if c in counts then counts[c] else 0) + 1];
            forall b :: Tally(votes, seen + {voter}, b) == (if b in next then next[b] else 0)
  {
    forall b ensures Tally(votes, seen + {voter}, b) == Tally(votes, seen, b) + (if votes[voter] == b then 1 else 0) {
      TallyAdd(votes, seen, voter, b);
    }
  }

  /** A ballot that reaches the threshold, None included, settles the outcome. */
  lemma MajorityReached(votes: map<string, Ballot>, b: Ballot)
    requires Count(votes, b) >= Threshold(|votes|)
    ensures MajorityOf(votes) == b
  {
    var w := MajorityOf(votes);
    if b.Some? {
      assert Count(votes, Some(b.value)) >= Threshold(|votes|);
      UniqueMajority(votes, w, b);
    } else if w.Some? {
      UniqueMajority(votes, w, b);
    }
  }

  /** Fresh ballots for the given voters, all "no vote"; a repeated voter appears once. */
  function NoVotes(voters: seq<string>): (votes: map<string, Ballot>)
    ensures votes.Keys == set v | v in voters
    ensures forall v :: v in votes ==> votes[v] == None
  {
    map v | v in voters :: None
  }

  class Voting {
    var votes: map<string, Ballot>

    /** Every listed voter starts with no vote. */
    constructor (voters: seq<string>)
      ensures votes == NoVotes(voters)
    {
      votes := NoVotes(voters);
    }

    /** Records the voter's ballot, replacing an earlier one; a voter not yet listed is added. */
    method Vote(voter: string, candidate: Ballot)
      modifies this
      ensures votes == old(votes)[voter := candidate]
    {
      votes := votes[voter := candidate];
    }

    /**
     * get_winner: counts the ballots one voter at a time, in whatever order the
     * voters come, and stops at the first ballot to reach the threshold. The
     * result is the unique majority outcome, so every order gives the same answer.
     */
    method GetWinner() returns (w: Ballot)
      ensures w == MajorityOf(votes)
    {
      var majority := |votes| / 2 + 1;
      var candidateVotes: map<Ballot, nat> := map[];
      var seen: set<string> := {};
      var remaining := votes.Keys;
      while remaining != {}
        invariant seen + remaining == votes.Keys && seen !! remaining
        invariant forall b :: Tally(votes, seen, b) == (if b in candidateVotes then candidateVotes[b] else 0)
        invariant forall b :: Tally(votes, seen, b) < majority
        decreases remaining
      {
        var voter :| voter in remaining;
        var candidate := votes[voter];
        var count := (if candidate in candidateVotes then candidateVotes[candidate] else 0) + 1;
        CountOneMore(votes, seen, voter, candidateVotes);
        candidateVotes := candidateVotes[candidate := count];
        seen := seen + {voter};
        remaining := remaining - {voter};
        if count >= majority {
          TallyBelowCount(votes, seen, candidate);
          MajorityReached(votes, candidate);
          return candidate;
        }
      }
      assert seen == votes.Keys;
      assert Tally(votes, seen, MajorityOf(votes)) < majority;
      return None;
    }
  }
}
