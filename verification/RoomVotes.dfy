/** Votes for queued videos and votes to skip: each client counts once, and when its votes end. */
module RoomVotes {
  import opened Options
  import opened VideoQueues
  import opened RoomState

  function Voters(votes: map<string, set<ClientId>>, key: string): set<ClientId> {
    if key in votes then votes[key] else {}
  }

  /** A vote adds or withdraws exactly one client for exactly the videos with that key. */
  lemma VoteMeaning(r: Room, who: ClientId, video: VideoId, add: bool, key: string)
    ensures var after := Voters(Voted(r, who, video, add).votes, key);
            after == if key != VoteKey(video) then Voters(r.votes, key)
                     else if add then Voters(r.votes, key) + {who}
                     else Voters(r.votes, key) - {who}
  {
  }

  /** So a client counts once however often it votes, and the count that orders the queue changes
      by one exactly when the vote is new or withdrawn. */
  lemma VoteCountsOnce(r: Room, who: ClientId, item: QueueItem, add: bool)
    ensures var v := Voted(r, who, item.video, add);
            var before := Voters(r.votes, VoteKey(item.video));
            VotesFor(v.votes)(item) - VotesFor(r.votes)(item) ==
            if add && who !in before then 1 else if !add && who in before then -1 else 0
  {
    var key := VoteKey(item.video);
    var before := Voters(r.votes, key);
    var v := Voted(r, who, item.video, add);
    VoteMeaning(r, who, item.video, add, key);
    assert Voters(v.votes, key) == if add then before + {who} else before - {who};
    if who in before {
      assert before == (before - {who}) + {who};
    }
  }

  lemma VotingAgainChangesNothing(r: Room, who: ClientId, video: VideoId, add: bool)
    ensures var v := Voted(r, who, video, add);
            Voted(v, who, video, add).votes == v.votes
  {
    var key := VoteKey(video);
    var v := Voted(r, who, video, add).votes;
    if key in v {
      var again := if add then v[key] + {who} else v[key] - {who};
      assert again == v[key];
      assert v[key := again] == v;
    }
  }

  /** A client that leaves has no votes left if and only if the room is in vote mode, or it had
      none: in any other mode the votes of clients that are gone keep counting. */
  lemma LeavingWithdrawsVotes(r: Room, who: ClientId)
    ensures (forall key :: who !in Voters(Left(r, who).votes, key)) <==>
            r.mode.Vote? || forall key :: who !in Voters(r.votes, key)
    ensures forall key, other :: other != who ==>
              (other in Voters(Left(r, who).votes, key) <==> other in Voters(r.votes, key))
  {
    var after := Left(r, who).votes;
    if r.mode.Vote? {
      forall key
        ensures Voters(after, key) == Voters(r.votes, key) - {who}
      {
      }
    } else {
      assert after == r.votes;
    }
  }

  // ---------------------------------------------------------------- votes to skip

  /** A skip goes through exactly when skipping is not voted on, or when at least half of the
      eligible clients want it after this one changed its mind. */
  lemma SkipNeedsHalf(r: Room, who: Option<ClientId>, voters: nat)
    requires r.current.Some?
    ensures SkipPasses(r, who, voters) <==>
            !r.enableVoteSkip || 2 * |SkipVoteToggled(r, who).votesToSkip| >= voters
  {
  }

  /** A client that left does not count any more when another one asks for a skip: half of the
      eligible clients must want it without the one that left. Leaving itself never skips, even
      when the votes of those who stay suffice by then. */
  lemma LeavingLowersSkipVotes(r: Room, who: ClientId, other: ClientId, voters: nat)
    requires r.current.Some? && r.enableVoteSkip && who != other
    ensures SkipPasses(Left(r, who), Some(other), voters) <==>
            2 * (|SkipVoteToggled(r, Some(other)).votesToSkip| - if who in r.votesToSkip then 1 else 0) >= voters
    ensures Left(r, who).current == r.current && Left(r, who).queue == r.queue
  {
    Toggled(r, who, other);
    WithoutOne(SkipVoteToggled(r, Some(other)).votesToSkip, who);
  }

  lemma Toggled(r: Room, who: ClientId, other: ClientId)
    requires r.enableVoteSkip && who != other
    ensures SkipVoteToggled(Left(r, who), Some(other)).votesToSkip ==
            SkipVoteToggled(r, Some(other)).votesToSkip - {who}
    ensures who in SkipVoteToggled(r, Some(other)).votesToSkip <==> who in r.votesToSkip
    ensures Left(r, who).current == r.current && Left(r, who).queue == r.queue && Left(r, who).enableVoteSkip
  {
    assert Left(r, who).votesToSkip == r.votesToSkip - {who};
    assert r.votesToSkip - {who} - {other} == r.votesToSkip - {other} - {who};
    assert r.votesToSkip - {who} + {other} == r.votesToSkip + {other} - {who};
  }

  lemma WithoutOne(all: set<ClientId>, who: ClientId)
    ensures |all - {who}| == |all| - if who in all then 1 else 0
  {
    if who in all {
      assert all == (all - {who}) + {who};
    } else {
      assert all - {who} == all;
    }
  }

  /** After a skip that was voted on, the votes start over; a vote that did not suffice changes
      nothing but the votes, and the same client takes it back by asking again. */
  lemma SkipVotesStartOver(r: Room, who: Option<ClientId>, voters: nat, now: real)
    requires r.current.Some? && r.enableVoteSkip
    ensures SkipPasses(r, who, voters) ==> Skipped(r, who, voters, now).votesToSkip == {}
    ensures !SkipPasses(r, who, voters) ==> Skipped(r, who, voters, now) == SkipVoteToggled(r, who)
    ensures SkipVoteToggled(SkipVoteToggled(r, who), who).votesToSkip == r.votesToSkip
  {
    var v := SkipVoteToggled(r, who);
    DequeuedClears(v, now);
  }

  lemma DequeuedClears(r: Room, now: real)
    requires r.enableVoteSkip
    ensures Dequeued(r, now).votesToSkip == {}
  {
  }
}
