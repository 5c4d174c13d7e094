/** The registration and vote-casting rules on top of the ledger.

    The application's state is the ledger, the voter table and the candidate
    table that its entry point creates; the three commands that change that
    state are methods of `Election`. Console input arrives as already
    stripped string parameters; each printed error message is returned as a
    rejection reason beside the command's boolean result. */
module Voting {
  import opened Ledger
  import opened Entities

  datatype Option<+T> = None | Some(value: T)

  /** The printed errors of `add_candidate` and `add_voter`, in the order checked. */
  datatype RegistrationError = EmptyId | DuplicateId | EmptyName

  /** The printed errors of `cast_vote`, in the order checked. */
  datatype VoteError = UnknownVoter | AlreadyVoted | NoCandidates | UnknownCandidate

  /** The guard shared by both registration commands: id not empty, id not
      taken, name not empty, checked in that order. */
  function CheckRegistration(ids: set<string>, id: string, name: string): (r: Option<RegistrationError>)
    ensures r.None? <==> id != "" && id !in ids && name != ""
    ensures r == Some(EmptyId) <==> id == ""
    ensures r == Some(DuplicateId) <==> id != "" && id in ids
  {
    if id == "" then Some(EmptyId)
    else if id in ids then Some(DuplicateId)
    else if name == "" then Some(EmptyName)
    else None
  }

  /** The guard of `cast_vote` over the voters' flags and the candidate ids.
      The check for an empty candidate table never changes whether a vote
      is accepted, only which error is reported. */
  function CheckVote(voted: map<string, bool>, candidateIds: set<string>,
                     voterId: string, candidateId: string): (r: Option<VoteError>)
    ensures r.None? <==> voterId in voted && !voted[voterId] && candidateId in candidateIds
    ensures r == Some(UnknownVoter) <==> voterId !in voted
    ensures r == Some(AlreadyVoted) <==> voterId in voted && voted[voterId]
    ensures r == Some(NoCandidates) <==> voterId in voted && !voted[voterId] && candidateIds == {}
  {
    if voterId !in voted then Some(UnknownVoter)
    else if voted[voterId] then Some(AlreadyVoted)
    else if candidateIds == {} then Some(NoCandidates)
    else if candidateId !in candidateIds then Some(UnknownCandidate)
    else None
  }

  /** The voter ids carried by the non-genesis blocks. */
  ghost function BallotVoters(chain: seq<Block>): set<string> {
    set i | 1 <= i < |chain| :: chain[i].voterId
  }

  /** No voter id occurs in two non-genesis blocks. */
  predicate DistinctBallots(chain: seq<Block>) {
    forall i, j :: 1 <= i < j < |chain| ==> chain[i].voterId != chain[j].voterId
  }

  lemma BallotVotersAppend(chain: seq<Block>, b: Block)
    requires |chain| >= 1
    ensures BallotVoters(chain + [b]) == BallotVoters(chain) + {b.voterId}
  {
    var next := chain + [b];
    assert next[|chain|] == b;
    forall v | v in BallotVoters(chain)
      ensures v in BallotVoters(next)
    {
      var i :| 1 <= i < |chain| && chain[i].voterId == v;
      assert next[i] == chain[i];
    }
  }

  /** With distinct ballots there are exactly as many ballot voters as
      non-genesis blocks. */
  lemma {:induction false} BallotCount(chain: seq<Block>)
    requires |chain| >= 1 && DistinctBallots(chain)
    ensures |BallotVoters(chain)| == |chain| - 1
  {
    if |chain| > 1 {
      var prefix := chain[..|chain| - 1];
      var last := chain[|chain| - 1];
      assert chain == prefix + [last];
      assert DistinctBallots(prefix);
      BallotCount(prefix);
      BallotVotersAppend(prefix, last);
      assert last.voterId !in BallotVoters(prefix);
    } else {
      assert BallotVoters(chain) == {};
    }
  }

  /** How the ballots on the ledger relate to the registration tables: each
      ballot names a registered voter and a registered candidate, no voter has
      two ballots, and a voter is marked as having voted exactly when a
      ballot carries their id. */
  ghost predicate Consistent(chain: seq<Block>, voted: map<string, bool>, candidateIds: set<string>) {
    && (forall i :: 1 <= i < |chain| ==> chain[i].voterId in voted && chain[i].candidateId in candidateIds)
    && DistinctBallots(chain)
    && (forall k :: k in voted ==> (voted[k] <==> k in BallotVoters(chain)))
  }

  /** Recording the ballot of a registered voter who has not voted, for a
      registered candidate, and marking the voter, keeps the tables and the
      ledger consistent. */
  lemma VoteKeepsConsistent(chain: seq<Block>, voted: map<string, bool>, candidateIds: set<string>, b: Block)
    requires |chain| >= 1 && Consistent(chain, voted, candidateIds)
    requires b.voterId in voted && !voted[b.voterId] && b.candidateId in candidateIds
    ensures Consistent(chain + [b], voted[b.voterId := true], candidateIds)
  {
    var next := chain + [b];
    BallotVotersAppend(chain, b);
    assert b.voterId !in BallotVoters(chain);
    forall i, j | 1 <= i < j < |next|
      ensures next[i].voterId != next[j].voterId
    {
      if j == |chain| {
        assert next[i].voterId in BallotVoters(chain);
      }
    }
  }

  /** Registering a new voter, not yet voted, keeps them consistent. */
  lemma RegistrationKeepsConsistent(chain: seq<Block>, voted: map<string, bool>, candidateIds: set<string>,
                                    voterId: string)
    requires Consistent(chain, voted, candidateIds) && voterId !in voted
    ensures Consistent(chain, voted[voterId := false], candidateIds)
  {
  }

  /** The state created by the application's entry point: the ledger and
      the two registration tables. */
  class Election {
    const ledger: Blockchain
    var voters: map<string, Voter>
    var candidates: map<string, Candidate>

    ghost predicate Valid()
      reads this, ledger, voters.Values
    {
      && ledger.Valid()
      && (forall k :: k in voters ==> k != "" && voters[k].voterId == k && voters[k].name != "")
      && (forall k :: k in candidates ==>
            k != "" && candidates[k].candidateId == k && candidates[k].name != "")
      && Consistent(ledger.chain, Flags(), candidates.Keys)
    }

    /** Each registered voter's `hasVoted` flag. */
    function Flags(): map<string, bool>
      reads this, voters.Values
    {
      map k | k in voters :: voters[k].hasVoted
    }

    ghost function VotedVoters(): set<string>
      reads this, voters.Values
    {
      set k | k in voters && voters[k].hasVoted
    }

    constructor (hash: HashFunction, genesisTimestamp: string)
      ensures Valid()
      ensures fresh(ledger) && ledger.hash == hash
      ensures ledger.chain == [Genesis(genesisTimestamp, hash)]
      ensures voters == map[] && candidates == map[]
    {
      ledger := new Blockchain(hash, genesisTimestamp);
      voters := map[];
      candidates := map[];
    }

    /** `add_candidate`. */
    method AddCandidate(candidateId: string, name: string) returns (ok: bool, error: Option<RegistrationError>)
      requires Valid()
      modifies this
      ensures Valid()
      ensures error == CheckRegistration(old(candidates).Keys, candidateId, name)
      ensures ok <==> error.None?
      ensures candidates == if ok then old(candidates)[candidateId := Candidate(candidateId, name)]
                            else old(candidates)
      ensures voters == old(voters) && ledger.chain == old(ledger.chain)
    {
      if candidateId == "" {
        return false, Some(EmptyId);
      }
      if candidateId in candidates {
        return false, Some(DuplicateId);
      }
      if name == "" {
        return false, Some(EmptyName);
      }
      candidates := candidates[candidateId := Candidate(candidateId, name)];
      return true, None;
    }

    /** `add_voter`: a new voter starts without a vote. */
    method AddVoter(voterId: string, name: string) returns (ok: bool, error: Option<RegistrationError>)
      requires Valid()
      modifies this
      ensures Valid()
      ensures error == CheckRegistration(old(voters).Keys, voterId, name)
      ensures ok <==> error.None?
      ensures !ok ==> voters == old(voters)
      ensures ok ==> && voterId in voters && fresh(voters[voterId])
                     && voters[voterId].voterId == voterId && voters[voterId].name == name
                     && voters == old(voters)[voterId := voters[voterId]]
      ensures Flags() == if ok then old(Flags())[voterId := false] else old(Flags())
      ensures candidates == old(candidates) && ledger.chain == old(ledger.chain)
    {
      if voterId == "" {
        return false, Some(EmptyId);
      }
      if voterId in voters {
        return false, Some(DuplicateId);
      }
      if name == "" {
        return false, Some(EmptyName);
      }
      ghost var flags := Flags();
      RegistrationKeepsConsistent(ledger.chain, flags, candidates.Keys, voterId);
      var voter := new Voter(voterId, name);
      voters := voters[voterId := voter];
      assert Flags() == flags[voterId := false];
      return true, None;
    }

    /** `cast_vote`: record the vote on the ledger, then mark the voter. */
    method CastVote(voterId: string, candidateId: string, timestamp: string)
      returns (ok: bool, error: Option<VoteError>)
      requires Valid()
      modifies ledger, voters.Values
      ensures Valid()
      ensures error == CheckVote(old(Flags()), candidates.Keys, voterId, candidateId)
      ensures ok <==> error.None?
      ensures ledger.chain == if ok then old(ledger.chain) + [NewBlock(|old(ledger.chain)|, voterId,
                                         candidateId, timestamp, old(ledger.chain[|ledger.chain| - 1].hash),
                                         ledger.hash)]
                              else old(ledger.chain)
      ensures Flags() == if ok then old(Flags())[voterId := true] else old(Flags())
    {
      if voterId !in voters {
        return false, Some(UnknownVoter);
      }
      var voter := voters[voterId];
      if voter.hasVoted {
        return false, Some(AlreadyVoted);
      }
      if candidates == map[] {
        assert candidates.Keys == {};
        return false, Some(NoCandidates);
      }
      if candidateId !in candidates {
        return false, Some(UnknownCandidate);
      }
      ghost var flags := Flags();
      var b := ledger.AddBlock(voterId, candidateId, timestamp);
      VoteKeepsConsistent(old(ledger.chain), flags, candidates.Keys, b);
      voter.hasVoted := true;
      assert Flags() == flags[voterId := true];
      return true, None;
    }

    /** The tables and the ledger agree: every ballot comes from a registered
        voter who is marked as having voted and names a registered candidate,
        no voter has two ballots, and the voters marked as having voted are
        exactly as many as the ballots. */
    lemma BallotsMatchRegistry()
      requires Valid()
      ensures forall i :: 1 <= i < |ledger.chain| ==>
                && ledger.chain[i].voterId in voters
                && voters[ledger.chain[i].voterId].hasVoted
                && ledger.chain[i].candidateId in candidates
      ensures DistinctBallots(ledger.chain)
      ensures |VotedVoters()| == |ledger.chain| - 1
    {
      assert VotedVoters() == BallotVoters(ledger.chain);
      BallotCount(ledger.chain);
    }
  }
}
