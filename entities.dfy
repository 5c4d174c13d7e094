/** The records the registration and voting rules operate on. */
module Entities {
  import opened Text

  /** A registered voter. Identity and name never change; `hasVoted` is
      set in place when the voter's ballot is recorded. */
  class Voter {
    const voterId: string
    const name: string
    var hasVoted: bool

    constructor (voterId: string, name: string)
      ensures this.voterId == voterId && this.name == name
      ensures !hasVoted
    {
      this.voterId := voterId;
      this.name := name;
      hasVoted := false;
    }

    /** `str(voter)`: identity and name, then the voting status as a Python bool. */
    function ToString(): (s: string)
      reads this
      ensures var head := "Voter ID: " + voterId + ", Name: " + name + ", Has Voted: ";
              |head| < |s| && s[..|head|] == head
              && (s[|head|..] == "True" <==> hasVoted)
              && (s[|head|..] == "False" <==> !hasVoted)
    {
      "Voter ID: " + voterId + ", Name: " + name + ", Has Voted: " + BoolToString(hasVoted)
    }
  }

  /** A registered candidate; nothing about it changes after registration. */
  datatype Candidate = Candidate(candidateId: string, name: string) {
    /** `str(candidate)`. */
    function ToString(): (s: string)
      ensures var head := "Candidate ID: " + candidateId + ", Name: ";
              |head| <= |s| && s[..|head|] == head && s[|head|..] == name
    {
      "Candidate ID: " + candidateId + ", Name: " + name
    }
  }
}
