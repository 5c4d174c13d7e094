/** The hash-linked vote ledger: blocks, the chain that owns them, and the
    validation scan that recomputes hashes and checks linkage.

    SHA-256 is a foreign call here: every operation takes the hash function
    `H` as a parameter (the class keeps it as a constant), and the
    tamper-detection lemmas state collision freedom of `H` as a precondition. */
module Ledger {
  import opened Text

  type HashFunction = string -> string

  /** A block; `hash` is the digest cached at construction, never recomputed. */
  datatype Block = Block(
    index: int,
    voterId: string,
    candidateId: string,
    timestamp: string,
    previousHash: string,
    hash: string)

  const GENESIS_ID := "GENESIS"
  const GENESIS_PREVIOUS_HASH := "0"

  const EMPTY_CHAIN_MESSAGE := "Blockchain is empty"
  const INVALID_GENESIS_MESSAGE := "Invalid genesis block"
  const VALID_CHAIN_MESSAGE := "Blockchain is valid"

  function InvalidHashMessage(index: int): string {
    "Block " + IntToString(index) + " has invalid hash"
  }

  function InvalidPreviousHashMessage(index: int): string {
    "Block " + IntToString(index) + " has invalid previous hash"
  }

  /** The text that is hashed: the five fields concatenated in this order,
      without separators. The cached `hash` field is not part of it. */
  function BlockString(b: Block): string {
    IntToString(b.index) + b.voterId + b.candidateId + b.timestamp + b.previousHash
  }

  /** `Block.calculate_hash`: the digest depends on the block only through its
      hashed text, and under a collision-free hash it identifies that text. */
  function CalculateHash(b: Block, H: HashFunction): (r: string)
    ensures forall c :: BlockString(c) == BlockString(b) ==> r == H(BlockString(c))
    ensures CollisionFree(H) ==> forall c :: H(BlockString(c)) == r ==> BlockString(c) == BlockString(b)
  {
    H(BlockString(b))
  }

  /** The cached hash agrees with the one recomputed from the stored fields. */
  predicate HashIntact(b: Block, H: HashFunction) {
    b.hash == CalculateHash(b, H)
  }

  ghost predicate CollisionFree(H: HashFunction) {
    forall x, y :: H(x) == H(y) ==> x == y
  }

  /** `Block.__init__`: store the fields, then cache the hash of those fields. */
  function NewBlock(index: int, voterId: string, candidateId: string, timestamp: string,
                    previousHash: string, H: HashFunction): (b: Block)
    ensures b.index == index && b.voterId == voterId && b.candidateId == candidateId
    ensures b.timestamp == timestamp && b.previousHash == previousHash
    ensures HashIntact(b, H)
  {
    var fields := Block(index, voterId, candidateId, timestamp, previousHash, "");
    fields.(hash := CalculateHash(fields, H))
  }

  /** `create_genesis_block`. */
  function Genesis(timestamp: string, H: HashFunction): (b: Block)
    ensures b.index == 0 && b.voterId == GENESIS_ID && b.candidateId == GENESIS_ID
    ensures b.timestamp == timestamp && b.previousHash == GENESIS_PREVIOUS_HASH
    ensures HashIntact(b, H)
  {
    NewBlock(0, GENESIS_ID, GENESIS_ID, timestamp, GENESIS_PREVIOUS_HASH, H)
  }

  // ---------------------------------------------------------------------
  // What validation checks

  /** The only genesis checks: its hash is never recomputed. */
  predicate GenesisSound(b: Block) {
    b.index == 0 && b.previousHash == GENESIS_PREVIOUS_HASH
  }

  predicate Linked(chain: seq<Block>, i: int)
    requires 1 <= i < |chain|
  {
    chain[i].previousHash == chain[i - 1].hash
  }

  predicate BlockSound(chain: seq<Block>, i: int, H: HashFunction)
    requires 1 <= i < |chain|
  {
    HashIntact(chain[i], H) && Linked(chain, i)
  }

  predicate ChainSound(chain: seq<Block>, H: HashFunction) {
    && |chain| > 0
    && GenesisSound(chain[0])
    && forall i :: 1 <= i < |chain| ==> BlockSound(chain, i, H)
  }

  /** Block k is the first non-genesis block that fails a check. */
  predicate IsFirstDefect(chain: seq<Block>, k: int, H: HashFunction) {
    && 1 <= k < |chain|
    && !BlockSound(chain, k, H)
    && forall j :: 1 <= j < k ==> BlockSound(chain, j, H)
  }

  /** The hash check comes first; only a block whose hash is intact can
      be reported for its previous hash. */
  function DefectMessage(b: Block, H: HashFunction): string {
    if !HashIntact(b, H) then InvalidHashMessage(b.index) else InvalidPreviousHashMessage(b.index)
  }

  /** The ledger invariant kept by the constructor and `AddBlock`. */
  predicate WellFormed(chain: seq<Block>, H: HashFunction) {
    && |chain| > 0
    && chain[0].voterId == GENESIS_ID && chain[0].candidateId == GENESIS_ID
    && chain[0].previousHash == GENESIS_PREVIOUS_HASH
    && (forall i :: 0 <= i < |chain| ==> chain[i].index == i && HashIntact(chain[i], H))
    && (forall i :: 1 <= i < |chain| ==> Linked(chain, i))
  }

  // ---------------------------------------------------------------------
  // Validation as a function of the chain

  /** The scan of blocks i, i+1, ... as the loop of `validate_chain` does it. */
  function Scan(chain: seq<Block>, i: int, H: HashFunction): (r: (bool, string))
    requires 1 <= i <= |chain|
    ensures r.0 <==> forall j :: i <= j < |chain| ==> BlockSound(chain, j, H)
    ensures r.0 ==> r.1 == VALID_CHAIN_MESSAGE
    ensures forall k :: i <= k < |chain| && !BlockSound(chain, k, H)
                        && (forall j :: i <= j < k ==> BlockSound(chain, j, H))
                        ==> r == (false, DefectMessage(chain[k], H))
    decreases |chain| - i
  {
    if i == |chain| then (true, VALID_CHAIN_MESSAGE)
    else if !HashIntact(chain[i], H) then
      assert !BlockSound(chain, i, H);
      (false, InvalidHashMessage(chain[i].index))
    else if !Linked(chain, i) then
      assert !BlockSound(chain, i, H);
      (false, InvalidPreviousHashMessage(chain[i].index))
    else Scan(chain, i + 1, H)
  }

  /** `validate_chain` on a snapshot of the chain: the verdict is soundness,
      and the diagnostic names the first failing check. */
  function Validate(chain: seq<Block>, H: HashFunction): (r: (bool, string))
    ensures r.0 <==> ChainSound(chain, H)
    ensures |chain| == 0 ==> r == (false, EMPTY_CHAIN_MESSAGE)
    ensures |chain| > 0 && !GenesisSound(chain[0]) ==> r == (false, INVALID_GENESIS_MESSAGE)
    ensures ChainSound(chain, H) ==> r == (true, VALID_CHAIN_MESSAGE)
    ensures forall k :: IsFirstDefect(chain, k, H) && GenesisSound(chain[0])
                        ==> r == (false, DefectMessage(chain[k], H))
  {
    if |chain| == 0 then (false, EMPTY_CHAIN_MESSAGE)
    else if !GenesisSound(chain[0]) then (false, INVALID_GENESIS_MESSAGE)
    else Scan(chain, 1, H)
  }

  // ---------------------------------------------------------------------
  // The mutable ledger

  class Blockchain {
    const hash: HashFunction
    var chain: seq<Block>

    predicate Valid()
      reads this
    {
      WellFormed(chain, hash)
    }

    /** `Blockchain.__init__`: a chain holding only the genesis block. */
    constructor (hash: HashFunction, genesisTimestamp: string)
      ensures this.hash == hash
      ensures chain == [Genesis(genesisTimestamp, hash)]
      ensures Valid()
    {
      this.hash := hash;
      chain := [Genesis(genesisTimestamp, hash)];
    }

    /** `add_block`: link a new block to the current tail and append it. */
    method AddBlock(voterId: string, candidateId: string, timestamp: string) returns (b: Block)
      requires |chain| > 0
      modifies this
      ensures b == NewBlock(|old(chain)|, voterId, candidateId, timestamp,
                            old(chain)[|old(chain)| - 1].hash, hash)
      ensures chain == old(chain) + [b]
      ensures old(Valid()) ==> Valid()
    {
      var previous := chain[|chain| - 1];
      b := NewBlock(|chain|, voterId, candidateId, timestamp, previous.hash, hash);
      if Valid() {
        AppendKeepsWellFormed(chain, voterId, candidateId, timestamp, hash);
      }
      chain := chain + [b];
    }

    /** `validate_chain`: the linear scan with early returns. It has no
        modifies clause, so it leaves the chain and every block unchanged. */
    method ValidateChain() returns (valid: bool, message: string)
      ensures (valid, message) == Validate(chain, hash)
    {
      if |chain| == 0 {
        return false, EMPTY_CHAIN_MESSAGE;
      }
      var genesis := chain[0];
      if genesis.index != 0 || genesis.previousHash != GENESIS_PREVIOUS_HASH {
        return false, INVALID_GENESIS_MESSAGE;
      }
      for i := 1 to |chain|
        invariant forall j :: 1 <= j < i ==> BlockSound(chain, j, hash)
      {
        var current := chain[i];
        var previous := chain[i - 1];
        if current.hash != CalculateHash(current, hash) {
          assert IsFirstDefect(chain, i, hash);
          return false, InvalidHashMessage(current.index);
        }
        if current.previousHash != previous.hash {
          assert IsFirstDefect(chain, i, hash);
          return false, InvalidPreviousHashMessage(current.index);
        }
      }
      return true, VALID_CHAIN_MESSAGE;
    }
  }

  // ---------------------------------------------------------------------
  // Properties

  /** Appending as `add_block` does keeps the index and linkage invariants. */
  lemma AppendKeepsWellFormed(chain: seq<Block>, voterId: string, candidateId: string,
                              timestamp: string, H: HashFunction)
    requires WellFormed(chain, H)
    ensures WellFormed(chain + [NewBlock(|chain|, voterId, candidateId, timestamp,
                                         chain[|chain| - 1].hash, H)], H)
  {
    var b := NewBlock(|chain|, voterId, candidateId, timestamp, chain[|chain| - 1].hash, H);
    var next := chain + [b];
    forall i | 1 <= i < |next|
      ensures Linked(next, i)
    {
      if i < |chain| {
        assert Linked(chain, i);
      }
    }
  }

  /** A chain built by the constructor and `add_block` alone always validates. */
  lemma WellFormedValidates(chain: seq<Block>, H: HashFunction)
    requires WellFormed(chain, H)
    ensures Validate(chain, H) == (true, VALID_CHAIN_MESSAGE)
  {
  }

  /** Editing a non-genesis block of a sound chain so that its hashed text
      changes, while keeping the cached hash, is reported at that block. */
  lemma HashTamperDetected(chain: seq<Block>, i: int, b: Block, H: HashFunction)
    requires CollisionFree(H)
    requires ChainSound(chain, H)
    requires 1 <= i < |chain|
    requires b.hash == chain[i].hash && BlockString(b) != BlockString(chain[i])
    ensures Validate(chain[i := b], H) == (false, InvalidHashMessage(b.index))
  {
    var tampered := chain[i := b];
    assert !HashIntact(b, H) by {
      assert HashIntact(chain[i], H) by { assert BlockSound(chain, i, H); }
    }
    forall j | 1 <= j < i
      ensures BlockSound(tampered, j, H)
    {
      assert BlockSound(chain, j, H);
    }
    assert IsFirstDefect(tampered, i, H);
  }

  /** Where each field sits in the hashed text: `str(index)`, voter id,
      candidate id, timestamp and previous hash, back to back. */
  lemma BlockStringLayout(b: Block)
    ensures var n := IntToString(b.index);
            var v := |n| + |b.voterId|;
            var c := v + |b.candidateId|;
            var t := c + |b.timestamp|;
            var s := BlockString(b);
            && |s| == t + |b.previousHash|
            && s[..|n|] == n && s[|n|..v] == b.voterId && s[v..c] == b.candidateId
            && s[c..t] == b.timestamp && s[t..] == b.previousHash
  {
  }

  /** `b'` differs from `b` in exactly one hashed field and keeps the cached hash. */
  predicate SingleFieldEdit(b: Block, b': Block) {
    && b' != b
    && (|| b' == b.(index := b'.index)
        || b' == b.(voterId := b'.voterId)
        || b' == b.(candidateId := b'.candidateId)
        || b' == b.(timestamp := b'.timestamp)
        || b' == b.(previousHash := b'.previousHash))
  }

  /** Although fields are joined without separators, changing a single one
      always changes the hashed text. */
  lemma SingleFieldEditChangesString(b: Block, b': Block)
    requires SingleFieldEdit(b, b')
    ensures BlockString(b') != BlockString(b)
  {
    var n, n' := IntToString(b.index), IntToString(b'.index);
    var v, c, t, p := b.voterId, b.candidateId, b.timestamp, b.previousHash;
    if BlockString(b') == BlockString(b) {
      if b' == b.(index := b'.index) {
        var rest := v + c + t + p;
        assert BlockString(b) == n + rest;
        assert BlockString(b') == n' + rest;
        CancelSuffix(n', n, rest);
        IntToStringInjective(b'.index, b.index);
      } else if b' == b.(voterId := b'.voterId) {
        assert BlockString(b) == n + v + (c + t + p);
        assert BlockString(b') == n + b'.voterId + (c + t + p);
        CancelMiddle(n, b'.voterId, v, c + t + p);
      } else if b' == b.(candidateId := b'.candidateId) {
        assert BlockString(b) == (n + v) + c + (t + p);
        assert BlockString(b') == (n + v) + b'.candidateId + (t + p);
        CancelMiddle(n + v, b'.candidateId, c, t + p);
      } else if b' == b.(timestamp := b'.timestamp) {
        CancelMiddle(n + v + c, b'.timestamp, t, p);
      } else {
        assert BlockString(b) == n + v + c + t + p + "";
        assert BlockString(b') == n + v + c + t + b'.previousHash + "";
        CancelMiddle(n + v + c + t, b'.previousHash, p, "");
      }
    }
  }

  /** Changing any single field of a non-genesis block (for instance its
      candidate) without recomputing its hash is reported as an invalid hash. */
  lemma FieldTamperDetected(chain: seq<Block>, i: int, b: Block, H: HashFunction)
    requires CollisionFree(H)
    requires ChainSound(chain, H)
    requires 1 <= i < |chain|
    requires SingleFieldEdit(chain[i], b)
    ensures Validate(chain[i := b], H) == (false, InvalidHashMessage(b.index))
  {
    SingleFieldEditChangesString(chain[i], b);
    HashTamperDetected(chain, i, b, H);
  }

  /** The encoding has no separators: moving the last character of the voter
      id to the front of the candidate id leaves the hashed text, and so the
      verdict, unchanged. */
  lemma BoundaryShiftUndetected(chain: seq<Block>, i: int, H: HashFunction)
    requires ChainSound(chain, H)
    requires 1 <= i < |chain| && |chain[i].voterId| > 0
    ensures var v := chain[i].voterId;
            var b := chain[i].(voterId := v[..|v| - 1], candidateId := [v[|v| - 1]] + chain[i].candidateId);
            b != chain[i] && Validate(chain[i := b], H) == (true, VALID_CHAIN_MESSAGE)
  {
    var v := chain[i].voterId;
    var b := chain[i].(voterId := v[..|v| - 1], candidateId := [v[|v| - 1]] + chain[i].candidateId);
    assert |b.voterId| != |chain[i].voterId|;
    assert b.voterId + b.candidateId == chain[i].voterId + chain[i].candidateId by {
      assert v == v[..|v| - 1] + [v[|v| - 1]];
    }
    var n := IntToString(b.index);
    assert BlockString(b) == BlockString(chain[i]) by {
      var tail := b.timestamp + b.previousHash;
      assert BlockString(b) == n + (b.voterId + b.candidateId) + tail;
      assert BlockString(chain[i]) == n + (chain[i].voterId + chain[i].candidateId) + tail;
    }
    var tampered := chain[i := b];
    forall j | 1 <= j < |tampered|
      ensures BlockSound(tampered, j, H)
    {
      assert BlockSound(chain, j, H);
    }
  }

  /** Replacing a non-genesis block by one whose own hash is intact but whose
      previous hash is wrong (a substituted block) is reported as an invalid
      previous hash. */
  lemma LinkTamperDetected(chain: seq<Block>, i: int, b: Block, H: HashFunction)
    requires ChainSound(chain, H)
    requires 1 <= i < |chain|
    requires HashIntact(b, H) && b.previousHash != chain[i - 1].hash
    ensures Validate(chain[i := b], H) == (false, InvalidPreviousHashMessage(b.index))
  {
    var tampered := chain[i := b];
    forall j | 1 <= j < i
      ensures BlockSound(tampered, j, H)
    {
      assert BlockSound(chain, j, H);
    }
    assert IsFirstDefect(tampered, i, H);
  }

  lemma {:induction false} ScanIgnoresGenesisContent(chain: seq<Block>, g: Block, i: int, H: HashFunction)
    requires 1 <= i <= |chain|
    requires g.hash == chain[0].hash
    ensures Scan(chain[0 := g], i, H) == Scan(chain, i, H)
    decreases |chain| - i
  {
    if i < |chain| {
      ScanIgnoresGenesisContent(chain, g, i + 1, H);
    }
  }

  /** The genesis hash is never recomputed: the verdict does not depend on
      the genesis voter id, candidate id or timestamp. */
  lemma GenesisContentIgnored(chain: seq<Block>, voterId: string, candidateId: string,
                              timestamp: string, H: HashFunction)
    requires |chain| > 0
    ensures Validate(chain[0 := chain[0].(voterId := voterId, candidateId := candidateId,
                                           timestamp := timestamp)], H)
            == Validate(chain, H)
  {
    var g := chain[0].(voterId := voterId, candidateId := candidateId, timestamp := timestamp);
    if GenesisSound(chain[0]) {
      ScanIgnoresGenesisContent(chain, g, 1, H);
    }
  }

  /** Changing block 1 of a well-formed chain from candidate "c1" to "c9"
      is reported as "Block 1 has invalid hash". */
  lemma CandidateTamperMessage(chain: seq<Block>, H: HashFunction)
    requires CollisionFree(H)
    requires WellFormed(chain, H) && |chain| > 1 && chain[1].candidateId == "c1"
    ensures Validate(chain[1 := chain[1].(candidateId := "c9")], H) == (false, "Block 1 has invalid hash")
  {
    var tampered := chain[1].(candidateId := "c9");
    assert SingleFieldEdit(chain[1], tampered);
    WellFormedValidates(chain, H);
    FieldTamperDetected(chain, 1, tampered, H);
    BlockOneHashMessage();
  }

  lemma BlockOneHashMessage()
    ensures InvalidHashMessage(1) == "Block 1 has invalid hash"
  {
    assert IntToString(1) == [DigitChar(1)] == "1";
  }

  /** Two votes recorded through a new `Blockchain` validate; after block 1's
      candidate is changed in place to "c9", validation reports
      "Block 1 has invalid hash". */
  method TwoVoteScenario(H: HashFunction, t0: string, t1: string, t2: string)
    returns (valid: bool, message: string, validAfter: bool, messageAfter: string)
    requires CollisionFree(H)
    ensures valid && message == VALID_CHAIN_MESSAGE
    ensures !validAfter && messageAfter == "Block 1 has invalid hash"
  {
    var ledger := new Blockchain(H, t0);
    var b1 := ledger.AddBlock("v1", "c1", t1);
    var b2 := ledger.AddBlock("v2", "c2", t2);
    WellFormedValidates(ledger.chain, H);
    valid, message := ledger.ValidateChain();
    CandidateTamperMessage(ledger.chain, H);
    ledger.chain := ledger.chain[1 := ledger.chain[1].(candidateId := "c9")];
    validAfter, messageAfter := ledger.ValidateChain();
  }

  /** Every diagnostic names one block index and one failed check. */
  lemma DiagnosticsIdentifyBlock(i: int, j: int)
    ensures InvalidHashMessage(i) == InvalidHashMessage(j) ==> i == j
    ensures InvalidPreviousHashMessage(i) == InvalidPreviousHashMessage(j) ==> i == j
    ensures InvalidHashMessage(i) != InvalidPreviousHashMessage(j)
  {
    var s, t := IntToString(i), IntToString(j);
    if InvalidHashMessage(i) == InvalidHashMessage(j) {
      CancelMiddle("Block ", s, t, " has invalid hash");
      IntToStringInjective(i, j);
    }
    if InvalidPreviousHashMessage(i) == InvalidPreviousHashMessage(j) {
      CancelMiddle("Block ", s, t, " has invalid previous hash");
      IntToStringInjective(i, j);
    }
    var m, m' := InvalidHashMessage(i), InvalidPreviousHashMessage(j);
    if |m| == |m'| {
      // " previous" makes up the difference, so position 6 + |t| falls on a
      // digit of s in the first message and on a space in the second
      assert |s| == |t| + 9;
      assert m[6 + |t|] == s[|t|];
      assert m'[6 + |t|] == ' ';
    }
  }
}
