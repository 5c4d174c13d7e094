# Voting ledger — a Dafny model

This project models the core of a console voting system that records each
vote as a block of a hash-linked, tamper-evident ledger:

- `blockchain.dfy` (module `Ledger`): the `Block` record, whose hash is
  computed once at construction over the separator-free concatenation
  `str(index) + voter_id + candidate_id + timestamp + previous_hash`; the
  `Blockchain` class, which starts with a genesis block and is extended only
  by `AddBlock`; and validation, as a pure function `Validate` over a
  snapshot of the chain and as the looping method `ValidateChain` proved
  equal to it. Lemmas prove that `AddBlock` keeps the index and linkage
  invariants, that such chains always validate, which diagnostic each kind
  of tampering produces, and what validation cannot see: the genesis
  block's contents, and a shift of characters between adjacent fields.
- `main.dfy` (module `Voting`): the three commands that change the
  application state — register a candidate, register a voter, cast a vote —
  as methods of `Election`, the class holding the ledger and the voter and
  candidate tables. Its invariant ties the tables to the ledger: every
  ballot comes from a registered voter marked as having voted, names a
  registered candidate, and no voter has two ballots.
- `entities.dfy` (module `Entities`): `Voter` (a class, because its
  `hasVoted` flag is set in place) and `Candidate` (a datatype, never
  changed), with their display formats.
- `text.dfy` (module `Text`): Python's `str()` on integers and booleans,
  with the injectivity and concatenation facts the tamper lemmas use.

SHA-256 is treated as a foreign function: every ledger operation takes the
hash function `H: string -> string` as a parameter (the `Blockchain` class
keeps it as a constant), and only the tamper-detection lemmas assume it is
collision-free (`CollisionFree(H)`). The wall-clock timestamp of a block is
a parameter of its construction. Console input arrives as already stripped
string parameters, and each error message the commands print is returned
as a rejection reason (`RegistrationError`, `VoteError`) beside the
command's boolean result.

The diagnostics are exactly `"Blockchain is empty"`,
`"Invalid genesis block"`, `"Block <index> has invalid hash"`,
`"Block <index> has invalid previous hash"` and `"Blockchain is valid"`,
where `<index>` is the block's stored (possibly tampered) index. The
genesis block's hash is never recomputed; only its index and previous hash
are checked.

## Model

| member | source | states |
|---|---|---|
| `Ledger.NewBlock` | blockchain.py:13-40 | a new block stores the five given fields and its cached hash equals `H` of their concatenation (`HashIntact`) |
| `Ledger.CalculateHash` | blockchain.py:30-40 | the digest is `H` of `str(index)+voter_id+candidate_id+timestamp+previous_hash`, so it depends on the block only through that text; under a collision-free `H`, equal digests mean equal texts |
| `Ledger.BlockStringLayout` | blockchain.py:38 | the hashed text is the five fields in that order with no separators: each field occupies its own consecutive slice |
| `Ledger.Genesis` | blockchain.py:59-66 | the genesis block has index 0, voter and candidate id `"GENESIS"`, previous hash `"0"` and an intact hash |
| `Ledger.Blockchain.constructor` | blockchain.py:55-57 | a new ledger holds exactly the genesis block and satisfies the ledger invariant |
| `Ledger.Blockchain.AddBlock` | blockchain.py:68-87 | grows the chain by exactly the returned block, whose index is the old length and whose previous hash is the old tail's hash; earlier blocks are unchanged; the invariant is preserved |
| `Ledger.AppendKeepsWellFormed` | blockchain.py:79-86 | appending as `add_block` does keeps `chain[i].index == i`, intact hashes and `chain[i].previous_hash == chain[i-1].hash` |
| `Ledger.WellFormedValidates` | blockchain.py:116-128 | a chain built by the constructor and `add_block` validates as `(True, "Blockchain is valid")` |
| `Ledger.Scan` | blockchain.py:116-128 | the scan from block i succeeds exactly when blocks i.. are sound, and otherwise reports the first unsound block, hash check before linkage check |
| `Ledger.Validate` | blockchain.py:99-128 | the verdict is true exactly when the chain is non-empty, the genesis index is 0 and previous hash "0", and every later block has an intact hash and correct link; empty chain, bad genesis and the first defective block each give their own message |
| `Ledger.Blockchain.ValidateChain` | blockchain.py:99-128 | the loop with early returns returns exactly `Validate` of the current chain, and, having no modifies clause, changes nothing |
| `Ledger.HashTamperDetected` | blockchain.py:120-122 | with a collision-free hash, changing the hashed text of block i ≥ 1 of a sound chain while keeping its cached hash gives `(False, "Block <index> has invalid hash")` |
| `Ledger.SingleFieldEditChangesString` | blockchain.py:38 | changing exactly one of the five hashed fields always changes the concatenated text |
| `Ledger.FieldTamperDetected` | blockchain.py:120-122 | with a collision-free hash, changing any single field of block i ≥ 1 without recomputing its hash is reported as an invalid hash of that block |
| `Ledger.BoundaryShiftUndetected` | blockchain.py:38-40 | moving the last voter-id character to the front of the candidate id changes the block but not its hashed text, so a sound chain still validates |
| `Ledger.LinkTamperDetected` | blockchain.py:124-126 | substituting block i ≥ 1 by one with an intact hash but a wrong previous hash gives `(False, "Block <index> has invalid previous hash")` |
| `Ledger.ScanIgnoresGenesisContent` | blockchain.py:116-126 | the scan depends on the genesis block only through its cached hash |
| `Ledger.GenesisContentIgnored` | blockchain.py:110-116 | the validation result does not depend on the genesis voter id, candidate id or timestamp |
| `Ledger.DiagnosticsIdentifyBlock` | blockchain.py:122-126 | distinct indices give distinct diagnostics, and an invalid-hash diagnostic never equals an invalid-previous-hash one |
| `Ledger.CandidateTamperMessage` | blockchain.py:120-122 | on a well-formed chain, changing block 1's candidate from "c1" to "c9" without recomputing its hash gives `(False, "Block 1 has invalid hash")` |
| `Ledger.TwoVoteScenario` | blockchain.py:55-128 | a new `Blockchain` with votes (v1, c1), (v2, c2) appended by `AddBlock` validates through `ValidateChain`; after block 1's candidate is changed in place to "c9", `ValidateChain` returns `(False, "Block 1 has invalid hash")` |
| `Text.IntToString` | blockchain.py:38 | `str()` of an int is non-empty and starts with '-' exactly when the value is negative; every other character is a decimal digit |
| `Text.NatToStringValue` | blockchain.py:38 | the decimal rendering of a natural number spells that number (`DecimalValue`, most significant digit first) |
| `Text.IntToStringValue` | blockchain.py:38 | after the optional '-', `str(i)` spells the magnitude of `i` in decimal |
| `Text.BoolToString` | entities.py:24 | `str()` of a bool is `"True"` exactly for true and `"False"` otherwise |
| `Text.NatToStringInjective` | blockchain.py:38 | distinct natural numbers have distinct decimal renderings |
| `Text.IntToStringInjective` | blockchain.py:38 | distinct integers have distinct `str()` renderings |
| `Entities.Voter.constructor` | entities.py:10-20 | a voter stores its id and name unchanged and starts with `hasVoted == false` |
| `Entities.Voter.ToString` | entities.py:22-24 | renders `"Voter ID: {id}, Name: {name}, Has Voted: "` followed by `True` exactly when the voter has voted and `False` otherwise |
| `Entities.Candidate.ToString` | entities.py:41-43 | renders `"Candidate ID: {id}, Name: "` followed by the name |
| `Voting.CheckRegistration` | main.py:39-87 | the guard shared by `add_candidate` (lines 39-53) and `add_voter` (lines 73-87): a registration is accepted exactly when the id is non-empty and new and the name non-empty; an empty id is reported before a duplicate id, both before an empty name |
| `Voting.CheckVote` | main.py:109-135 | a vote is accepted exactly when the voter is registered and has not voted and the candidate is registered; unknown voter, already voted, no candidates and unknown candidate are reported in that order |
| `Voting.BallotCount` | main.py:116-141 | when no voter id repeats, there are as many ballot voters as non-genesis blocks |
| `Voting.VoteKeepsConsistent` | main.py:133-141 | appending the ballot of a registered voter who has not voted, for a registered candidate, and marking the voter keeps the tables consistent with the ledger |
| `Voting.RegistrationKeepsConsistent` | main.py:89 | registering a new voter who has not voted keeps the tables consistent with the ledger |
| `Voting.Election.constructor` | main.py:184-186 | the application starts with a genesis-only ledger and empty tables |
| `Voting.Election.AddCandidate` | main.py:26-57 | rejects an empty id, a duplicate id or an empty name, in that order, with no change; otherwise sets `candidates[id] = Candidate(id, name)`, leaves every other entry and the ledger unchanged and returns true |
| `Voting.Election.AddVoter` | main.py:60-91 | rejects an empty id, a duplicate id or an empty name with no change; otherwise inserts a fresh voter with that id and name that has not voted, leaving the other voters unchanged |
| `Voting.Election.CastVote` | main.py:94-145 | on rejection (reason as `CheckVote`) leaves the ledger and all flags unchanged; otherwise appends exactly the block `add_block` builds for (voter, candidate), sets that voter's flag and returns true; keeps the invariant |
| `Voting.Election.BallotsMatchRegistry` | main.py:110-141 | every ballot's voter is registered and marked as having voted, every ballot's candidate is registered, no voter id is on two ballots, and the number of voters who voted equals the number of ballots |

## Left out

- SHA-256 (`hashlib.sha256(...).hexdigest()`): a foreign call, modelled as the parameter `H`; collision freedom is assumed only by the tamper lemmas that need it, and the digest format (64 lowercase hex characters) is not modelled.
- `datetime.now().strftime(...)`: wall-clock input, replaced by a timestamp parameter of `NewBlock`, `AddBlock`, `CastVote` and the constructors.
- `input()`, `.strip()` and every `print`: console I/O. Inputs are parameters; in the source the name (or candidate id) is only prompted for after the earlier checks pass, which makes no difference once they are parameters. Printed errors become rejection reasons; their wording is not modelled.
- The menu loop `main()` and `print_menu`: UI dispatch; only the state it creates (main.py:184-186) is modelled, as `Election`'s constructor.
- `print_chain`, `Block.__str__`, `view_candidates`, `view_voters`, `validate_blockchain`: display-only wrappers.
- In the source a block is a mutable object that can be edited through any reference; here a block is a value, and tampering is modelled as replacing a block of the chain sequence, so aliasing between blocks is not captured.
- `Candidate` is a value in the model; the source's object is never changed after construction.
- `Ledger.Blockchain.AddBlock`: requires a non-empty chain, so the `IndexError` that `self.chain[-1]` raises on an empty list is not modelled; no caller can reach it, since the constructor creates the genesis block and nothing removes blocks.
- `Ledger.Blockchain.ValidateChain`: "does not modify the chain" is stated by its empty frame (no modifies clause) rather than by an `ensures` clause.
- Concurrency: the source has none, so no locking is modelled.
