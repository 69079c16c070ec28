# PyChain ledger, modelled in Dafny

PyChain is an append-only ledger of blocks held in memory. Each block carries
one transfer record (sender, receiver, amount), a creator id, a timestamp, the
hash of the block before it, and a nonce. A block's hash is the SHA-256 hex
digest of its five fields, fed in a fixed order. Before a block is appended,
a proof of work counts its nonce up until the hash starts with `difficulty`
zero digits. Validation walks the chain and checks that every block after the
first stores the hash of its predecessor.

The model has three modules:

- `Strings` (`strings.dfy`) holds the Python string operations the ledger
  uses. `str()` of an integer is written out in decimal and has a parser that
  reads it back. `"0" * n` is `Zeros`, `str.startswith` is `StartsWith`, and
  `LeadingZeros` counts the zero digits at the start of a hash.
- `Blocks` (`blocks.dfy`) holds the record and block values and the block
  hash. `Record`, `Payload` and `BlockData` are the values. `Block` is a class
  whose fields the proof of work updates in place. The hashed string
  (`Preimage`, pychain.py:43-56) is `str(record) + str(creator_id) +
  timestamp + prev_hash + str(nonce)` with no separators. `RecordStr`
  (pychain.py:17-21) writes `str()` of the `Record` dataclass in the form
  its generated `__repr__` uses. `BlockHash` applies the digest to the
  preimage (pychain.py:58).
- `Chain` (`chain.dfy`) holds the difficulty test (`Meets`, `Solves`,
  `LeastSolution`), the link predicate `Linked`, the `PyChain` class with
  `ProofOfWork`, `AddBlock` and `IsValid`, the genesis set-up, and the
  add-block handler.

SHA-256 with `hexdigest()`, and Python's `repr()` of a `str` and of a
`float`, are library code. They enter the model as the three total
functions of a `Primitives` value, which every operation takes as a
parameter. Everything proved holds for every choice of those functions.
Where a lemma needs the digest to be 64 hex characters, it states that as a
hypothesis (`Primitives.HexShaped`).

Points where the code's behaviour is easy to misread:

- The default block timestamp is evaluated once, when the `Block` class is
  defined (pychain.py:34), not when each block is built. The model passes it
  in as `launchTime`.
- Difficulty is a plain Python `int`. For a zero or negative difficulty
  `"0" * d` is `""`, so every hash meets it. `ZeroDifficultyKeepsNonce`
  covers that case.
- The nonce search starts from the block's current nonce, which may be
  negative. It does not start from 0.
- The hash binds the concatenation of the fields, not each field on its own.
  Changing one field changes the digested string, provided, for the record,
  its `str()` changes (`OneFieldChangeChangesPreimage`). A bare string and a
  `Record` whose `str()` is that same string digest alike. Changing two adjacent fields can leave
  it unchanged (`BoundaryShiftKeepsHash`).

## Model

| member | source | states |
|---|---|---|
| `Strings.NatStr` | pychain.py:55 | `str()` of a non-negative int is a non-empty string of decimal digits |
| `Strings.IntStr` | pychain.py:46 | `str()` of an int is non-empty and starts with `-` exactly when the int is negative |
| `Strings.IntStrRoundTrip` | pychain.py:55 | the decimal string of the nonce (or creator id) reads back as the same integer |
| `Strings.IntStrInjective` | pychain.py:46-56 | two integers have equal `str()` exactly when they are equal, so distinct nonces feed distinct strings to the digest |
| `Strings.Zeros` | pychain.py:70 | `"0" * n` is `max(n, 0)` zero characters |
| `Strings.LeadingZeros` | pychain.py:72 | the count is bounded by the length, every counted character is `'0'`, and the next one is not |
| `Strings.StartsWithZerosIff` | pychain.py:70-72 | the proof-of-work test `s.startswith("0" * n)` holds iff `s` opens with at least `n` zero digits |
| `Blocks.HexShapedLength` | pychain.py:58 | if the digest is shaped like a SHA-256 hex digest, every block hash has 64 characters and at most 64 leading zeros |
| `Blocks.OneFieldChangeChangesPreimage` | pychain.py:37-58 | two blocks that differ in exactly one field (for the record, in its string form) feed different strings to the digest |
| `Blocks.BoundaryShiftKeepsHash` | pychain.py:49-53 | moving a character from the end of the timestamp to the front of the previous hash gives a different block with the same hash |
| `Blocks.Block.constructor` | pychain.py:27-35 | a new block holds exactly the five given field values; the previous hash defaults to `"0"` and the nonce to 0 |
| `Blocks.Block.HashBlock` | pychain.py:37-58 | returns the digest of record, creator id, timestamp, previous hash and nonce in that order; it modifies nothing, so equal fields give equal hashes |
| `Chain.MeetsDownward` | pychain.py:70-72 | a hash that meets a difficulty meets every lower difficulty |
| `Chain.LeastSolutionExists` | pychain.py:72-76 | if some nonce at or above the start solves the puzzle, a least such nonce exists and is no larger |
| `Chain.LeastSolutionUnique` | pychain.py:72-76 | the least solving nonce at or above the start is unique |
| `Chain.ZeroDifficultyKeepsNonce` | pychain.py:70-72 | at difficulty 0 or below, the starting nonce is already the least solution |
| `Chain.UnsolvableAboveDigestLength` | pychain.py:70-72 | with a 64-character digest, no nonce solves a difficulty above 64 |
| `Chain.AppendLinked` | pychain.py:83-96 | appending a block keeps the chain linked iff the chain was linked and the block names the hash of the old last block |
| `Chain.TamperedLinkDetected` | pychain.py:88-91 | in a linked chain, overwriting a later block's stored previous hash with any other string breaks the link |
| `Chain.TamperedBlockDetected` | pychain.py:88-93 | in a linked chain, replacing a block that has a successor by one with a different hash breaks the link |
| `Chain.PyChain.constructor` | pychain.py:61-64 | a new ledger holds the given blocks; difficulty defaults to 4 |
| `Chain.PyChain.ProofOfWork` | pychain.py:66-79 | returns the same block object; only its nonce changed; the new nonce is the least nonce at or above the old one whose hash meets the difficulty; at difficulty 0 or below the nonce is unchanged |
| `Chain.PyChain.AddBlock` | pychain.py:81-83 | the chain grows by the mined candidate alone; the earlier blocks are unchanged when the candidate was not among them; a linked chain stays linked when the candidate names the old last block's hash |
| `Chain.PyChain.IsValid` | pychain.py:85-96 | returns true iff every block after the first stores the hash of its predecessor; it reads neither the difficulty nor changes anything |
| `Chain.Setup` | pychain.py:104-107 | the initial ledger is the genesis block `("Genesis", 0, "0", launch time, 0)` alone at difficulty 4, and it is linked |
| `Chain.SubmitRecord` | pychain.py:126-145 | the add-block handler appends one fresh block holding the record, creator id 42, the old last block's hash and the launch time, mined to the least solving nonce from 0; earlier blocks are unchanged and a linked chain stays linked |

## Left out

- The Streamlit front end (pychain.py:110-168): inputs, slider, buttons,
  balloons, the block inspector, the `st.cache` memoisation, and the difficulty
  slider that assigns `pychain.difficulty`. In the model that assignment is a
  plain field update.
- The pandas table (pychain.py:153-154), which only renders the chain.
- The `print` calls (pychain.py:78, 90, 95, 106). They are console output with
  no effect on any result.
- SHA-256, `hexdigest()` and Python's `repr()` of `str` and `float`. They are
  the abstract functions of `Primitives`. Nothing is assumed about
  collisions, so no lemma claims that a changed block has a changed hash.
- The wall-clock default timestamp (pychain.py:34). It is the `launchTime`
  parameter.
- `Record.amount` is a `real`. Floating-point rounding plays no part, because
  the amount is only ever turned into a string.
- Chain.PyChain.ProofOfWork: requires that some nonce at or above the start
  solves the puzzle. Without one, the source loops forever, and Dafny admits
  no loop without a termination measure. `UnsolvableAboveDigestLength` shows
  such a case.
- Chain.PyChain.AddBlock: requires the same solvability as `ProofOfWork`, for
  the same reason.
- Chain.SubmitRecord: requires the same solvability for the block it builds.
- Chain.PyChain.IsValid: requires a non-empty chain. On an empty chain the
  source raises `IndexError` at `chain[0]`, and does not handle it.
