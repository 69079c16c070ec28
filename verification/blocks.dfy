/** A ledger block: one record plus its chain-linkage metadata, and the hash
    `Block.hash_block` computes over its five fields. */
module Blocks {
  import opened Strings

  /** The library functions the hash depends on and that this model does not
      define: SHA-256 followed by `hexdigest()`, and Python's `repr()` of a
      `str` and of a `float` (used by the `str()` of a `Record` dataclass).
      Being total functions, they are deterministic; nothing else is assumed
      of them unless a lemma says so. The UTF-8 `.encode()` before each
      `update` is injective, so the digest is taken over the characters. */
  datatype Primitives = Primitives(
    sha256Hex: string -> string,
    reprStr: string -> string,
    reprFloat: real -> string)
  {
    /** What `hexdigest()` of SHA-256 always returns: 64 lower-case hex digits. */
    ghost predicate HexShaped() {
      forall s :: |sha256Hex(s)| == 64 && forall i :: 0 <= i < 64 ==> sha256Hex(s)[i] in "0123456789abcdef"
    }
  }

  /** A transfer between two addresses. */
  datatype Record = Record(sender: string, receiver: string, amount: real)

  /** What a block's `record` field holds: a `Record`, or the bare string the
      genesis block is built with. */
  datatype Payload = Text(text: string) | Transfer(transfer: Record)

  /** The five fields of a block at one moment. */
  datatype BlockData = BlockData(
    record: Payload,
    creatorId: int,
    prevHash: string,
    timestamp: string,
    nonce: int)

  /** `str()` of a `Record`, as the dataclass-generated `__repr__` writes it. */
  function RecordStr(p: Primitives, r: Record): string {
    "Record(sender=" + p.reprStr(r.sender) + ", receiver=" + p.reprStr(r.receiver)
      + ", amount=" + p.reprFloat(r.amount) + ")"
  }

  /** `str()` of whatever the `record` field holds; `str` of a string is itself. */
  function PayloadStr(p: Primitives, x: Payload): string {
    match x
    case Text(t) => t
    case Transfer(r) => RecordStr(p, r)
  }

  /** Everything fed to the digest, in update order: record, creator id,
      timestamp, previous hash, nonce, with no separators. */
  function Preimage(p: Primitives, b: BlockData): string {
    PayloadStr(p, b.record) + IntStr(b.creatorId) + b.timestamp + b.prevHash + IntStr(b.nonce)
  }

  /** The hex digest `hash_block` returns for a block with these fields. */
  function BlockHash(p: Primitives, b: BlockData): string {
    p.sha256Hex(Preimage(p, b))
  }

  /** With a SHA-256-shaped digest every block hash has 64 characters, so its
      run of leading zero digits is at most 64 long. */
  lemma HexShapedLength(p: Primitives, b: BlockData)
    requires p.HexShaped()
    ensures |BlockHash(p, b)| == 64
    ensures LeadingZeros(BlockHash(p, b)) <= 64
  {
  }

  /** The fields of a block, one per constructor. */
  datatype Field = RecordField | CreatorIdField | PrevHashField | TimestampField | NonceField

  /** `a` and `b` agree on every field except possibly `f`. */
  predicate SameExcept(a: BlockData, b: BlockData, f: Field) {
    && (f != RecordField ==> a.record == b.record)
    && (f != CreatorIdField ==> a.creatorId == b.creatorId)
    && (f != PrevHashField ==> a.prevHash == b.prevHash)
    && (f != TimestampField ==> a.timestamp == b.timestamp)
    && (f != NonceField ==> a.nonce == b.nonce)
  }

  lemma CancelAround(x: string, y: string, y': string, z: string)
    requires x + y + z == x + y' + z
    ensures y == y'
  {
    assert |y| == |y'|;
    forall k | 0 <= k < |y|
      ensures y[k] == y'[k]
    {
      assert (x + y + z)[|x| + k] == y[k];
      assert (x + y' + z)[|x| + k] == y'[k];
    }
  }

  /** Changing a single field always changes what is digested (for the record
      field, provided its string form changes): the preimage pins down each
      field when the other four are fixed. */
  lemma {:induction false} OneFieldChangeChangesPreimage(p: Primitives, a: BlockData, b: BlockData, f: Field)
    requires SameExcept(a, b, f) && a != b
    requires f == RecordField ==> PayloadStr(p, a.record) != PayloadStr(p, b.record)
    ensures Preimage(p, a) != Preimage(p, b)
  {
    var r, r' := PayloadStr(p, a.record), PayloadStr(p, b.record);
    var c, c' := IntStr(a.creatorId), IntStr(b.creatorId);
    var n, n' := IntStr(a.nonce), IntStr(b.nonce);
    if Preimage(p, a) == Preimage(p, b) {
      match f
      case RecordField =>
        assert [] + r + (c + a.timestamp + a.prevHash + n) == Preimage(p, a);
        assert [] + r' + (c + a.timestamp + a.prevHash + n) == Preimage(p, b);
        CancelAround([], r, r', c + a.timestamp + a.prevHash + n);
      case CreatorIdField =>
        assert r + c + (a.timestamp + a.prevHash + n) == Preimage(p, a);
        assert r + c' + (a.timestamp + a.prevHash + n) == Preimage(p, b);
        CancelAround(r, c, c', a.timestamp + a.prevHash + n);
        IntStrInjective(a.creatorId, b.creatorId);
      case TimestampField =>
        assert (r + c) + a.timestamp + (a.prevHash + n) == Preimage(p, a);
        assert (r + c) + b.timestamp + (a.prevHash + n) == Preimage(p, b);
        CancelAround(r + c, a.timestamp, b.timestamp, a.prevHash + n);
      case PrevHashField =>
        CancelAround(r + c + a.timestamp, a.prevHash, b.prevHash, n);
      case NonceField =>
        CancelAround(r + c + a.timestamp + a.prevHash, n, n', []);
        IntStrInjective(a.nonce, b.nonce);
    }
  }

  /** The fields are concatenated without separators, so moving a character
      across the boundary between timestamp and previous hash leaves the
      hash unchanged although the block differs. */
  lemma BoundaryShiftKeepsHash(p: Primitives, b: BlockData, t: string, c: char, h: string)
    ensures b.(timestamp := t + [c], prevHash := h) != b.(timestamp := t, prevHash := [c] + h)
    ensures BlockHash(p, b.(timestamp := t + [c], prevHash := h))
         == BlockHash(p, b.(timestamp := t, prevHash := [c] + h))
  {
    var x := PayloadStr(p, b.record) + IntStr(b.creatorId);
    var n := IntStr(b.nonce);
    assert x + (t + [c]) + h + n == x + t + ([c] + h) + n;
    assert |t + [c]| != |t|;
  }

  /** A block object; the proof of work updates its `nonce` in place. */
  class Block {
    var record: Payload
    var creatorId: int
    var prevHash: string
    var timestamp: string
    var nonce: int

    /** The previous hash defaults to `"0"` and the nonce to 0; the default
        timestamp is a clock reading, so it is always passed by name. */
    constructor (record: Payload, creatorId: int, prevHash: string := "0", nameonly timestamp: string, nonce: int := 0)
      ensures Data() == BlockData(record, creatorId, prevHash, timestamp, nonce)
    {
      this.record := record;
      this.creatorId := creatorId;
      this.prevHash := prevHash;
      this.timestamp := timestamp;
      this.nonce := nonce;
    }

    /** The current values of the five fields. */
    function Data(): BlockData
      reads this
    {
      BlockData(record, creatorId, prevHash, timestamp, nonce)
    }

    /** Digests the fields one update at a time and returns the hex digest.
        Having no `modifies` clause, it changes no field. */
    method HashBlock(p: Primitives) returns (digest: string)
      ensures digest == BlockHash(p, Data())
    {
      var fed := PayloadStr(p, record);
      fed := fed + IntStr(creatorId);
      fed := fed + timestamp;
      fed := fed + prevHash;
      fed := fed + IntStr(nonce);
      digest := p.sha256Hex(fed);
    }
  }
}
