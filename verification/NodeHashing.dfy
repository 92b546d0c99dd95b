/** Node labels, one at a time and in batches, for the three hash algorithms.

    The primitives (BLAKE3, SHA-256, the AES round and key schedule) are arbitrary functions.
 */
module NodeHashing {
  import Offsets
  import opened Labelling

  type Block = b: seq<Byte> | |b| == 16 witness seq(16, _ => 0 as Byte)
  type Digest = l: Label | |l.bytes| == 32 witness Label(seq(32, _ => 0 as Byte))

  datatype Algorithm = Blake3 | Sha256 | AesPrf

  datatype Key = Source | Internal

  const AES_ROUNDS: nat := 10
  const AES_BLOCKS: nat := 7
  const AES_MSG_BYTES: nat := 112
  const NODE_MSG_BYTES: nat := 192

  type RoundKeys = rk: seq<Block> | |rk| == 11 witness seq(11, _ => seq(16, _ => 0 as Byte))

  datatype HashFunctions = HashFunctions(
    blake3: (Key, seq<Byte>) -> Digest,
    sha256: seq<Byte> -> Digest,
    schedule: Block -> RoundKeys,
    xor: (Block, Block) -> Block,
    aesenc: (Block, Block) -> Block,
    aesenclast: (Block, Block) -> Block)

  // ---------- specification ----------

  /** Byte `k` of the 64-bit index, most significant first. */
  function IndexByte(index: nat, k: nat): Byte
    requires k < 8
  {
    (index / [0x100_0000_0000_0000, 0x1_0000_0000_0000, 0x100_0000_0000, 0x1_0000_0000, 0x100_0000, 0x1_0000, 0x100,
              1][k] % 0x100) as Byte
  }

  function Index(index: nat): (s: seq<Byte>)
    ensures |s| == 8
  {
    seq(8, k requires 0 <= k < 8 => IndexByte(index, k))
  }

  function Zeros(n: nat): (s: seq<Byte>)
    ensures |s| == n
  {
    seq(n, _ => 0 as Byte)
  }

  datatype Option<T> = None | Some(value: T)

  /** A predecessor's label, or zeros. */
  function Pred(p: Option<Digest>): (s: seq<Byte>)
    ensures |s| == 32
  {
    match p
    case None => Zeros(32)
    case Some(l) => l.bytes
  }

  /** index | zeros | pred0 | pred1 | descriptor */
  function AesMessage(index: nat, p0: Option<Digest>, p1: Option<Digest>, descriptor: Digest): (s: seq<Byte>)
    ensures |s| == AES_MSG_BYTES
  {
    Index(index) + Zeros(8) + Pred(p0) + Pred(p1) + descriptor.bytes
  }

  /** index | zeros | pred0 | pred1 | seed | descriptor */
  function NodeMessage(index: nat, p0: Option<Digest>, p1: Option<Digest>, seed: Digest,
                       descriptor: Digest): (s: seq<Byte>)
    ensures |s| == NODE_MSG_BYTES
  {
    Index(index) + Zeros(56) + Pred(p0) + Pred(p1) + seed.bytes + descriptor.bytes
  }

  /** The state after the first `r` rounds of the block cipher. */
  function Rounds(c: HashFunctions, rk: RoundKeys, s: Block, r: nat): Block
    requires r <= 9
  {
    if r == 0 then c.xor(s, rk[0]) else c.aesenc(Rounds(c, rk, s, r - 1), rk[r])
  }

  function Encrypt(c: HashFunctions, rk: RoundKeys, s: Block): Block {
    c.aesenclast(Rounds(c, rk, s, 9), rk[AES_ROUNDS])
  }

  function BlockAt(msg: seq<Byte>, b: nat): Block
    requires b < AES_BLOCKS && |msg| == AES_MSG_BYTES
  {
    msg[16 * b..16 * b + 16]
  }

  /** CBC-MAC over the first `b` blocks. */
  function CbcMac(c: HashFunctions, rk: RoundKeys, msg: seq<Byte>, b: nat): Block
    requires b <= AES_BLOCKS && |msg| == AES_MSG_BYTES
  {
    if b == 0 then Zeros(16) else Encrypt(c, rk, c.xor(CbcMac(c, rk, msg, b - 1), BlockAt(msg, b - 1)))
  }

  function HighHalf(seed: Digest): Block {
    seed.bytes[..16]
  }

  function LowHalf(seed: Digest): Block {
    seed.bytes[16..]
  }

  /** Two MACs of one message, under the seed's two halves. */
  function AesLabel(c: HashFunctions, seed: Digest, msg: seq<Byte>): Digest
    requires |msg| == AES_MSG_BYTES
  {
    Join(CbcMac(c, c.schedule(HighHalf(seed)), msg, AES_BLOCKS), CbcMac(c, c.schedule(LowHalf(seed)), msg, AES_BLOCKS))
  }

  /** The label of one node, without batching, grouping or caching. */
  function LabelOf(c: HashFunctions, algo: Algorithm, isSource: bool, index: nat, p0: Option<Digest>,
                   p1: Option<Digest>, seed: Digest, descriptor: Digest): Digest {
    var q0 := if isSource then None else p0;
    var q1 := if isSource then None else p1;
    match algo
    case AesPrf => AesLabel(c, seed, AesMessage(index, q0, q1, descriptor))
    case Sha256 => c.sha256(NodeMessage(index, q0, q1, seed, descriptor))
    case Blake3 => c.blake3(if isSource then Source else Internal, NodeMessage(index, q0, q1, seed, descriptor))
  }

  // ---------- the hash the graph is labelled with ----------

  function Nth(preds: seq<Label>, i: nat): Option<Digest> {
    if i < |preds| then (var d: Digest := AsDigest(preds[i]); Some(d)) else None
  }

  function AsDigest(l: Label): Digest {
    if |l.bytes| == 32 then l else Label(Zeros(32))
  }

  /** Each algorithm is one of the arbitrary node hashes a graph can be labelled with. */
  function HashFor(c: HashFunctions, algo: Algorithm): NodeHash {
    (isSource: bool, id: nat, preds: seq<Label>, seed: Label, descriptor: Label) =>
      LabelOf(c, algo, isSource, id, Nth(preds, 0), Nth(preds, 1), AsDigest(seed), AsDigest(descriptor))
  }

  // ---------- what is hashed, byte by byte ----------

  /** Bytes [at, at + 32) are the predecessor's label, or zero when there is none. */
  ghost predicate Field(msg: seq<Byte>, at: nat, p: Option<Digest>) {
    at + 32 <= |msg|
    && match p
       case None => forall k {:trigger msg[k]} :: at <= k < at + 32 ==> msg[k] == 0
       case Some(l) => msg[at..at + 32] == l.bytes
  }

  /** The first eight bytes, most significant first, are the index modulo 2^64. */
  ghost predicate BigEndian(msg: seq<Byte>, index: nat) {
    |msg| >= 8
    && msg[0] as int * 0x100_0000_0000_0000 + msg[1] as int * 0x1_0000_0000_0000 + msg[2] as int * 0x100_0000_0000
       + msg[3] as int * 0x1_0000_0000 + msg[4] as int * 0x100_0000 + msg[5] as int * 0x1_0000 + msg[6] as int * 0x100
       + msg[7] as int == index % 0x1_0000_0000_0000_0000
  }

  /** The 192-byte message: index, 56 zeros, both predecessors, seed, descriptor. */
  ghost predicate NodeLayout(msg: seq<Byte>, index: nat, p0: Option<Digest>, p1: Option<Digest>, seed: Digest,
                             descriptor: Digest) {
    && |msg| == 192 && BigEndian(msg, index)
    && (forall k {:trigger msg[k]} :: 8 <= k < 64 ==> msg[k] == 0)
    && Field(msg, 64, p0) && Field(msg, 96, p1) && msg[128..160] == seed.bytes && msg[160..192] == descriptor.bytes
  }

  /** The 112-byte message: index, 8 zeros, both predecessors, descriptor. */
  ghost predicate AesLayout(msg: seq<Byte>, index: nat, p0: Option<Digest>, p1: Option<Digest>, descriptor: Digest) {
    && |msg| == 112 && BigEndian(msg, index)
    && (forall k {:trigger msg[k]} :: 8 <= k < 16 ==> msg[k] == 0)
    && Field(msg, 16, p0) && Field(msg, 48, p1) && msg[80..112] == descriptor.bytes
  }

  /** Eight bytes, most significant first. */
  lemma IndexBytes(index: nat)
    ensures BigEndian(Index(index), index)
  {
    EightBytes(index);
    ByteValues(index);
  }

  lemma ByteValues(index: nat)
    ensures var s := Index(index);
            && s[0] as int == index / 0x100_0000_0000_0000 % 0x100 && s[1] as int == index / 0x1_0000_0000_0000 % 0x100
            && s[2] as int == index / 0x100_0000_0000 % 0x100 && s[3] as int == index / 0x1_0000_0000 % 0x100
            && s[4] as int == index / 0x100_0000 % 0x100 && s[5] as int == index / 0x1_0000 % 0x100
            && s[6] as int == index / 0x100 % 0x100 && s[7] as int == index % 0x100
  {
  }

  lemma EightBytes(a: nat)
    ensures a / 0x100_0000_0000_0000 % 0x100 * 0x100_0000_0000_0000
            + a / 0x1_0000_0000_0000 % 0x100 * 0x1_0000_0000_0000 + a / 0x100_0000_0000 % 0x100 * 0x100_0000_0000
            + a / 0x1_0000_0000 % 0x100 * 0x1_0000_0000 + a / 0x100_0000 % 0x100 * 0x100_0000
            + a / 0x1_0000 % 0x100 * 0x1_0000 + a / 0x100 % 0x100 * 0x100 + a % 0x100
              == a % 0x1_0000_0000_0000_0000
  {
    OneMore(a, 0x100);
    OneMore(a, 0x1_0000);
    OneMore(a, 0x100_0000);
    OneMore(a, 0x1_0000_0000);
    OneMore(a, 0x100_0000_0000);
    OneMore(a, 0x1_0000_0000_0000);
    OneMore(a, 0x100_0000_0000_0000);
  }

  /** One more byte in front. */
  lemma OneMore(a: nat, m: nat)
    requires m >= 1
    ensures a % (m * 0x100) == a / m % 0x100 * m + a % m
  {
    Offsets.Remainder(a, m);
    var q := a / m;
    var h := q / 0x100;
    var low := q % 0x100 * m + a % m;
    assert a == h * (m * 0x100) + low by { Spread(a, m, q, h); }
    assert q % 0x100 * m <= 0xFF * m by { Smaller(q % 0x100, 0xFF, m); }
    Offsets.OffsetDivides(h, m * 0x100, low);
  }

  lemma Smaller(x: nat, y: nat, m: nat)
    requires x <= y
    ensures x * m <= y * m
  {
  }

  lemma Spread(a: nat, m: nat, q: nat, h: nat)
    requires m >= 1 && q == a / m && h == q / 0x100 && a == Offsets.Offset(q, m) + a % m
    ensures a == h * (m * 0x100) + q % 0x100 * m + a % m
  {
    assert q == h * 0x100 + q % 0x100;
    assert q * m == h * 0x100 * m + q % 0x100 * m;
  }

  lemma ZeroField(msg: seq<Byte>, at: nat, p: Option<Digest>)
    requires at + 32 <= |msg| && msg[at..at + 32] == Pred(p)
    ensures Field(msg, at, p)
  {
    if p.None? {
      forall k {:trigger msg[k]} | at <= k < at + 32
        ensures msg[k] == 0
      {
        assert msg[k] == msg[at..at + 32][k - at];
      }
    }
  }

  lemma NodeMessageLaid(index: nat, p0: Option<Digest>, p1: Option<Digest>, seed: Digest, descriptor: Digest)
    ensures NodeLayout(NodeMessage(index, p0, p1, seed, descriptor), index, p0, p1, seed, descriptor)
  {
    hide Index;
    hide Pred;
    hide BigEndian;
    var msg := NodeMessage(index, p0, p1, seed, descriptor);
    IndexBytes(index);
    FirstEight(Index(index), msg, index);
    assert msg[64..96] == Pred(p0) && msg[96..128] == Pred(p1);
    ZeroField(msg, 64, p0);
    ZeroField(msg, 96, p1);
    assert msg[8..64] == Zeros(56);
    forall k {:trigger msg[k]} | 8 <= k < 64
      ensures msg[k] == 0
    {
      assert msg[k] == msg[8..64][k - 8];
    }
  }

  lemma AesMessageLaid(index: nat, p0: Option<Digest>, p1: Option<Digest>, descriptor: Digest)
    ensures AesLayout(AesMessage(index, p0, p1, descriptor), index, p0, p1, descriptor)
  {
    hide Index;
    hide Pred;
    hide BigEndian;
    var msg := AesMessage(index, p0, p1, descriptor);
    IndexBytes(index);
    FirstEight(Index(index), msg, index);
    assert msg[16..48] == Pred(p0) && msg[48..80] == Pred(p1);
    ZeroField(msg, 16, p0);
    ZeroField(msg, 48, p1);
    assert msg[8..16] == Zeros(8);
    forall k {:trigger msg[k]} | 8 <= k < 16
      ensures msg[k] == 0
    {
      assert msg[k] == msg[8..16][k - 8];
    }
  }

  lemma FirstEight(front: seq<Byte>, msg: seq<Byte>, index: nat)
    requires |front| == 8 && front <= msg && BigEndian(front, index)
    ensures BigEndian(msg, index)
  {
  }

  // ---------- labels, from the primitives alone ----------

  /** Seven steps of a CBC-MAC from the zero block, each with the ten rounds of the cipher written out. */
  ghost predicate MacStates(c: HashFunctions, rk: RoundKeys, msg: seq<Byte>, st: seq<Block>) {
    && |msg| == 112 && |st| == 8 && (forall k {:trigger st[0][k]} :: 0 <= k < 16 ==> st[0][k] == 0)
    && forall b: nat {:trigger st[b]} :: b < 7 ==>
         st[b + 1] == c.aesenclast(
           c.aesenc(c.aesenc(c.aesenc(c.aesenc(c.aesenc(c.aesenc(c.aesenc(c.aesenc(c.aesenc(
             c.xor(c.xor(st[b], msg[16 * b..16 * b + 16]), rk[0]),
             rk[1]), rk[2]), rk[3]), rk[4]), rk[5]), rk[6]), rk[7]), rk[8]), rk[9]), rk[10])
  }

  ghost predicate IsMac(c: HashFunctions, rk: RoundKeys, msg: seq<Byte>, mac: seq<Byte>) {
    exists st: seq<Block> :: MacStates(c, rk, msg, st) && mac == st[7]
  }

  /** What a node's label is: the hash of a message laid out as above, or its two MACs under the seed's halves. */
  ghost predicate IsLabel(c: HashFunctions, algo: Algorithm, isSource: bool, index: nat, p0: Option<Digest>,
                          p1: Option<Digest>, seed: Digest, descriptor: Digest, out: Label) {
    var q0 := if isSource then None else p0;
    var q1 := if isSource then None else p1;
    match algo
    case Sha256 =>
      exists msg :: NodeLayout(msg, index, q0, q1, seed, descriptor) && out == c.sha256(msg)
    case Blake3 =>
      exists msg :: NodeLayout(msg, index, q0, q1, seed, descriptor)
                    && out == c.blake3(if isSource then Source else Internal, msg)
    case AesPrf =>
      |out.bytes| == 32
      && exists msg :: AesLayout(msg, index, q0, q1, descriptor)
                       && IsMac(c, c.schedule(seed.bytes[..16]), msg, out.bytes[..16])
                       && IsMac(c, c.schedule(seed.bytes[16..]), msg, out.bytes[16..])
  }

  lemma CipherRounds(c: HashFunctions, rk: RoundKeys, x: Block)
    ensures Encrypt(c, rk, x) == c.aesenclast(
              c.aesenc(c.aesenc(c.aesenc(c.aesenc(c.aesenc(c.aesenc(c.aesenc(c.aesenc(c.aesenc(
                c.xor(x, rk[0]),
                rk[1]), rk[2]), rk[3]), rk[4]), rk[5]), rk[6]), rk[7]), rk[8]), rk[9]), rk[10])
  {
    assert Rounds(c, rk, x, 1) == c.aesenc(c.xor(x, rk[0]), rk[1]);
    assert Rounds(c, rk, x, 2) == c.aesenc(Rounds(c, rk, x, 1), rk[2]);
    assert Rounds(c, rk, x, 4) == c.aesenc(c.aesenc(Rounds(c, rk, x, 2), rk[3]), rk[4]);
    assert Rounds(c, rk, x, 6) == c.aesenc(c.aesenc(Rounds(c, rk, x, 4), rk[5]), rk[6]);
    assert Rounds(c, rk, x, 8) == c.aesenc(c.aesenc(Rounds(c, rk, x, 6), rk[7]), rk[8]);
    assert Rounds(c, rk, x, 9) == c.aesenc(Rounds(c, rk, x, 8), rk[9]);
  }

  /** The CBC-MAC, with the cipher and the chaining written out. */
  lemma MacLaw(c: HashFunctions, rk: RoundKeys, msg: seq<Byte>)
    requires |msg| == 112
    ensures IsMac(c, rk, msg, CbcMac(c, rk, msg, 7))
  {
    var st: seq<Block> := seq(8, b requires 0 <= b < 8 => CbcMac(c, rk, msg, b));
    assert st[0] == Zeros(16);
    forall b: nat {:trigger st[b]} | b < 7
      ensures st[b + 1] == Encrypt(c, rk, c.xor(st[b], msg[16 * b..16 * b + 16]))
    {
      assert CbcMac(c, rk, msg, b + 1) == Encrypt(c, rk, c.xor(CbcMac(c, rk, msg, b), BlockAt(msg, b)));
    }
    hide Encrypt;
    hide CbcMac;
    forall b: nat {:trigger st[b]} | b < 7
      ensures st[b + 1] == c.aesenclast(
                c.aesenc(c.aesenc(c.aesenc(c.aesenc(c.aesenc(c.aesenc(c.aesenc(c.aesenc(c.aesenc(
                  c.xor(c.xor(st[b], msg[16 * b..16 * b + 16]), rk[0]),
                  rk[1]), rk[2]), rk[3]), rk[4]), rk[5]), rk[6]), rk[7]), rk[8]), rk[9]), rk[10])
    {
      CipherRounds(c, rk, c.xor(st[b], msg[16 * b..16 * b + 16]));
    }
    assert MacStates(c, rk, msg, st);
  }

  /** The scalar label, from the primitives alone. */
  lemma LabelLaid(c: HashFunctions, algo: Algorithm, isSource: bool, index: nat, p0: Option<Digest>,
                  p1: Option<Digest>, seed: Digest, descriptor: Digest)
    ensures IsLabel(c, algo, isSource, index, p0, p1, seed, descriptor,
                    LabelOf(c, algo, isSource, index, p0, p1, seed, descriptor))
  {
    var q0 := if isSource then None else p0;
    var q1 := if isSource then None else p1;
    NodeMessageLaid(index, q0, q1, seed, descriptor);
    AesMessageLaid(index, q0, q1, descriptor);
    hide NodeLayout;
    hide AesLayout;
    hide NodeMessage;
    hide CbcMac;
    if algo.AesPrf? {
      var msg := AesMessage(index, q0, q1, descriptor);
      hide AesMessage;
      MacLaw(c, c.schedule(seed.bytes[..16]), msg);
      MacLaw(c, c.schedule(seed.bytes[16..]), msg);
      hide IsMac;
      var hi: seq<Byte> := CbcMac(c, c.schedule(seed.bytes[..16]), msg, 7);
      var lo: seq<Byte> := CbcMac(c, c.schedule(seed.bytes[16..]), msg, 7);
      assert AesLabel(c, seed, msg).bytes == hi + lo;
      assert (hi + lo)[..16] == hi && (hi + lo)[16..] == lo;
    }
  }

  /** A layout leaves no byte open. */
  lemma NodeLayoutUnique(a: seq<Byte>, b: seq<Byte>, index: nat, p0: Option<Digest>, p1: Option<Digest>, seed: Digest,
                         descriptor: Digest)
    requires NodeLayout(a, index, p0, p1, seed, descriptor) && NodeLayout(b, index, p0, p1, seed, descriptor)
    ensures a == b
  {
    OneReading(a, b, index);
    FieldUnique(a, b, 64, p0);
    FieldUnique(a, b, 96, p1);
    assert a[8..64] == b[8..64];
    assert a == a[..8] + a[8..64] + a[64..96] + a[96..128] + a[128..160] + a[160..192];
    assert b == b[..8] + b[8..64] + b[64..96] + b[96..128] + b[128..160] + b[160..192];
  }

  lemma AesLayoutUnique(a: seq<Byte>, b: seq<Byte>, index: nat, p0: Option<Digest>, p1: Option<Digest>,
                        descriptor: Digest)
    requires AesLayout(a, index, p0, p1, descriptor) && AesLayout(b, index, p0, p1, descriptor)
    ensures a == b
  {
    OneReading(a, b, index);
    FieldUnique(a, b, 16, p0);
    FieldUnique(a, b, 48, p1);
    assert a[8..16] == b[8..16];
    assert a == a[..8] + a[8..16] + a[16..48] + a[48..80] + a[80..112];
    assert b == b[..8] + b[8..16] + b[16..48] + b[48..80] + b[80..112];
  }

  lemma FieldUnique(a: seq<Byte>, b: seq<Byte>, at: nat, p: Option<Digest>)
    requires Field(a, at, p) && Field(b, at, p)
    ensures a[at..at + 32] == b[at..at + 32]
  {
    if p.None? {
      assert forall k :: at <= k < at + 32 ==> a[k] == b[k];
    }
  }

  lemma OneReading(a: seq<Byte>, b: seq<Byte>, index: nat)
    requires BigEndian(a, index) && BigEndian(b, index)
    ensures a[..8] == b[..8]
  {
    assert a[0] == b[0];
    assert a[1] == b[1];
    assert a[2] == b[2];
    assert a[3] == b[3];
    assert a[4] == b[4];
    assert a[5] == b[5];
    assert a[6] == b[6];
    assert a[7] == b[7];
  }

  // ---------- message buffers ----------

  method Put(msg: array<Byte>, at: nat, bytes: seq<Byte>)
    requires at + |bytes| <= msg.Length
    modifies msg
    ensures msg[..] == old(msg[..])[..at] + bytes + old(msg[..])[at + |bytes|..]
  {
    ghost var before := msg[..];
    for i := 0 to |bytes|
      invariant msg[..] == before[..at] + bytes[..i] + before[at + i..]
    {
      msg[at + i] := bytes[i];
      assert bytes[..i + 1] == bytes[..i] + [bytes[i]];
    }
  }

  /** Fills one message of a buffer whose old contents do not matter. */
  method BuildAesMsg(msg: array<Byte>, index: nat, p0: Option<Digest>, p1: Option<Digest>, descriptor: Digest)
    requires msg.Length == AES_MSG_BYTES
    modifies msg
    ensures msg[..] == AesMessage(index, p0, p1, descriptor)
    ensures AesLayout(msg[..], index, p0, p1, descriptor)
  {
    AesMessageLaid(index, p0, p1, descriptor);
    hide AesLayout;
    hide Index;
    hide Zeros;
    hide Pred;
    Put(msg, 0, Index(index));
    Put(msg, 8, Zeros(8));
    assert msg[..16] == Index(index) + Zeros(8);
    Put(msg, 16, Pred(p0));
    assert msg[..48] == Index(index) + Zeros(8) + Pred(p0);
    Put(msg, 48, Pred(p1));
    assert msg[..80] == Index(index) + Zeros(8) + Pred(p0) + Pred(p1);
    Put(msg, 80, descriptor.bytes);
  }

  /** Overwrite a zeroed field if the predecessor exists. */
  method PutPred(msg: array<Byte>, at: nat, p: Option<Digest>)
    requires at + 32 <= msg.Length && msg[at..at + 32] == Zeros(32)
    modifies msg
    ensures msg[..] == old(msg[..])[..at] + Pred(p) + old(msg[..])[at + 32..]
  {
    hide Zeros;
    if p.Some? {
      Put(msg, at, p.value.bytes);
    } else {
      assert msg[..] == msg[..at] + msg[at..at + 32] + msg[at + 32..];
    }
  }

  method BuildNodeMsg(msg: array<Byte>, index: nat, p0: Option<Digest>, p1: Option<Digest>, seed: Digest,
                      descriptor: Digest)
    requires msg.Length == NODE_MSG_BYTES
    modifies msg
    ensures msg[..] == NodeMessage(index, p0, p1, seed, descriptor)
    ensures NodeLayout(msg[..], index, p0, p1, seed, descriptor)
  {
    NodeMessageLaid(index, p0, p1, seed, descriptor);
    hide NodeLayout;
    hide Index;
    hide Pred;
    Put(msg, 0, Zeros(NODE_MSG_BYTES));
    assert msg[..] == Zeros(NODE_MSG_BYTES);
    Put(msg, 0, Index(index));
    AfterIndex(msg[..], Index(index));
    assert msg[..64] == Index(index) + Zeros(56) && msg[64..96] == Zeros(32) && msg[96..128] == Zeros(32);
    hide Zeros;
    PutPred(msg, 64, p0);
    assert msg[..96] == Index(index) + Zeros(56) + Pred(p0) && msg[96..128] == Zeros(32);
    PutPred(msg, 96, p1);
    assert msg[..128] == Index(index) + Zeros(56) + Pred(p0) + Pred(p1);
    Put(msg, 128, seed.bytes);
    assert msg[..160] == Index(index) + Zeros(56) + Pred(p0) + Pred(p1) + seed.bytes;
    Put(msg, 160, descriptor.bytes);
  }

  lemma AfterIndex(msg: seq<Byte>, index: seq<Byte>)
    requires |index| == 8 && msg == index + Zeros(NODE_MSG_BYTES)[8..]
    ensures msg[..64] == index + Zeros(56) && msg[64..96] == Zeros(32) && msg[96..128] == Zeros(32)
  {
    assert forall k {:trigger msg[k]} :: 8 <= k < |msg| ==> msg[k] == Zeros(NODE_MSG_BYTES)[k];
  }

  // ---------- AES ----------

  /** Round keys of the last seed seen; a hit skips the expansion. */
  class KeyCache {
    const c: HashFunctions
    var valid: bool
    var seed: Digest
    var rkHi: RoundKeys
    var rkLo: RoundKeys

    ghost predicate Valid()
      reads this
    {
      valid ==> rkHi == c.schedule(HighHalf(seed)) && rkLo == c.schedule(LowHalf(seed))
    }

    constructor (c: HashFunctions)
      ensures Valid() && this.c == c && !valid
    {
      this.c := c;
      valid := false;
      seed := Label(Zeros(32));
      rkHi, rkLo := seq(11, _ => Zeros(16)), seq(11, _ => Zeros(16));
    }

    /** Whatever was asked for before, the keys are those of this seed. */
    method GetRoundKeys(s: Digest)
      requires Valid()
      modifies this
      ensures Valid() && valid && seed == s
      ensures rkHi == c.schedule(HighHalf(s)) && rkLo == c.schedule(LowHalf(s))
    {
      if !valid || seed != s {
        rkHi := c.schedule(HighHalf(s));
        rkLo := c.schedule(LowHalf(s));
        seed := s;
        valid := true;
      }
    }
  }

  method CbcMacSingle(c: HashFunctions, rk: RoundKeys, msg: array<Byte>) returns (s: Block)
    requires msg.Length == AES_MSG_BYTES
    ensures s == CbcMac(c, rk, msg[..], AES_BLOCKS)
  {
    s := Zeros(16);
    for b := 0 to AES_BLOCKS
      invariant s == CbcMac(c, rk, msg[..], b)
    {
      assert msg[16 * b..16 * b + 16] == msg[..][16 * b..16 * b + 16];
      s := c.xor(s, msg[16 * b..16 * b + 16]);
      ghost var x := s;
      s := c.xor(s, rk[0]);
      for r := 1 to AES_ROUNDS
        invariant s == Rounds(c, rk, x, r - 1)
      {
        s := c.aesenc(s, rk[r]);
      }
      s := c.aesenclast(s, rk[AES_ROUNDS]);
    }
  }

  function Join(hi: Block, lo: Block): Digest {
    Label(hi + lo)
  }

  /** Label from its two MACs. */
  function Mac2(c: HashFunctions, hi: RoundKeys, lo: RoundKeys, msg: seq<Byte>): Digest
    requires |msg| == AES_MSG_BYTES
  {
    Join(CbcMac(c, hi, msg, AES_BLOCKS), CbcMac(c, lo, msg, AES_BLOCKS))
  }

  /** Eight chains, four messages under two keys, advanced together round by round. */
  method CbcMac4x2(c: HashFunctions, hi: RoundKeys, lo: RoundKeys, a: seq<Byte>, b: seq<Byte>, d: seq<Byte>,
                   e: seq<Byte>, outs: array<Label>, at: nat)
    requires |a| == |b| == |d| == |e| == AES_MSG_BYTES && at + 4 <= outs.Length
    modifies outs
    ensures outs[at] == Mac2(c, hi, lo, a) && outs[at + 1] == Mac2(c, hi, lo, b)
    ensures outs[at + 2] == Mac2(c, hi, lo, d) && outs[at + 3] == Mac2(c, hi, lo, e)
    ensures forall k {:trigger outs[k]} :: 0 <= k < outs.Length && !(at <= k < at + 4) ==> outs[k] == old(outs[k])
  {
    hide CbcMac;
    hide Join;
    var h0, l0, h1, l1, h2, l2, h3, l3 := Chains8(c, hi, lo, a, b, d, e);
    outs[at] := Join(h0, l0);
    outs[at + 1] := Join(h1, l1);
    outs[at + 2] := Join(h2, l2);
    outs[at + 3] := Join(h3, l3);
  }

  method Chains8(c: HashFunctions, hi: RoundKeys, lo: RoundKeys, a: seq<Byte>, b: seq<Byte>, d: seq<Byte>, e: seq<Byte>)
    returns (h0: Block, l0: Block, h1: Block, l1: Block, h2: Block, l2: Block, h3: Block, l3: Block)
    requires |a| == |b| == |d| == |e| == AES_MSG_BYTES
    ensures h0 == CbcMac(c, hi, a, AES_BLOCKS) && l0 == CbcMac(c, lo, a, AES_BLOCKS)
    ensures h1 == CbcMac(c, hi, b, AES_BLOCKS) && l1 == CbcMac(c, lo, b, AES_BLOCKS)
    ensures h2 == CbcMac(c, hi, d, AES_BLOCKS) && l2 == CbcMac(c, lo, d, AES_BLOCKS)
    ensures h3 == CbcMac(c, hi, e, AES_BLOCKS) && l3 == CbcMac(c, lo, e, AES_BLOCKS)
  {
    StartMac(c, hi, lo, a, b);
    StartMac(c, hi, lo, d, e);
    hide CbcMac;
    hide Zeros;
    h0, h1, h2, h3 := Zeros(16), Zeros(16), Zeros(16), Zeros(16);
    l0, l1, l2, l3 := Zeros(16), Zeros(16), Zeros(16), Zeros(16);
    for k := 0 to AES_BLOCKS
      invariant h0 == CbcMac(c, hi, a, k) && l0 == CbcMac(c, lo, a, k) && h1 == CbcMac(c, hi, b, k)
      invariant l1 == CbcMac(c, lo, b, k)
      invariant h2 == CbcMac(c, hi, d, k) && l2 == CbcMac(c, lo, d, k) && h3 == CbcMac(c, hi, e, k)
      invariant l3 == CbcMac(c, lo, e, k)
    {
      h0, l0, h1, l1, h2, l2, h3, l3 := Absorb8(c, hi, lo, k, a, b, d, e, h0, l0, h1, l1, h2, l2, h3, l3);
    }
  }

  lemma StartMac(c: HashFunctions, hi: RoundKeys, lo: RoundKeys, a: seq<Byte>, b: seq<Byte>)
    requires |a| == |b| == AES_MSG_BYTES
    ensures CbcMac(c, hi, a, 0) == CbcMac(c, lo, a, 0) == CbcMac(c, hi, b, 0) == CbcMac(c, lo, b, 0) == Zeros(16)
  {
  }

  /** Block `k` of all eight chains: CBC xor, then the cipher. */
  method Absorb8(c: HashFunctions, hi: RoundKeys, lo: RoundKeys, k: nat, a: seq<Byte>, b: seq<Byte>, d: seq<Byte>,
                 e: seq<Byte>, x0: Block, y0: Block, x1: Block, y1: Block, x2: Block, y2: Block, x3: Block, y3: Block)
    returns (h0: Block, l0: Block, h1: Block, l1: Block, h2: Block, l2: Block, h3: Block, l3: Block)
    requires |a| == |b| == |d| == |e| == AES_MSG_BYTES && k < AES_BLOCKS
    requires x0 == CbcMac(c, hi, a, k) && y0 == CbcMac(c, lo, a, k) && x1 == CbcMac(c, hi, b, k)
    requires y1 == CbcMac(c, lo, b, k)
    requires x2 == CbcMac(c, hi, d, k) && y2 == CbcMac(c, lo, d, k) && x3 == CbcMac(c, hi, e, k)
    requires y3 == CbcMac(c, lo, e, k)
    ensures h0 == CbcMac(c, hi, a, k + 1) && l0 == CbcMac(c, lo, a, k + 1) && h1 == CbcMac(c, hi, b, k + 1)
    ensures l1 == CbcMac(c, lo, b, k + 1)
    ensures h2 == CbcMac(c, hi, d, k + 1) && l2 == CbcMac(c, lo, d, k + 1) && h3 == CbcMac(c, hi, e, k + 1)
    ensures l3 == CbcMac(c, lo, e, k + 1)
  {
    hide Encrypt;
    var m0, m1, m2, m3 := BlockAt(a, k), BlockAt(b, k), BlockAt(d, k), BlockAt(e, k);
    h0, h1, h2, h3, l0, l1, l2, l3 :=
      Encrypt8(c, hi, lo, c.xor(x0, m0), c.xor(x1, m1), c.xor(x2, m2), c.xor(x3, m3),
               c.xor(y0, m0), c.xor(y1, m1), c.xor(y2, m2), c.xor(y3, m3));
  }

  method Encrypt8(c: HashFunctions, hi: RoundKeys, lo: RoundKeys,
                  x0: Block, x1: Block, x2: Block, x3: Block, y0: Block, y1: Block, y2: Block, y3: Block)
    returns (h0: Block, h1: Block, h2: Block, h3: Block, l0: Block, l1: Block, l2: Block, l3: Block)
    ensures h0 == Encrypt(c, hi, x0) && h1 == Encrypt(c, hi, x1) && h2 == Encrypt(c, hi, x2) && h3 == Encrypt(c, hi, x3)
    ensures l0 == Encrypt(c, lo, y0) && l1 == Encrypt(c, lo, y1) && l2 == Encrypt(c, lo, y2) && l3 == Encrypt(c, lo, y3)
  {
    h0, h1, h2, h3 := c.xor(x0, hi[0]), c.xor(x1, hi[0]), c.xor(x2, hi[0]), c.xor(x3, hi[0]);
    l0, l1, l2, l3 := c.xor(y0, lo[0]), c.xor(y1, lo[0]), c.xor(y2, lo[0]), c.xor(y3, lo[0]);
    for r := 1 to AES_ROUNDS
      invariant h0 == Rounds(c, hi, x0, r - 1) && h1 == Rounds(c, hi, x1, r - 1)
      invariant h2 == Rounds(c, hi, x2, r - 1) && h3 == Rounds(c, hi, x3, r - 1)
      invariant l0 == Rounds(c, lo, y0, r - 1) && l1 == Rounds(c, lo, y1, r - 1)
      invariant l2 == Rounds(c, lo, y2, r - 1) && l3 == Rounds(c, lo, y3, r - 1)
    {
      h0, h1, h2, h3 := c.aesenc(h0, hi[r]), c.aesenc(h1, hi[r]), c.aesenc(h2, hi[r]), c.aesenc(h3, hi[r]);
      l0, l1, l2, l3 := c.aesenc(l0, lo[r]), c.aesenc(l1, lo[r]), c.aesenc(l2, lo[r]), c.aesenc(l3, lo[r]);
    }
    h0, h1, h2, h3 := c.aesenclast(h0, hi[10]), c.aesenclast(h1, hi[10]), c.aesenclast(h2, hi[10]),
      c.aesenclast(h3, hi[10]);
    l0, l1, l2, l3 := c.aesenclast(l0, lo[10]), c.aesenclast(l1, lo[10]), c.aesenclast(l2, lo[10]),
      c.aesenclast(l3, lo[10]);
  }

  /** The arrays of predecessor labels a caller passes. An array may be missing, and so may any of its entries. */
  datatype Preds = Preds(first: Option<seq<Option<Digest>>>, second: Option<seq<Option<Digest>>>) {
    predicate Fit(n: nat) {
      && (first.Some? ==> |first.value| >= n)
      && (second.Some? ==> |second.value| >= n)
    }

    function P0(isSource: bool, i: nat): Option<Digest>
      requires Fit(i + 1)
    {
      if isSource || first.None? then None else first.value[i]
    }

    function P1(isSource: bool, i: nat): Option<Digest>
      requires Fit(i + 1)
    {
      if isSource || second.None? then None else second.value[i]
    }

    function From(base: nat): Preds
      requires Fit(base)
    {
      Preds(if first.Some? then Some(first.value[base..]) else None,
            if second.Some? then Some(second.value[base..]) else None)
    }
  }

  /** The label batch element `i` must get. */
  function Element(c: HashFunctions, algo: Algorithm, isSource: bool, indices: seq<nat>, preds: Preds, seed: Digest,
                   descriptor: Digest, i: nat): Digest
    requires i < |indices| && preds.Fit(i + 1)
  {
    LabelOf(c, algo, isSource, indices[i], preds.P0(isSource, i), preds.P1(isSource, i), seed, descriptor)
  }

  method NewMessage(index: nat, p0: Option<Digest>, p1: Option<Digest>, descriptor: Digest) returns (msg: array<Byte>)
    ensures fresh(msg) && msg.Length == AES_MSG_BYTES && msg[..] == AesMessage(index, p0, p1, descriptor)
  {
    msg := new Byte[AES_MSG_BYTES];
    BuildAesMsg(msg, index, p0, p1, descriptor);
  }

  /** Message of batch element `i`. */
  method ElementMessage(indices: seq<nat>, i: nat, isSource: bool, preds: Preds, descriptor: Digest)
    returns (msg: array<Byte>)
    requires i < |indices| && preds.Fit(i + 1)
    ensures fresh(msg) && msg.Length == AES_MSG_BYTES
    ensures msg[..] == AesMessage(indices[i], preds.P0(isSource, i), preds.P1(isSource, i), descriptor)
  {
    msg := NewMessage(indices[i], preds.P0(isSource, i), preds.P1(isSource, i), descriptor);
  }

  /** Entries [at, at + n) of `outs` are the batch's labels. */
  ghost predicate Labelled(c: HashFunctions, algo: Algorithm, isSource: bool, indices: seq<nat>, preds: Preds,
                           seed: Digest, descriptor: Digest, outs: seq<Label>, at: nat, n: nat)
  {
    && n <= |indices| && at + n <= |outs| && preds.Fit(n)
    && forall k {:trigger outs[k]} :: at <= k < at + n ==>
         ElementIs(c, algo, isSource, indices, preds, seed, descriptor, k - at, outs[k])
  }

  ghost predicate ElementIs(c: HashFunctions, algo: Algorithm, isSource: bool, indices: seq<nat>, preds: Preds,
                            seed: Digest, descriptor: Digest, i: nat, out: Label)
  {
    i < |indices| && preds.Fit(i + 1) && out == Element(c, algo, isSource, indices, preds, seed, descriptor, i)
  }

  lemma AesElement(cache: KeyCache, isSource: bool, indices: seq<nat>, preds: Preds, seed: Digest, descriptor: Digest,
                   i: nat)
    requires i < |indices| && preds.Fit(i + 1)
    requires cache.rkHi == cache.c.schedule(HighHalf(seed)) && cache.rkLo == cache.c.schedule(LowHalf(seed))
    ensures Element(cache.c, AesPrf, isSource, indices, preds, seed, descriptor, i) ==
            Mac2(cache.c, cache.rkHi, cache.rkLo,
                 AesMessage(indices[i], preds.P0(isSource, i), preds.P1(isSource, i), descriptor))
  {
  }

  lemma LabelledNext(c: HashFunctions, algo: Algorithm, isSource: bool, indices: seq<nat>, preds: Preds, seed: Digest,
                     descriptor: Digest, outs: seq<Label>, at: nat, n: nat, out: Label)
    requires Labelled(c, algo, isSource, indices, preds, seed, descriptor, outs, at, n)
    requires n < |indices| && at + n < |outs| && preds.Fit(n + 1)
    requires out == Element(c, algo, isSource, indices, preds, seed, descriptor, n)
    ensures Labelled(c, algo, isSource, indices, preds, seed, descriptor, outs[at + n := out], at, n + 1)
  {
    hide Element;
  }

  lemma BatchLaid(c: HashFunctions, algo: Algorithm, isSource: bool, indices: seq<nat>, preds: Preds, seed: Digest,
                  descriptor: Digest, outs: seq<Label>, at: nat, n: nat)
    requires Labelled(c, algo, isSource, indices, preds, seed, descriptor, outs, at, n)
    ensures forall i {:trigger indices[i]} :: 0 <= i < n ==>
              IsLabel(c, algo, isSource, indices[i], if preds.first.None? then None else preds.first.value[i],
                      if preds.second.None? then None else preds.second.value[i], seed, descriptor, outs[at + i])
  {
    hide LabelOf;
    hide IsLabel;
    forall i {:trigger indices[i]} | 0 <= i < n
      ensures IsLabel(c, algo, isSource, indices[i], if preds.first.None? then None else preds.first.value[i],
                      if preds.second.None? then None else preds.second.value[i], seed, descriptor, outs[at + i])
    {
      assert ElementIs(c, algo, isSource, indices, preds, seed, descriptor, at + i - at, outs[at + i]);
      var p0 := if preds.first.None? then None else preds.first.value[i];
      var p1 := if preds.second.None? then None else preds.second.value[i];
      SourceIgnores(c, algo, isSource, indices[i], p0, p1, seed, descriptor);
      LabelLaid(c, algo, isSource, indices[i], p0, p1, seed, descriptor);
    }
  }

  /** Predecessors passed for a source are ignored. */
  lemma SourceIgnores(c: HashFunctions, algo: Algorithm, isSource: bool, index: nat, p0: Option<Digest>,
                      p1: Option<Digest>, seed: Digest, descriptor: Digest)
    ensures LabelOf(c, algo, isSource, index, p0, p1, seed, descriptor)
         == LabelOf(c, algo, isSource, index, if isSource then None else p0, if isSource then None else p1, seed,
                    descriptor)
  {
  }

  /** Four elements take the interleaved path, any other number goes one by one; both give the scalar labels. */
  method AesPrfMany(cache: KeyCache, n: nat, outs: array<Label>, at: nat, isSource: bool, indices: seq<nat>,
                    preds: Preds, seed: Digest, descriptor: Digest)
    requires cache.Valid() && at + n <= outs.Length && |indices| >= n && preds.Fit(n)
    modifies cache, outs
    ensures cache.Valid()
    ensures Labelled(cache.c, AesPrf, isSource, indices, preds, seed, descriptor, outs[..], at, n)
    ensures forall i {:trigger indices[i]} :: 0 <= i < n ==>
              IsLabel(cache.c, AesPrf, isSource, indices[i], if preds.first.None? then None else preds.first.value[i],
                      if preds.second.None? then None else preds.second.value[i], seed, descriptor, outs[at + i])
    ensures forall k {:trigger outs[k]} :: 0 <= k < outs.Length && !(at <= k < at + n) ==> outs[k] == old(outs[k])
  {
    cache.GetRoundKeys(seed);
    if n == 4 {
      AesFour(cache, outs, at, isSource, indices, preds, seed, descriptor);
    } else {
      AesOneByOne(cache, n, outs, at, isSource, indices, preds, seed, descriptor);
    }
    BatchLaid(cache.c, AesPrf, isSource, indices, preds, seed, descriptor, outs[..], at, n);
  }

  method AesFour(cache: KeyCache, outs: array<Label>, at: nat, isSource: bool, indices: seq<nat>, preds: Preds,
                 seed: Digest, descriptor: Digest)
    requires at + 4 <= outs.Length && |indices| >= 4 && preds.Fit(4)
    requires cache.rkHi == cache.c.schedule(HighHalf(seed)) && cache.rkLo == cache.c.schedule(LowHalf(seed))
    modifies outs
    ensures Labelled(cache.c, AesPrf, isSource, indices, preds, seed, descriptor, outs[..], at, 4)
    ensures forall k {:trigger outs[k]} :: 0 <= k < outs.Length && !(at <= k < at + 4) ==> outs[k] == old(outs[k])
  {
    hide AesMessage;
    hide Element;
    hide Mac2;
    var m0 := ElementMessage(indices, 0, isSource, preds, descriptor);
    var m1 := ElementMessage(indices, 1, isSource, preds, descriptor);
    var m2 := ElementMessage(indices, 2, isSource, preds, descriptor);
    var m3 := ElementMessage(indices, 3, isSource, preds, descriptor);
    AesElement(cache, isSource, indices, preds, seed, descriptor, 0);
    AesElement(cache, isSource, indices, preds, seed, descriptor, 1);
    AesElement(cache, isSource, indices, preds, seed, descriptor, 2);
    AesElement(cache, isSource, indices, preds, seed, descriptor, 3);
    CbcMac4x2(cache.c, cache.rkHi, cache.rkLo, m0[..], m1[..], m2[..], m3[..], outs, at);
  }

  method AesOneByOne(cache: KeyCache, n: nat, outs: array<Label>, at: nat, isSource: bool, indices: seq<nat>,
                     preds: Preds, seed: Digest, descriptor: Digest)
    requires at + n <= outs.Length && |indices| >= n && preds.Fit(n)
    requires cache.rkHi == cache.c.schedule(HighHalf(seed)) && cache.rkLo == cache.c.schedule(LowHalf(seed))
    modifies outs
    ensures Labelled(cache.c, AesPrf, isSource, indices, preds, seed, descriptor, outs[..], at, n)
    ensures forall k {:trigger outs[k]} :: 0 <= k < outs.Length && !(at <= k < at + n) ==> outs[k] == old(outs[k])
  {
    hide AesMessage;
    hide Element;
    hide CbcMac;
    for i := 0 to n
      invariant Labelled(cache.c, AesPrf, isSource, indices, preds, seed, descriptor, outs[..], at, i)
      invariant forall k {:trigger outs[k]} :: 0 <= k < outs.Length && !(at <= k < at + i) ==> outs[k] == old(outs[k])
    {
      var msg := ElementMessage(indices, i, isSource, preds, descriptor);
      AesElement(cache, isSource, indices, preds, seed, descriptor, i);
      var hi := CbcMacSingle(cache.c, cache.rkHi, msg);
      var lo := CbcMacSingle(cache.c, cache.rkLo, msg);
      LabelledNext(cache.c, AesPrf, isSource, indices, preds, seed, descriptor, outs[..], at, i, Join(hi, lo));
      ghost var before := outs[..];
      outs[at + i] := Join(hi, lo);
      assert outs[..] == before[at + i := Join(hi, lo)];
    }
  }

  // ---------- labels ----------

  method LabelNode(cache: KeyCache, algo: Algorithm, isSource: bool, index: nat, p0: Option<Digest>, p1: Option<Digest>,
                   seed: Digest, descriptor: Digest) returns (out: Label)
    requires cache.Valid()
    modifies cache
    ensures cache.Valid()
    ensures out == LabelOf(cache.c, algo, isSource, index, p0, p1, seed, descriptor)
    ensures IsLabel(cache.c, algo, isSource, index, p0, p1, seed, descriptor, out)
  {
    LabelLaid(cache.c, algo, isSource, index, p0, p1, seed, descriptor);
    hide IsLabel;
    var q0 := if isSource then None else p0;
    var q1 := if isSource then None else p1;
    if algo.AesPrf? {
      var tmp := new Label[1](_ => seed);
      AesPrfMany(cache, 1, tmp, 0, isSource, [index], Preds(Some([q0]), Some([q1])), seed, descriptor);
      out := tmp[0];
      assert out == tmp[..][0];
    } else {
      var msg := new Byte[NODE_MSG_BYTES];
      BuildNodeMsg(msg, index, q0, q1, seed, descriptor);
      out := if algo.Sha256? then cache.c.sha256(msg[..])
        else cache.c.blake3(if isSource then Source else Internal, msg[..]);
    }
  }

  /** The AES groups of four with a shorter tail. */
  method LabelGroups(cache: KeyCache, n: nat, tmp: array<Label>, isSource: bool, indices: seq<nat>, preds: Preds,
                     seed: Digest, descriptor: Digest)
    requires cache.Valid() && n <= tmp.Length && |indices| >= n && preds.Fit(n)
    modifies cache, tmp
    ensures cache.Valid()
    ensures Labelled(cache.c, AesPrf, isSource, indices, preds, seed, descriptor, tmp[..], 0, n)
  {
    hide Element;
    var base := 0;
    while base < n
      invariant 0 <= base <= n && cache.Valid()
      invariant Labelled(cache.c, AesPrf, isSource, indices, preds, seed, descriptor, tmp[..], 0, base)
    {
      var b := if n - base < 4 then n - base else 4;
      ghost var before := tmp[..];
      AesPrfMany(cache, b, tmp, base, isSource, indices[base..], preds.From(base), seed, descriptor);
      assert tmp[..base] == before[..base];
      GroupsJoin(cache.c, isSource, indices, preds, seed, descriptor, before, tmp[..], base, b);
      base := base + b;
    }
  }

  lemma GroupsJoin(c: HashFunctions, isSource: bool, indices: seq<nat>, preds: Preds, seed: Digest, descriptor: Digest,
                   before: seq<Label>, after: seq<Label>, base: nat, b: nat)
    requires Labelled(c, AesPrf, isSource, indices, preds, seed, descriptor, before, 0, base) && |after| == |before|
    requires base + b <= |indices| && preds.Fit(base + b)
    requires Labelled(c, AesPrf, isSource, indices[base..], preds.From(base), seed, descriptor, after, base, b)
    requires after[..base] == before[..base]
    ensures Labelled(c, AesPrf, isSource, indices, preds, seed, descriptor, after, 0, base + b)
  {
    hide Element;
    forall k {:trigger after[k]} | 0 <= k < base + b
      ensures ElementIs(c, AesPrf, isSource, indices, preds, seed, descriptor, k, after[k])
    {
      if k < base {
        assert after[k] == after[..base][k] == before[..base][k] == before[k];
      } else {
        ElementFrom(c, isSource, indices, preds, seed, descriptor, base, k - base);
      }
    }
  }

  lemma ElementFrom(c: HashFunctions, isSource: bool, indices: seq<nat>, preds: Preds, seed: Digest,
                    descriptor: Digest, base: nat, i: nat)
    requires base + i < |indices| && preds.Fit(base + i + 1)
    ensures preds.From(base).Fit(i + 1)
    ensures Element(c, AesPrf, isSource, indices[base..], preds.From(base), seed, descriptor, i)
         == Element(c, AesPrf, isSource, indices, preds, seed, descriptor, base + i)
  {
  }

  /** Batch output i is the scalar label of element i, for every algorithm and whatever the key cache held before. */
  method LabelNodeMany(cache: KeyCache, algo: Algorithm, n: nat, isSource: bool, indices: seq<nat>, preds: Preds,
                       seed: Digest, descriptor: Digest, outs: array<Label>, at: nat)
    requires cache.Valid() && n <= LABEL_BATCH && at + n <= outs.Length && |indices| >= n && preds.Fit(n)
    modifies cache, outs
    ensures cache.Valid()
    ensures Labelled(cache.c, algo, isSource, indices, preds, seed, descriptor, outs[..], at, n)
    ensures forall i {:trigger indices[i]} :: 0 <= i < n ==>
              IsLabel(cache.c, algo, isSource, indices[i], if preds.first.None? then None else preds.first.value[i],
                      if preds.second.None? then None else preds.second.value[i], seed, descriptor, outs[at + i])
    ensures forall k {:trigger outs[k]} :: 0 <= k < outs.Length && !(at <= k < at + n) ==> outs[k] == old(outs[k])
  {
    hide Element;
    var tmp := new Label[LABEL_BATCH](_ => seed);
    if algo.AesPrf? {
      LabelGroups(cache, n, tmp, isSource, indices, preds, seed, descriptor);
    } else {
      LabelMessages(cache.c, algo, n, tmp, isSource, indices, preds, seed, descriptor);
    }
    ghost var ls := tmp[..];
    assert Labelled(cache.c, algo, isSource, indices, preds, seed, descriptor, ls, 0, n);
    for i := 0 to n
      invariant cache.Valid() && tmp[..] == ls
      invariant forall k {:trigger outs[k]} :: at <= k < at + i ==> outs[k] == ls[k - at]
      invariant forall k {:trigger outs[k]} :: 0 <= k < outs.Length && !(at <= k < at + i) ==> outs[k] == old(outs[k])
    {
      outs[at + i] := tmp[i];
    }
    forall k {:trigger outs[..][k]} | at <= k < at + n
      ensures ElementIs(cache.c, algo, isSource, indices, preds, seed, descriptor, k - at, outs[..][k])
    {
      assert outs[k] == ls[k - at];
    }
    BatchLaid(cache.c, algo, isSource, indices, preds, seed, descriptor, outs[..], at, n);
  }

  /** All messages first, then all hashes. */
  method LabelMessages(c: HashFunctions, algo: Algorithm, n: nat, tmp: array<Label>, isSource: bool,
                       indices: seq<nat>, preds: Preds, seed: Digest, descriptor: Digest)
    requires !algo.AesPrf? && n <= tmp.Length && |indices| >= n && preds.Fit(n)
    modifies tmp
    ensures Labelled(c, algo, isSource, indices, preds, seed, descriptor, tmp[..], 0, n)
  {
    hide NodeMessage;
    var msgs: seq<seq<Byte>> := [];
    for i := 0 to n
      invariant |msgs| == i
      invariant forall j {:trigger msgs[j]} :: 0 <= j < i ==>
                IsMessage(isSource, indices, preds, seed, descriptor, j, msgs[j])
    {
      var msg := new Byte[NODE_MSG_BYTES];
      BuildNodeMsg(msg, indices[i], preds.P0(isSource, i), preds.P1(isSource, i), seed, descriptor);
      msgs := msgs + [msg[..]];
    }
    for i := 0 to n
      invariant Labelled(c, algo, isSource, indices, preds, seed, descriptor, tmp[..], 0, i)
    {
      assert IsMessage(isSource, indices, preds, seed, descriptor, i, msgs[i]);
      ghost var before := tmp[..];
      tmp[i] := if algo.Sha256? then c.sha256(msgs[i]) else c.blake3(if isSource then Source else Internal, msgs[i]);
      assert tmp[..] == before[i := tmp[i]];
      LabelledNext(c, algo, isSource, indices, preds, seed, descriptor, before, 0, i, tmp[i]);
    }
  }

  /** The label of a graph node is the scalar label of its predecessors' labels. */
  lemma NodeLabelIs(c: HashFunctions, algo: Algorithm, index: nat, preds: seq<Digest>, seed: Digest, descriptor: Digest)
    requires |preds| <= 2
    ensures NodeLabel(Session(HashFor(c, algo), seed, descriptor), index, preds)
         == LabelOf(c, algo, |preds| == 0, index, if |preds| > 0 then Some(preds[0]) else None,
                    if |preds| > 1 then Some(preds[1]) else None, seed, descriptor)
    ensures IsLabel(c, algo, |preds| == 0, index, if |preds| > 0 then Some(preds[0]) else None,
                    if |preds| > 1 then Some(preds[1]) else None, seed, descriptor,
                    NodeLabel(Session(HashFor(c, algo), seed, descriptor), index, preds))
  {
    LabelLaid(c, algo, |preds| == 0, index, if |preds| > 0 then Some(preds[0]) else None,
              if |preds| > 1 then Some(preds[1]) else None, seed, descriptor);
    hide IsLabel;
    var ps: seq<Label> := preds;
    assert ps == preds && |ps| == |preds|;
    assert |preds| > 0 ==> Nth(ps, 0) == Some(preds[0]);
    assert |preds| > 1 ==> Nth(ps, 1) == Some(preds[1]);
    assert |preds| <= 1 ==> Nth(ps, 1) == None;
    assert AsDigest(seed) == seed && AsDigest(descriptor) == descriptor;
    assert HashFor(c, algo)(|ps| == 0, index, ps, seed, descriptor)
        == LabelOf(c, algo, |ps| == 0, index, Nth(ps, 0), Nth(ps, 1), AsDigest(seed), AsDigest(descriptor));
  }

  ghost predicate IsMessage(isSource: bool, indices: seq<nat>, preds: Preds, seed: Digest, descriptor: Digest, i: nat,
                            msg: seq<Byte>) {
    && i < |indices| && preds.Fit(i + 1)
    && msg == NodeMessage(indices[i], preds.P0(isSource, i), preds.P1(isSource, i), seed, descriptor)
  }
}
