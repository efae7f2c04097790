/** Output feedback encryption of a byte stream (CreateStreamReader in storeend.go), after section 6.4 of NIST SP
    800-38A. The block cipher is an arbitrary function of a key and a 16-byte block. */
module Ofb {
  import opened Common

  const BLOCK_SIZE := 16

  type Block = b: seq<byte> | |b| == BLOCK_SIZE witness seq(BLOCK_SIZE, _ => 0)

  type Cipher = (seq<byte>, Block) -> Block

  const ZERO_IV: Block := seq(BLOCK_SIZE, _ => 0)

  /** O_j of the standard, with O_0 the initialization vector: each output block is the next input block. */
  function Output(cipher: Cipher, key: seq<byte>, j: nat): Block {
    if j == 0 then ZERO_IV else cipher(key, Output(cipher, key, j - 1))
  }

  /** The key stream byte at a position of the stream. */
  function KeyByte(cipher: Cipher, key: seq<byte>, position: nat): byte {
    Output(cipher, key, position / BLOCK_SIZE + 1)[position % BLOCK_SIZE]
  }

  /** The stream form: every byte is combined with the key stream byte at its own position. */
  function Keyed(cipher: Cipher, key: seq<byte>, position: nat, data: seq<byte>): seq<byte> {
    seq(|data|, i requires 0 <= i < |data| => data[i] ^ KeyByte(cipher, key, position + i))
  }

  function Encrypt(cipher: Cipher, key: seq<byte>, data: seq<byte>): seq<byte> {
    Keyed(cipher, key, 0, data)
  }

  function XorPrefix(data: seq<byte>, block: Block): seq<byte>
    requires |data| <= BLOCK_SIZE
  {
    seq(|data|, i requires 0 <= i < |data| => data[i] ^ block[i])
  }

  /** The block form of the standard: C_j = P_j xor O_j, the last block using only the first bytes of its output. */
  function ByBlocks(cipher: Cipher, key: seq<byte>, input: Block, data: seq<byte>): seq<byte>
    decreases |data|
  {
    var output := cipher(key, input);
    if |data| <= BLOCK_SIZE then XorPrefix(data, output)
    else XorPrefix(data[..BLOCK_SIZE], output) + ByBlocks(cipher, key, output, data[BLOCK_SIZE..])
  }

  lemma KeyByteOfBlock(cipher: Cipher, key: seq<byte>, j: nat, i: nat)
    requires i < BLOCK_SIZE
    ensures KeyByte(cipher, key, j * BLOCK_SIZE + i) == Output(cipher, key, j + 1)[i]
  {
    assert (j * BLOCK_SIZE + i) / BLOCK_SIZE == j && (j * BLOCK_SIZE + i) % BLOCK_SIZE == i;
  }

  lemma KeyedShort(cipher: Cipher, key: seq<byte>, j: nat, data: seq<byte>)
    requires |data| <= BLOCK_SIZE
    ensures Keyed(cipher, key, j * BLOCK_SIZE, data) == XorPrefix(data, Output(cipher, key, j + 1))
  {
    forall i | 0 <= i < |data|
      ensures Keyed(cipher, key, j * BLOCK_SIZE, data)[i] == XorPrefix(data, Output(cipher, key, j + 1))[i]
    {
      KeyByteOfBlock(cipher, key, j, i);
    }
  }

  /** Encrypting in pieces, each piece at its own position, is encrypting the whole. */
  lemma KeyedConcat(cipher: Cipher, key: seq<byte>, position: nat, a: seq<byte>, b: seq<byte>)
    ensures Keyed(cipher, key, position, a + b) ==
            Keyed(cipher, key, position, a) + Keyed(cipher, key, position + |a|, b)
  {
    var left := Keyed(cipher, key, position, a + b);
    var right := Keyed(cipher, key, position, a) + Keyed(cipher, key, position + |a|, b);
    forall i | 0 <= i < |a| + |b| ensures left[i] == right[i] {
      if i >= |a| {
        assert position + i == position + |a| + (i - |a|);
      }
    }
  }

  /** The stream form computes what the standard prescribes block by block. */
  lemma {:induction false} StreamIsByBlocks(cipher: Cipher, key: seq<byte>, j: nat, data: seq<byte>)
    ensures Keyed(cipher, key, j * BLOCK_SIZE, data) == ByBlocks(cipher, key, Output(cipher, key, j), data)
    decreases |data|
  {
    if |data| <= BLOCK_SIZE {
      KeyedShort(cipher, key, j, data);
    } else {
      assert data == data[..BLOCK_SIZE] + data[BLOCK_SIZE..];
      KeyedConcat(cipher, key, j * BLOCK_SIZE, data[..BLOCK_SIZE], data[BLOCK_SIZE..]);
      KeyedShort(cipher, key, j, data[..BLOCK_SIZE]);
      assert j * BLOCK_SIZE + BLOCK_SIZE == (j + 1) * BLOCK_SIZE;
      StreamIsByBlocks(cipher, key, j + 1, data[BLOCK_SIZE..]);
    }
  }

  lemma XorTwice(a: byte, b: byte)
    ensures (a ^ b) ^ b == a
  {
  }

  /** Applying the stream twice at one position gives the data back, and a prefix gives back that prefix. */
  lemma KeyedTwice(cipher: Cipher, key: seq<byte>, position: nat, data: seq<byte>, n: nat)
    requires n <= |data|
    ensures Keyed(cipher, key, position, Keyed(cipher, key, position, data)[..n]) == data[..n]
  {
    var twice := Keyed(cipher, key, position, Keyed(cipher, key, position, data)[..n]);
    forall i | 0 <= i < n ensures twice[i] == data[..n][i] {
      XorTwice(data[i], KeyByte(cipher, key, position + i));
    }
  }

  /** Written out for the first 32 bytes: the first block is combined with the encryption of 16 zero bytes, the second
      with the encryption of that. */
  lemma FirstBlocks(cipher: Cipher, key: seq<byte>, data: seq<byte>, i: nat)
    requires i < |data| && i < 32
    ensures var zeros := seq(16, _ => 0);
      Encrypt(cipher, key, data)[i] ==
      data[i] ^ if i < 16 then cipher(key, zeros)[i] else cipher(key, cipher(key, zeros))[i - 16]
  {
    var zeros := seq(16, _ => 0);
    assert zeros == ZERO_IV && Output(cipher, key, 0) == ZERO_IV;
    assert Output(cipher, key, 1) == cipher(key, zeros) && Output(cipher, key, 2) == cipher(key, cipher(key, zeros));
    KeyByteOfBlock(cipher, key, i / 16, i % 16);
  }

  function Flatten(chunks: seq<seq<byte>>): seq<byte> {
    if chunks == [] then [] else chunks[0] + Flatten(chunks[1..])
  }

  lemma FlattenOne(chunk: seq<byte>)
    ensures Flatten([chunk]) == chunk
  {
    assert [chunk][1..] == [];
  }

  /** What comes out when the data arrives in these pieces and the stream carries its position from one to the next. */
  function KeyedChunks(cipher: Cipher, key: seq<byte>, position: nat, chunks: seq<seq<byte>>): seq<byte>
    decreases |chunks|
  {
    if chunks == [] then []
    else Keyed(cipher, key, position, chunks[0]) + KeyedChunks(cipher, key, position + |chunks[0]|, chunks[1..])
  }

  lemma {:induction false} ChunksDoNotMatter(cipher: Cipher, key: seq<byte>, position: nat, chunks: seq<seq<byte>>)
    ensures KeyedChunks(cipher, key, position, chunks) == Keyed(cipher, key, position, Flatten(chunks))
    decreases |chunks|
  {
    if chunks != [] {
      ChunksDoNotMatter(cipher, key, position + |chunks[0]|, chunks[1..]);
      KeyedConcat(cipher, key, position, chunks[0], Flatten(chunks[1..]));
    }
  }

  /** However the plaintext was cut on the way in and the ciphertext on the way out, reading any prefix of the
      ciphertext gives exactly that prefix of the plaintext. */
  lemma RoundTrip(cipher: Cipher, key: seq<byte>, written: seq<seq<byte>>, read: seq<seq<byte>>)
    requires Flatten(read) <= KeyedChunks(cipher, key, 0, written)
    ensures |KeyedChunks(cipher, key, 0, written)| == |Flatten(written)|
    ensures KeyedChunks(cipher, key, 0, read) == Flatten(written)[..|Flatten(read)|]
  {
    var plain := Flatten(written);
    ChunksDoNotMatter(cipher, key, 0, written);
    ChunksDoNotMatter(cipher, key, 0, read);
    KeyedTwice(cipher, key, 0, plain, |Flatten(read)|);
    assert Flatten(read) == Keyed(cipher, key, 0, plain)[..|Flatten(read)|];
  }

  datatype Status = More | Eof | Failed

  /** An io.Reader that delivers its data in the given pieces and then ends, or fails. */
  class Reader {
    var chunks: seq<seq<byte>>
    const fails: bool

    constructor (chunks: seq<seq<byte>>, fails: bool)
      ensures this.chunks == chunks && this.fails == fails
    {
      this.chunks := chunks;
      this.fails := fails;
    }

    method Read() returns (chunk: seq<byte>, status: Status)
      modifies this
      ensures old(chunks) != [] ==> chunk == old(chunks)[0] && chunks == old(chunks)[1..] && status == More
      ensures old(chunks) == [] ==> chunk == [] && chunks == [] && status == if fails then Failed else Eof
    {
      if chunks == [] {
        return [], if fails then Failed else Eof;
      }
      chunk, status := chunks[0], More;
      chunks := chunks[1..];
    }
  }

  /** cipher.NewOFB: the current output block and how many of its bytes are used up. */
  class OfbStream {
    const cipher: Cipher
    const key: seq<byte>
    var out: Block
    var used: nat
    ghost var blocks: nat

    constructor (cipher: Cipher, key: seq<byte>)
      ensures Valid() && Position() == 0
      ensures this.cipher == cipher && this.key == key
    {
      this.cipher, this.key := cipher, key;
      out, used, blocks := ZERO_IV, BLOCK_SIZE, 0;
    }

    ghost predicate Valid()
      reads this
    {
      used <= BLOCK_SIZE && out == Output(cipher, key, blocks) && (blocks == 0 ==> used == BLOCK_SIZE)
    }

    ghost function Position(): nat
      requires Valid()
      reads this
    {
      if blocks == 0 then 0 else (blocks - 1) * BLOCK_SIZE + used
    }

    method NextKeyByte() returns (b: byte)
      requires Valid()
      modifies this
      ensures Valid() && Position() == old(Position()) + 1
      ensures b == KeyByte(cipher, key, old(Position()))
    {
      ghost var position := Position();
      if used == BLOCK_SIZE {
        out, used, blocks := cipher(key, out), 0, blocks + 1;
        assert Position() == position;
      }
      KeyByteOfBlock(cipher, key, blocks - 1, used);
      b := out[used];
      used := used + 1;
    }

    method XorKeyStream(src: seq<byte>) returns (dst: seq<byte>)
      requires Valid()
      modifies this
      ensures Valid() && Position() == old(Position()) + |src|
      ensures dst == Keyed(cipher, key, old(Position()), src)
    {
      dst := [];
      for i := 0 to |src|
        invariant Valid() && Position() == old(Position()) + i
        invariant dst == Keyed(cipher, key, old(Position()), src)[..i]
      {
        var b := NextKeyByte();
        dst := dst + [src[i] ^ b];
      }
    }
  }

  predicate ValidKeyLength(key: seq<byte>) {
    |key| == 16 || |key| == 24 || |key| == 32
  }

  class StreamReader {
    const stream: OfbStream
    const source: Reader

    constructor (stream: OfbStream, source: Reader)
      ensures this.stream == stream && this.source == source
    {
      this.stream, this.source := stream, source;
    }

    /** The bytes that reading on will deliver. */
    ghost function Remaining(): seq<byte>
      requires stream.Valid()
      reads this, stream, source
    {
      Keyed(stream.cipher, stream.key, stream.Position(), Flatten(source.chunks))
    }

    method Read() returns (chunk: seq<byte>, status: Status)
      requires stream.Valid()
      modifies stream, source
      ensures stream.Valid()
      ensures old(Remaining()) == chunk + Remaining()
      ensures status == (if old(source.chunks) != [] then More else if source.fails then Failed else Eof)
      ensures |source.chunks| == (if old(source.chunks) != [] then |old(source.chunks)| - 1 else 0)
    {
      ghost var position := stream.Position();
      ghost var chunks := source.chunks;
      chunk, status := source.Read();
      ghost var taken := chunk;
      chunk := stream.XorKeyStream(chunk);
      KeyedConcat(stream.cipher, stream.key, position, taken, Flatten(source.chunks));
    }
  }

  /** With a key of a length the block cipher does not know there is no reader; otherwise what it will deliver is the
      data with the key stream applied from its start. */
  method CreateStreamReader(cipher: Cipher, key: seq<byte>, data: Reader) returns (reader: StreamReader?)
    ensures reader == null <==> |key| !in {16, 24, 32}
    ensures reader != null ==>
      && fresh(reader) && fresh(reader.stream) && reader.source == data
      && reader.stream.Valid() && reader.Remaining() == Encrypt(cipher, key, Flatten(data.chunks))
  {
    if !ValidKeyLength(key) {
      return null;
    }
    var stream := new OfbStream(cipher, key);
    reader := new StreamReader(stream, data);
  }

  lemma AppendMiddle(a: seq<byte>, b: seq<byte>, c: seq<byte>)
    ensures a + (b + c) == (a + b) + c
  {
  }

  /** io.ReadAll on such a reader. */
  method ReadAll(reader: StreamReader) returns (data: seq<byte>, ok: bool)
    requires reader.stream.Valid()
    modifies reader.stream, reader.source
    ensures reader.stream.Valid()
    ensures data == old(reader.Remaining()) && (ok <==> !reader.source.fails)
  {
    data := [];
    ghost var all := reader.Remaining();
    var status := More;
    while status == More
      invariant reader.stream.Valid()
      invariant all == data + reader.Remaining()
      invariant status != More ==> reader.source.chunks == [] && status == if reader.source.fails then Failed else Eof
      decreases |reader.source.chunks|, status == More
    {
      ghost var rest := reader.Remaining();
      var chunk;
      chunk, status := reader.Read();
      AppendMiddle(data, chunk, reader.Remaining());
      data := data + chunk;
    }
    ok := status == Eof;
  }
}
