/** The host's side of a signing: encoding, cutting into packets (js/src/index.js:73-163, 313-345). */
module HostClient {
  import opened Bytes
  import opened WireFormat

  const CHUNK_SIZE: nat := 250

  /** flatten */
  method FlattenParts(input: seq<seq<byte>>) returns (blob: seq<byte>)
    ensures blob == Flatten(input)
  {
    blob := [];
    assert input[..0] == [];
    for i := 0 to |input|
      invariant blob == Flatten(input[..i])
    {
      FlattenSnoc(input[..i], input[i]);
      assert input[..i + 1] == input[..i] + [input[i]];
      blob := blob + input[i];
    }
    assert input[..|input|] == input;
  }

  /** The two byte strings that each tag contributes. */
  function TagParts(tags: seq<Tag>): seq<seq<byte>> {
    if tags == [] then []
    else TagParts(tags[..|tags| - 1]) +
         [EncodeWithLen(tags[|tags| - 1].key), EncodeWithLen(tags[|tags| - 1].value)]
  }

  lemma {:induction false} EncodeTagsSnoc(tags: seq<Tag>, t: Tag)
    ensures EncodeTags(tags + [t]) == EncodeTags(tags) + (EncodeWithLen(t.key) + EncodeWithLen(t.value))
  {
    hide EncodeWithLen;
    if tags == [] {
      assert [] + [t] == [t] && [t][1..] == [];
      assert EncodeTags([t]) == EncodeWithLen(t.key) + EncodeWithLen(t.value) + EncodeTags([]);
    } else {
      assert (tags + [t])[1..] == tags[1..] + [t] && (tags + [t])[0] == tags[0];
      EncodeTagsSnoc(tags[1..], t);
    }
  }

  lemma {:induction false} TagPartsFlatten(tags: seq<Tag>)
    ensures Flatten(TagParts(tags)) == EncodeTags(tags)
  {
    hide EncodeWithLen;
    if tags != [] {
      var front, t := tags[..|tags| - 1], tags[|tags| - 1];
      TagPartsFlatten(front);
      EncodeTagsSnoc(front, t);
      assert tags == front + [t];
      var key, value := EncodeWithLen(t.key), EncodeWithLen(t.value);
      FlattenSnoc(TagParts(front), key);
      FlattenSnoc(TagParts(front) + [key], value);
      assert TagParts(front) + [key] + [value] == TagParts(front) + [key, value];
    }
  }

  /** encodeTx */
  method EncodeTx(tx: Tx) returns (blob: seq<byte>)
    ensures blob == Encode(tx)
  {
    hide EncodeWithLen, EncodeU16, EncodeTags;
    var serializedTags: seq<seq<byte>> := [];
    assert tx.tags[..0] == [];
    for i := 0 to |tx.tags|
      invariant serializedTags == TagParts(tx.tags[..i])
    {
      var currentTag := tx.tags[i];
      var encodedKey := EncodeWithLen(currentTag.key);
      var encodedVal := EncodeWithLen(currentTag.value);
      assert tx.tags[..i + 1][..i] == tx.tags[..i];
      assert serializedTags + [encodedKey] + [encodedVal] == serializedTags + [encodedKey, encodedVal];
      serializedTags := serializedTags + [encodedKey];
      serializedTags := serializedTags + [encodedVal];
    }
    assert tx.tags[..|tx.tags|] == tx.tags;
    TagPartsFlatten(tx.tags);

    var flatSerializedTags := FlattenParts(serializedTags);
    var tmp := [
      EncodeWithLen(tx.format),
      EncodeWithLen(tx.owner),
      EncodeWithLen(tx.target),
      EncodeWithLen(tx.quantity),
      EncodeWithLen(tx.reward),
      EncodeWithLen(tx.lastTx),
      EncodeU16(|tx.tags|),
      flatSerializedTags,
      EncodeWithLen(tx.dataSize),
      EncodeWithLen(tx.dataRoot)
    ];
    blob := FlattenParts(tmp);
    FlattenTen(tmp);
  }

  lemma FlattenTen(p: seq<seq<byte>>)
    requires |p| == 10
    ensures Flatten(p) == p[0] + (p[1] + (p[2] + (p[3] + (p[4] + (p[5] + (p[6] + (p[7] + (p[8] + p[9]))))))))
  {
    FlattenStep(p, 0);
    FlattenStep(p, 1);
    FlattenStep(p, 2);
    FlattenStep(p, 3);
    FlattenStep(p, 4);
    FlattenStep(p, 5);
    FlattenStep(p, 6);
    FlattenStep(p, 7);
    FlattenStep(p, 8);
    FlattenStep(p, 9);
    assert p[9] + Flatten(p[10..]) == p[9];
  }

  lemma FlattenStep(p: seq<seq<byte>>, k: nat)
    requires k < |p|
    ensures Flatten(p[k..]) == p[k] + Flatten(p[k + 1..])
    ensures k == 0 ==> p[k..] == p
  {
    assert p[k..][1..] == p[k + 1..];
  }

  // ----- packets -----------------------------------------------------------------

  /** Consecutive pieces of 250 bytes, the last one possibly shorter. */
  function Pieces(b: seq<byte>): seq<seq<byte>> {
    if b == [] then []
    else if |b| <= CHUNK_SIZE then [b]
    else [b[..CHUNK_SIZE]] + Pieces(b[CHUNK_SIZE..])
  }

  /** The packets of a message: twenty zero bytes first, then the pieces. */
  function Chunks(b: seq<byte>): seq<seq<byte>> {
    [Zeros(20)] + Pieces(b)
  }

  lemma {:induction false} PiecesSnoc(b: seq<byte>, at: nat)
    requires at % CHUNK_SIZE == 0 && at < |b|
    ensures var end := if at + CHUNK_SIZE < |b| then at + CHUNK_SIZE else |b|;
            Pieces(b[..end]) == Pieces(b[..at]) + [b[at..end]]
    decreases at
  {
    var end := if at + CHUNK_SIZE < |b| then at + CHUNK_SIZE else |b|;
    if at == 0 {
      assert b[..0] == [] && b[..end] == b[0..end];
    } else {
      var rest := b[CHUNK_SIZE..];
      PiecesSnoc(rest, at - CHUNK_SIZE);
      assert b[..at][CHUNK_SIZE..] == rest[..at - CHUNK_SIZE];
      assert b[..end][CHUNK_SIZE..] == rest[..end - CHUNK_SIZE];
      assert rest[at - CHUNK_SIZE..end - CHUNK_SIZE] == b[at..end];
      assert b[..end][..CHUNK_SIZE] == b[..CHUNK_SIZE];
      if at == CHUNK_SIZE {
        assert Pieces(b[..at]) == [b[..at]] == [b[..CHUNK_SIZE]] + Pieces(rest[..0]);
      } else {
        assert b[..at][..CHUNK_SIZE] == b[..CHUNK_SIZE];
      }
    }
  }

  /** The pieces are the message cut up: put together they give it back, none is empty and
      none is larger than a packet may be. */
  lemma {:induction false} PiecesFacts(b: seq<byte>)
    ensures Flatten(Pieces(b)) == b
    ensures forall i :: 0 <= i < |Pieces(b)| ==> 1 <= |Pieces(b)[i]| <= 250
    ensures forall i :: 0 <= i < |Pieces(b)| - 1 ==> |Pieces(b)[i]| == 250
    ensures b != [] ==> Pieces(b) != []
  {
    if |b| > CHUNK_SIZE {
      PiecesFacts(b[CHUNK_SIZE..]);
    } else if b != [] {
      assert Flatten([b]) == b + Flatten([]);
    }
  }

  lemma ChunksFacts(b: seq<byte>)
    ensures Chunks(b)[0] == Zeros(20) && Flatten(Chunks(b)[1..]) == b
  {
    hide Pieces, Flatten;
    PiecesFacts(b);
    assert Chunks(b)[1..] == Pieces(b);
  }

  /** prepareChunks */
  method PrepareChunks(message: Tx) returns (chunks: seq<seq<byte>>)
    ensures chunks == Chunks(Encode(message))
    ensures |chunks| >= 1 && chunks[0] == Zeros(20) && Flatten(chunks[1..]) == Encode(message)
  {
    hide Encode, Flatten;
    ChunksFacts(Encode(message));
    chunks := [];
    chunks := chunks + [Zeros(20)];
    var buffer := EncodeTx(message);
    var i := 0;
    while i < |buffer|
      invariant 0 <= i && i % CHUNK_SIZE == 0
      invariant chunks == [Zeros(20)] + Pieces(buffer[..if i < |buffer| then i else |buffer|])
    {
      var end := i + CHUNK_SIZE;
      if i > |buffer| {
        end := |buffer|;
      }
      PiecesSnoc(buffer, i);
      // subarray clamps its end to the length of the buffer
      var clamped := if end < |buffer| then end else |buffer|;
      chunks := chunks + [buffer[i..clamped]];
      i := i + CHUNK_SIZE;
    }
    assert buffer[..|buffer|] == buffer;
  }

  // ----- packet types --------------------------------------------------------------

  datatype PayloadType = PayloadInit | PayloadAdd | PayloadLast

  /** The payload type that signSendChunk gives to packet number idx of num (from 1). */
  function TypeOf(idx: nat, num: nat): PayloadType {
    if idx == num then PayloadLast else if idx == 1 then PayloadInit else PayloadAdd
  }
}
