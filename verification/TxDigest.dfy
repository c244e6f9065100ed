/** The two ways of computing SHA-384 (app/src/crypto_helper.c:26-41). */
module HashUnits {
  import opened DeepHashSpec
  import Fips180

  /** What crypto_sha384 runs: the hash of the SDK, which may report errors, or on other
      targets the engine of this repository, which never does. */
  datatype HashUnit = SdkHash(faulty: bool) | Engine {
    predicate Faulty() {
      SdkHash? && faulty
    }

    ghost predicate Computes(h: Hash) {
      Engine? ==> forall s {:trigger Fips180.Sha384(s)} :: h(s) == Fips180.Sha384(s)
    }
  }
}

/** The deep hash as the device computes it, in place (app/src/parser.c:60-160). */
module TxDigest {
  import opened Bytes
  import opened CStrings
  import opened WireFormat
  import opened DeepHashSpec
  import opened TxParser
  import opened HashUnits
  import Fips180
  import Sha384Stream

  const SHA384_DIGEST_LEN: nat := 48

  // The 96-byte buffers of this file have two halves of 48 bytes.
  lemma Halves(s: seq<byte>, d: seq<byte>, e: seq<byte>)
    requires |s| == 96 && |d| == |e| == 48
    ensures Splice(s, 0, d)[..48] == d && Splice(s, 0, d)[48..] == s[48..]
    ensures Splice(s, 48, e)[..48] == s[..48] && Splice(s, 48, e)[48..] == e
    ensures Splice(Splice(s, 0, d), 48, e) == d + e
    ensures s == s[..48] + s[48..]
  {
  }

  /** crypto_sha384: writes 48 bytes at its destination; they are the hash if it reports no
      error. The engine fills a buffer of 64 bytes, of which the first 48 are kept. */
  method CryptoSha384(h: Hash, unit: HashUnit, input: seq<byte>, out: array<byte>, at: nat)
    returns (ok: bool, ghost d: seq<byte>)
    requires unit.Computes(h) && |input| < 0x1_0000_0000
    requires at + 48 <= out.Length
    modifies out
    ensures |d| == 48 && out[..] == Splice(old(out[..]), at, d)
    ensures ok ==> d == h(input)
    ensures ok || unit.Faulty()
  {
    hide Fips180.Sha384, Fips180.Sha384Words, Fips180.StateBytes;
    ok := true;
    if unit.Engine? {
      var tmp := new byte[64](_ => 0);
      Sha384Stream.Sha384Into(input, tmp);
      MemCopy(out, at, tmp[..48]);
      d := h(input);
      return;
    }
    if unit.Faulty() { ok := *; }
    if ok {
      MemCopy(out, at, h(input));
      d := h(input);
    } else {
      d := out[at..at + 48];
    }
  }

  /** hashTag */
  method HashTag(h: Hash, unit: HashUnit, out: array<byte>, at: nat, tagName: seq<byte>, tagNumber: u16)
    returns (status: Status, ghost d: seq<byte>)
    requires unit.Computes(h)
    requires at + 48 <= out.Length
    requires |tagName| == 4 && forall i :: 0 <= i < 4 ==> tagName[i] != 0
    modifies out
    ensures |d| == 48 && out[..] == Splice(old(out[..]), at, d)
    ensures status == Accepted || (unit.Faulty() && status == Rejected(UnexpectedError))
    ensures status == Accepted ==> d == h(TagText(tagName, tagNumber))
  {
    hide Splice;
    var tagBuffer := new byte[50](_ => 0);
    var text := TagText(tagName, tagNumber);
    TagTextIsShort(tagName, tagNumber);
    Snprintf(tagBuffer, 50, text);
    UpToNulOfText(text, tagBuffer[|text| + 1..]);
    var ok;
    ok, d := CryptoSha384(h, unit, UpToNul(tagBuffer[..]), out, at);
    status := if ok then Accepted else Rejected(UnexpectedError);
  }

  /** hashBlob: tagHash and dataHash are the halves of one buffer. */
  method HashBlob(h: Hash, unit: HashUnit, out: array<byte>, at: nat, data: seq<byte>)
    returns (status: Status, ghost d: seq<byte>)
    requires unit.Computes(h)
    requires at + 48 <= out.Length && |data| < 0x1_0000
    modifies out
    ensures |d| == 48 && out[..] == Splice(old(out[..]), at, d)
    ensures status == Accepted || (unit.Faulty() && status == Rejected(UnexpectedError))
    ensures status == Accepted ==> d == DeepHash(h, Blob(data))
  {
    hide DeepHash, TagText, Preimages, Splice;
    BlobInput(h, data);
    ghost var tagHash, dataHash;
    d := out[at..at + 48];
    SpliceSame(out[..], at, d);
    var blob := new byte[96](_ => 0);
    ghost var zeros := blob[..];
    status, tagHash := HashTag(h, unit, blob, 0, BLOB, |data|);
    if status != Accepted { return; }
    var ok;
    ok, dataHash := CryptoSha384(h, unit, data, blob, 48);
    if !ok { return Rejected(UnexpectedError), d; }
    Halves(zeros, tagHash, dataHash);
    ok, d := CryptoSha384(h, unit, blob[..], out, at);
    status := if ok then Accepted else Rejected(UnexpectedError);
  }

  /** deepHash_t: an accumulator and a hash side by side, so that both together can be
      hashed as one pair. */
  class DeepHashState {
    const pair: array<byte>

    constructor ()
      ensures pair.Length == 96 && fresh(pair)
    {
      pair := new byte[96](_ => 0);
    }

    function Acc(): (acc: seq<byte>)
      requires pair.Length == 96
      reads pair
      ensures |acc| == 48
    {
      pair[..][..48]
    }

    function HashHalf(): seq<byte>
      requires pair.Length == 96
      reads pair
    {
      pair[..][48..]
    }

    /** hashAccumulate */
    method Accumulate(h: Hash, unit: HashUnit) returns (status: Status)
      requires unit.Computes(h)
      requires pair.Length == 96
      modifies pair
      ensures status == Accepted || (unit.Faulty() && status == Rejected(UnexpectedError))
      ensures status == Accepted ==> Acc() == h(old(Acc()) + old(HashHalf()))
    {
      hide Splice;
      var temp := new byte[48](_ => 0);
      var ok;
      ghost var d;
      ghost var before, zeros := pair[..], temp[..];
      ok, d := CryptoSha384(h, unit, pair[..], temp, 0);
      if !ok { return Rejected(UnexpectedError); }
      WholeSplice(zeros, d);
      MemCopy(pair, 0, temp[..]);
      Halves(before, d, d);
      status := Accepted;
    }

    /** hashChunkWithAccumulator */
    method AddBlob(h: Hash, unit: HashUnit, data: seq<byte>) returns (status: Status)
      requires unit.Computes(h)
      requires pair.Length == 96 && |data| < 0x1_0000
      modifies pair
      ensures status == Accepted || (unit.Faulty() && status == Rejected(UnexpectedError))
      ensures status == Accepted ==> Acc() == h(old(Acc()) + DeepHash(h, Blob(data)))
    {
      hide DeepHash, Splice;
      ghost var d;
      ghost var before := pair[..];
      status, d := HashBlob(h, unit, pair, 48, data);
      if status != Accepted { return; }
      Halves(before, d, d);
      status := Accumulate(h, unit);
    }

    /** A digest computed elsewhere is copied next to the accumulator and folded into it. */
    method AddHash(h: Hash, unit: HashUnit, digest: seq<byte>) returns (status: Status)
      requires unit.Computes(h)
      requires pair.Length == 96 && |digest| == 48
      modifies pair
      ensures status == Accepted || (unit.Faulty() && status == Rejected(UnexpectedError))
      ensures status == Accepted ==> Acc() == h(old(Acc()) + digest)
    {
      hide Splice;
      Halves(pair[..], digest, digest);
      MemCopy(pair, 48, digest);
      status := Accumulate(h, unit);
    }

    /** The bootstrap: the accumulator of a list starts with the tag of the list. */
    method Start(h: Hash, unit: HashUnit, n: u16) returns (status: Status)
      requires unit.Computes(h)
      requires pair.Length == 96
      modifies pair
      ensures status == Accepted || (unit.Faulty() && status == Rejected(UnexpectedError))
      ensures status == Accepted ==> Acc() == Chain(h, n, [])
    {
      ghost var d;
      ghost var before := pair[..];
      status, d := HashTag(h, unit, pair, 0, LIST, n);
      Halves(before, d, d);
    }
  }

  lemma SpliceSame(s: seq<byte>, at: nat, d: seq<byte>)
    requires at + |d| <= |s| && d == s[at..at + |d|]
    ensures Splice(s, at, d) == s
  {
  }

  lemma WholeSplice(s: seq<byte>, d: seq<byte>)
    requires |s| == |d|
    ensures Splice(s, 0, d) == d
  {
  }

  /** One more child of a list. */
  lemma ChainSnoc(h: Hash, n: nat, items: seq<Chunk>, c: Chunk)
    ensures Chain(h, n, items + [c]) == h(Chain(h, n, items) + DeepHash(h, c))
  {
    hide DeepHash;
    assert (items + [c])[..|items|] == items;
  }

  /** parser_getTagDigest */
  method GetTagDigest(h: Hash, unit: HashUnit, digest: array<byte>, at: nat, data: seq<byte>, tag: TagElement)
    returns (status: Status, ghost d: seq<byte>)
    requires unit.Computes(h)
    requires at + 48 <= digest.Length && tag.InBounds(data)
    modifies digest
    ensures |d| == 48 && digest[..] == Splice(old(digest[..]), at, d)
    ensures status == Accepted || (unit.Faulty() && status == Rejected(UnexpectedError))
    ensures status == Accepted ==> d == DeepHash(h, TagTree(tag.Tag(data)))
  {
    hide DeepHash, Chain, TagTree, Splice;
    TagTreeChain(h, tag.Tag(data));
    d := Zeros(48);
    MemCopy(digest, at, Zeros(48));
    var ctx := new DeepHashState();
    status := ctx.Start(h, unit, 2);
    if status != Accepted { return; }
    status := ctx.AddBlob(h, unit, tag.key.Bytes(data));
    if status != Accepted { return; }
    status := ctx.AddBlob(h, unit, tag.value.Bytes(data));
    if status != Accepted { return; }
    d := ctx.Acc();
    SpliceTwice(old(digest[..]), at, Zeros(48), d);
    MemCopy(digest, at, ctx.Acc());
  }

  lemma SpliceTwice(s: seq<byte>, at: nat, d: seq<byte>, e: seq<byte>)
    requires |d| == |e| && at + |d| <= |s|
    ensures Splice(Splice(s, at, d), at, e) == Splice(s, at, e)
  {
  }

  lemma TagTreeChain(h: Hash, t: Tag)
    ensures DeepHash(h, TagTree(t))
         == h(h(Chain(h, 2, []) + DeepHash(h, Blob(t.key))) + DeepHash(h, Blob(t.value)))
  {
    hide DeepHash;
    var items := [Blob(t.key), Blob(t.value)];
    ListInput(h, items);
    ChainSnoc(h, 2, [], Blob(t.key));
    ChainSnoc(h, 2, [Blob(t.key)], Blob(t.value));
    assert [] + [Blob(t.key)] == [Blob(t.key)] && [Blob(t.key)] + [Blob(t.value)] == items;
  }

  /** The loop body of parser_applyDigestTags. */
  method AddTag(h: Hash, unit: HashUnit, ctx: DeepHashState, data: seq<byte>, tag: TagElement)
    returns (status: Status)
    requires unit.Computes(h)
    requires ctx.pair.Length == 96 && tag.InBounds(data)
    modifies ctx.pair
    ensures status == Accepted || (unit.Faulty() && status == Rejected(UnexpectedError))
    ensures status == Accepted ==> ctx.Acc() == h(old(ctx.Acc()) + DeepHash(h, TagTree(tag.Tag(data))))
  {
    hide DeepHash, TagTree, Splice;
    ghost var d;
    ghost var before := ctx.pair[..];
    status, d := GetTagDigest(h, unit, ctx.pair, 48, data, tag);
    if status != Accepted { return; }
    Halves(before, d, d);
    status := ctx.Accumulate(h, unit);
  }

  /** The loop of parser_applyDigestTags: one digest per tag into the accumulator. */
  method AccumulateTags(h: Hash, unit: HashUnit, ctx: DeepHashState, data: seq<byte>, tags: seq<TagElement>)
    returns (status: Status)
    requires unit.Computes(h)
    requires ctx.pair.Length == 96 && forall i :: 0 <= i < |tags| ==> tags[i].InBounds(data)
    requires ctx.Acc() == Chain(h, |tags|, [])
    modifies ctx.pair
    ensures status == Accepted || (unit.Faulty() && status == Rejected(UnexpectedError))
    ensures status == Accepted ==> ctx.Acc() == DeepHash(h, List(TagTrees(TagViews(data, tags))))
  {
    hide DeepHash, Chain, TagTree, TagTrees, TagViews;
    ghost var trees := TagTrees(TagViews(data, tags));
    TreesOfTable(data, tags);
    status := Accepted;
    for i := 0 to |tags|
      invariant status == Accepted
      invariant ctx.Acc() == Chain(h, |tags|, trees[..i])
    {
      status := AddTag(h, unit, ctx, data, tags[i]);
      if status != Accepted { return; }
      ChainSnoc(h, |tags|, trees[..i], trees[i]);
      assert trees[..i + 1] == trees[..i] + [trees[i]];
    }
    assert trees[..|tags|] == trees;
    ListInput(h, trees);
  }

  lemma TreesOfTable(data: seq<byte>, elements: seq<TagElement>)
    requires forall i :: 0 <= i < |elements| ==> elements[i].InBounds(data)
    ensures var trees := TagTrees(TagViews(data, elements));
            |trees| == |elements| && forall i :: 0 <= i < |elements| ==> trees[i] == TagTree(elements[i].Tag(data))
  {
  }

  /** parser_applyDigestTags: the digest of the tag list, computed in an accumulator of its
      own, becomes the next child of the transaction. */
  method ApplyDigestTags(h: Hash, unit: HashUnit, dh: DeepHashState, data: seq<byte>, tx: TxObject)
    returns (status: Status)
    requires unit.Computes(h)
    requires dh.pair.Length == 96 && tx.InBounds(data)
    modifies dh.pair
    ensures status == Accepted || (unit.Faulty() && status == Rejected(UnexpectedError))
    ensures status == Accepted ==>
              dh.Acc() == h(old(dh.Acc()) + DeepHash(h, List(TagTrees(tx.View(data).tags))))
  {
    hide DeepHash, Chain, TagTrees, Splice;
    var ctx := new DeepHashState();
    status := ctx.Start(h, unit, tx.tagsCount);
    if status != Accepted { return; }
    status := AccumulateTags(h, unit, ctx, data, tx.tags[..tx.tagsCount]);
    if status != Accepted { return; }
    status := dh.AddHash(h, unit, ctx.Acc());
  }

  /** parser_getDigest */
  method GetDigest(h: Hash, unit: HashUnit, digest: array<byte>, data: seq<byte>, tx: TxObject) returns (status: Status)
    requires unit.Computes(h)
    requires tx.InBounds(data)
    modifies digest
    ensures digest.Length < SHA384_DIGEST_LEN ==>
              status == Rejected(UnexpectedBufferEnd) && digest[..] == old(digest[..])
    ensures digest.Length >= SHA384_DIGEST_LEN && status != Accepted ==>
              unit.Faulty() && status == Rejected(UnexpectedError) && digest[..] == Zeros(digest.Length)
    ensures status == Accepted ==>
              && digest.Length >= SHA384_DIGEST_LEN
              && digest[..48] == DeepHash(h, TxTree(tx.View(data)))
              && digest[48..] == Zeros(digest.Length - 48)
  {
    hide DeepHash, TxTree;
    if digest.Length < SHA384_DIGEST_LEN {
      return Rejected(UnexpectedBufferEnd);
    }
    MemZero(digest);
    var ctx := new DeepHashState();
    status := AccumulateTx(h, unit, ctx, data, tx);
    if status != Accepted { return; }
    MemCopy(digest, 0, ctx.Acc());
  }

  /** The accumulator of parser_getDigest. */
  method AccumulateTx(h: Hash, unit: HashUnit, ctx: DeepHashState, data: seq<byte>, tx: TxObject)
    returns (status: Status)
    requires unit.Computes(h)
    requires ctx.pair.Length == 96 && tx.InBounds(data)
    modifies ctx.pair
    ensures status == Accepted || (unit.Faulty() && status == Rejected(UnexpectedError))
    ensures status == Accepted ==> ctx.Acc() == DeepHash(h, TxTree(tx.View(data)))
  {
    hide DeepHash, Chain, TxTree, TagTrees, FrontChain;
    TxTreeChain(h, tx.View(data));
    status := ctx.Start(h, unit, 9);
    if status != Accepted { return; }
    status := AddFront(h, unit, ctx, data, tx);
    if status != Accepted { return; }

    // between the front fields and the data fields
    status := ApplyDigestTags(h, unit, ctx, data, tx);
    if status != Accepted { return; }

    status := ctx.AddBlob(h, unit, tx.dataSize.Bytes(data));
    if status != Accepted { return; }
    status := ctx.AddBlob(h, unit, tx.dataRoot.Bytes(data));
  }

  /** The fields in front of the tags. */
  method AddFront(h: Hash, unit: HashUnit, ctx: DeepHashState, data: seq<byte>, tx: TxObject)
    returns (status: Status)
    requires unit.Computes(h)
    requires ctx.pair.Length == 96 && tx.InBounds(data)
    modifies ctx.pair
    ensures status == Accepted || (unit.Faulty() && status == Rejected(UnexpectedError))
    ensures status == Accepted ==> ctx.Acc() == FrontChain(h, old(ctx.Acc()), tx.View(data))
  {
    hide DeepHash, HashUnit.Computes, HashUnit.Faulty, TagViews;
    status := ctx.AddBlob(h, unit, tx.format.Bytes(data));
    if status != Accepted { return; }
    status := ctx.AddBlob(h, unit, tx.owner.Bytes(data));
    if status != Accepted { return; }
    status := ctx.AddBlob(h, unit, tx.target.Bytes(data));
    if status != Accepted { return; }
    status := ctx.AddBlob(h, unit, tx.quantity.Bytes(data));
    if status != Accepted { return; }
    status := ctx.AddBlob(h, unit, tx.reward.Bytes(data));
    if status != Accepted { return; }
    status := ctx.AddBlob(h, unit, tx.lastTx.Bytes(data));
  }

  /** The accumulator after six more blobs. */
  ghost function FrontChain(h: Hash, acc: seq<byte>, t: Tx): seq<byte>
    requires |acc| == 48
  {
    h(h(h(h(h(h(acc + DeepHash(h, Blob(t.format))) + DeepHash(h, Blob(t.owner)))
                    + DeepHash(h, Blob(t.target))) + DeepHash(h, Blob(t.quantity)))
                    + DeepHash(h, Blob(t.reward))) + DeepHash(h, Blob(t.lastTx)))
  }

  /** The hash of a blob, with the size of the blob in decimal. */
  function BlobHash(h: Hash, size: seq<byte>, data: seq<byte>): seq<byte> {
    h(h(Ascii("blob") + size) + h(data))
  }

  /** The digest of a transaction written out: nine children, each folded into the accumulator
      that starts with the tag of the list. */
  lemma DigestInWords(h: Hash, tx: Tx)
    requires Valid(tx)
    ensures var a0 := h(Ascii("list9"));
            var a1 := h(a0 + h(h(Ascii("blob1")) + h(Ascii("2"))));
            var a2 := h(a1 + h(h(Ascii("blob512")) + h(tx.owner)));
            var a3 := h(a2 + BlobHash(h, Decimal(|tx.target|), tx.target));
            var a4 := h(a3 + BlobHash(h, Decimal(|tx.quantity|), tx.quantity));
            var a5 := h(a4 + BlobHash(h, Decimal(|tx.reward|), tx.reward));
            var a6 := h(a5 + BlobHash(h, Decimal(|tx.lastTx|), tx.lastTx));
            var a7 := h(a6 + DeepHash(h, List(TagTrees(tx.tags))));
            var a8 := h(a7 + BlobHash(h, Decimal(|tx.dataSize|), tx.dataSize));
            DeepHash(h, TxTree(tx)) == h(a8 + BlobHash(h, Decimal(|tx.dataRoot|), tx.dataRoot))
  {
    hide Decimal, TagTrees;
    TagsInWords();
    assert Ascii("2") == FORMAT_2;
    TxTreeChain(h, tx);
    BlobInWords(h, tx.target);
    BlobInWords(h, tx.quantity);
    BlobInWords(h, tx.reward);
    BlobInWords(h, tx.lastTx);
    BlobInWords(h, tx.dataSize);
    BlobInWords(h, tx.dataRoot);
  }

  lemma BlobInWords(h: Hash, data: seq<byte>)
    ensures DeepHash(h, Blob(data)) == BlobHash(h, Decimal(|data|), data)
  {
    hide Decimal;
    TagsInWords();
  }

  /** The same for a tag. */
  lemma TagDigestInWords(h: Hash, t: Tag)
    ensures var a1 := h(h(Ascii("list2")) + BlobHash(h, Decimal(|t.key|), t.key));
            DeepHash(h, TagTree(t)) == h(a1 + BlobHash(h, Decimal(|t.value|), t.value))
  {
    hide Decimal, DeepHash;
    TagsInWords();
    TagTreeChain(h, t);
    BlobInWords(h, t.key);
    BlobInWords(h, t.value);
  }

  lemma TxTreeChain(h: Hash, t: Tx)
    ensures DeepHash(h, TxTree(t))
         == h(h(h(FrontChain(h, Chain(h, 9, []), t) + DeepHash(h, List(TagTrees(t.tags))))
                + DeepHash(h, Blob(t.dataSize))) + DeepHash(h, Blob(t.dataRoot)))
  {
    hide DeepHash, Chain;
    var items := TxTree(t).items;
    ListInput(h, items);
    var i0: seq<Chunk> := [];
    var i1 := [Blob(t.format)];
    var i2 := [Blob(t.format), Blob(t.owner)];
    var i3 := i2 + [Blob(t.target)];
    var i4 := i3 + [Blob(t.quantity)];
    var i5 := i4 + [Blob(t.reward)];
    var i6 := i5 + [Blob(t.lastTx)];
    var i7 := i6 + [List(TagTrees(t.tags))];
    var i8 := i7 + [Blob(t.dataSize)];
    assert i0 + [Blob(t.format)] == i1 && i1 + [Blob(t.owner)] == i2;
    assert i8 + [Blob(t.dataRoot)] == items;
    ChainSnoc(h, 9, i0, Blob(t.format));
    ChainSnoc(h, 9, i1, Blob(t.owner));
    ChainSnoc(h, 9, i2, Blob(t.target));
    ChainSnoc(h, 9, i3, Blob(t.quantity));
    ChainSnoc(h, 9, i4, Blob(t.reward));
    ChainSnoc(h, 9, i5, Blob(t.lastTx));
    ChainSnoc(h, 9, i6, List(TagTrees(t.tags)));
    ChainSnoc(h, 9, i7, Blob(t.dataSize));
    ChainSnoc(h, 9, i8, Blob(t.dataRoot));
  }
}
