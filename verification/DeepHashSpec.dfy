/** The Arweave deep hash: a hash of a tree of byte strings, over any function with 48-byte
    results, and what a collision of it costs. */
module DeepHashSpec {
  import opened Bytes
  import opened WireFormat

  /** A hash function: nothing is assumed of it but the length of its results. */
  type Hash = h: seq<byte> -> seq<byte> | forall s :: |h(s)| == 48 witness (s: seq<byte>) => Zeros(48)

  datatype Chunk = Blob(data: seq<byte>) | List(items: seq<Chunk>)

  const BLOB: seq<byte> := [98, 108, 111, 98]
  const LIST: seq<byte> := [108, 105, 115, 116]

  /** The tag of a node: its kind and its size, in decimal. */
  function TagText(name: seq<byte>, n: nat): seq<byte> {
    name + Decimal(n)
  }

  /** deepHash, as Arweave defines it: a blob is hashed with its tag; a list starts an
      accumulator with its tag and folds the hashes of its children into it. */
  function DeepHash(h: Hash, c: Chunk): (d: seq<byte>)
    ensures |d| == 48
    decreases c, 0
  {
    match c
    case Blob(data) => h(h(TagText(BLOB, |data|)) + h(data))
    case List(items) => DeepHashChunks(h, items, h(TagText(LIST, |items|)))
  }

  function DeepHashChunks(h: Hash, items: seq<Chunk>, acc: seq<byte>): (d: seq<byte>)
    requires |acc| == 48
    ensures |d| == 48
    decreases items, 1
  {
    if items == [] then acc
    else DeepHashChunks(h, items[1..], h(acc + DeepHash(h, items[0])))
  }

  /** The kinds in letters, and a few tags as they are hashed. */
  lemma TagsInWords()
    ensures BLOB == Ascii("blob") && LIST == Ascii("list")
    ensures TagText(BLOB, 1) == Ascii("blob1") && TagText(BLOB, 512) == Ascii("blob512")
    ensures TagText(LIST, 2) == Ascii("list2") && TagText(LIST, 9) == Ascii("list9")
  {
    assert Ascii("blob") == [98, 108, 111, 98] && Ascii("list") == [108, 105, 115, 116];
    assert Decimal(51) == Decimal(5) + [49];
    assert Decimal(512) == Decimal(51) + [50] == [53, 49, 50];
    assert Ascii("blob512") == [98, 108, 111, 98, 53, 49, 50];
    assert Ascii("blob1") == [98, 108, 111, 98, 49];
    assert Ascii("list2") == [108, 105, 115, 116, 50] && Ascii("list9") == [108, 105, 115, 116, 57];
  }

  // ----- the tree of a transaction ---------------------------------------------

  function TagTree(t: Tag): Chunk {
    List([Blob(t.key), Blob(t.value)])
  }

  function TagTrees(tags: seq<Tag>): (c: seq<Chunk>)
    ensures |c| == |tags|
    ensures forall i :: 0 <= i < |tags| ==> c[i] == TagTree(tags[i])
  {
    seq(|tags|, i requires 0 <= i < |tags| => TagTree(tags[i]))
  }

  /** Nine children; the seventh is the list of the tags, each a list of two blobs. */
  function TxTree(tx: Tx): Chunk {
    List([Blob(tx.format), Blob(tx.owner), Blob(tx.target), Blob(tx.quantity), Blob(tx.reward),
          Blob(tx.lastTx), List(TagTrees(tx.tags)), Blob(tx.dataSize), Blob(tx.dataRoot)])
  }

  /** The blobs of a tree from left to right. */
  function Leaves(c: Chunk): seq<seq<byte>>
    decreases c, 0
  {
    match c
    case Blob(data) => [data]
    case List(items) => LeavesOf(items)
  }

  function LeavesOf(items: seq<Chunk>): seq<seq<byte>>
    decreases items, 1
  {
    if items == [] then [] else Leaves(items[0]) + LeavesOf(items[1..])
  }

  /** Byte strings as they stand on the wire, one after the other. */
  function OnTheWire(parts: seq<seq<byte>>): seq<byte> {
    if parts == [] then [] else EncodeWithLen(parts[0]) + OnTheWire(parts[1..])
  }

  lemma {:induction false} OnTheWireAppend(a: seq<seq<byte>>, b: seq<seq<byte>>)
    ensures OnTheWire(a + b) == OnTheWire(a) + OnTheWire(b)
  {
    hide EncodeWithLen;
    if a == [] {
      assert a + b == b;
    } else {
      assert (a + b)[1..] == a[1..] + b;
      OnTheWireAppend(a[1..], b);
    }
  }

  lemma LeavesOfTag(t: Tag)
    ensures Leaves(TagTree(t)) == [t.key, t.value]
  {
    var items := [Blob(t.key), Blob(t.value)];
    assert items[1..] == [Blob(t.value)] && items[1..][1..] == [];
    assert LeavesOf(items) == Leaves(items[0]) + LeavesOf(items[1..]);
    assert LeavesOf(items[1..]) == Leaves(items[1]) + LeavesOf(items[1..][1..]);
  }

  lemma {:induction false} TagLeavesOnTheWire(tags: seq<Tag>)
    ensures OnTheWire(LeavesOf(TagTrees(tags))) == EncodeTags(tags)
  {
    hide EncodeWithLen;
    if tags != [] {
      var trees := TagTrees(tags);
      assert trees[1..] == TagTrees(tags[1..]);
      TagLeavesOnTheWire(tags[1..]);
      LeavesOfTag(tags[0]);
      var pair := [tags[0].key, tags[0].value];
      OnTheWireAppend(pair, LeavesOf(trees[1..]));
      var none: seq<seq<byte>> := [];
      assert pair[1..] == [tags[0].value] && pair[1..][1..] == none;
      assert OnTheWire(pair) == EncodeWithLen(pair[0]) + OnTheWire(pair[1..]);
      assert OnTheWire(pair[1..]) == EncodeWithLen(pair[1]) + OnTheWire(pair[1..][1..]);
    }
  }

  lemma {:induction false} LeavesAppend(a: seq<Chunk>, b: seq<Chunk>)
    ensures LeavesOf(a + b) == LeavesOf(a) + LeavesOf(b)
  {
    if a == [] {
      assert a + b == b;
    } else {
      assert (a + b)[1..] == a[1..] + b;
      LeavesAppend(a[1..], b);
    }
  }

  function Blobs(s: seq<seq<byte>>): (c: seq<Chunk>)
    ensures |c| == |s|
    ensures forall i :: 0 <= i < |s| ==> c[i] == Blob(s[i])
  {
    seq(|s|, i requires 0 <= i < |s| => Blob(s[i]))
  }

  lemma {:induction false} LeavesOfBlobs(s: seq<seq<byte>>)
    ensures LeavesOf(Blobs(s)) == s
  {
    if s != [] {
      assert Blobs(s)[1..] == Blobs(s[1..]);
      LeavesOfBlobs(s[1..]);
      assert s == [s[0]] + s[1..];
    }
  }

  lemma LeavesOfTx(tx: Tx)
    ensures Leaves(TxTree(tx))
         == [tx.format, tx.owner, tx.target, tx.quantity, tx.reward, tx.lastTx] + LeavesOf(TagTrees(tx.tags))
          + [tx.dataSize, tx.dataRoot]
  {
    hide TagTrees;
    var front := [tx.format, tx.owner, tx.target, tx.quantity, tx.reward, tx.lastTx];
    var back := [tx.dataSize, tx.dataRoot];
    var list := [List(TagTrees(tx.tags))];
    assert TxTree(tx).items == Blobs(front) + list + Blobs(back);
    LeavesAppend(Blobs(front) + list, Blobs(back));
    LeavesAppend(Blobs(front), list);
    LeavesOfBlobs(front);
    LeavesOfBlobs(back);
    assert list[1..] == [];
    assert LeavesOf(list) == Leaves(list[0]) + LeavesOf(list[1..]) == LeavesOf(TagTrees(tx.tags));
  }

  /** What is hashed is what is sent, in the same order: the blobs of the tree with their
      lengths in front, and the number of tags before the seventh, are the encoding. */
  lemma LeavesAreTheWire(tx: Tx)
    ensures var leaves := Leaves(TxTree(tx));
            && |leaves| >= 6
            && OnTheWire(leaves[..6]) + EncodeU16(|tx.tags|) + OnTheWire(leaves[6..]) == Encode(tx)
  {
    hide EncodeWithLen, EncodeU16, EncodeTags, TagTrees, Leaves, TxTree, OnTheWire;
    var front := [tx.format, tx.owner, tx.target, tx.quantity, tx.reward, tx.lastTx];
    var tags := LeavesOf(TagTrees(tx.tags));
    var back := [tx.dataSize, tx.dataRoot];
    LeavesOfTx(tx);
    var leaves := Leaves(TxTree(tx));
    assert leaves[..6] == front && leaves[6..] == tags + back;
    OnTheWireAppend(tags, back);
    TagLeavesOnTheWire(tx.tags);
    OnTheWireTwo(back);
    OnTheWireSix(front);
  }

  lemma OnTheWireTwo(s: seq<seq<byte>>)
    requires |s| == 2
    ensures OnTheWire(s) == EncodeWithLen(s[0]) + EncodeWithLen(s[1])
  {
    hide EncodeWithLen;
    assert s[1..][1..] == [];
    assert OnTheWire(s[1..]) == EncodeWithLen(s[1]) + OnTheWire(s[1..][1..]);
  }

  lemma OnTheWireSix(s: seq<seq<byte>>)
    requires |s| == 6
    ensures OnTheWire(s)
         == EncodeWithLen(s[0]) + EncodeWithLen(s[1]) + EncodeWithLen(s[2]) + EncodeWithLen(s[3])
          + EncodeWithLen(s[4]) + EncodeWithLen(s[5])
  {
    hide EncodeWithLen;
    assert s == s[..2] + (s[2..4] + s[4..]);
    OnTheWireAppend(s[..2], s[2..4] + s[4..]);
    OnTheWireAppend(s[2..4], s[4..]);
    OnTheWireTwo(s[..2]);
    OnTheWireTwo(s[2..4]);
    OnTheWireTwo(s[4..]);
  }

  lemma TagTreesInjective(a: seq<Tag>, b: seq<Tag>)
    requires TagTrees(a) == TagTrees(b)
    ensures a == b
  {
    assert |a| == |TagTrees(a)| == |b|;
    forall i | 0 <= i < |a| ensures a[i] == b[i] {
      assert TagTrees(a)[i] == TagTrees(b)[i];
      assert [Blob(a[i].key), Blob(a[i].value)] == [Blob(b[i].key), Blob(b[i].value)];
      assert [Blob(a[i].key), Blob(a[i].value)][0] == Blob(a[i].key);
      assert [Blob(a[i].key), Blob(a[i].value)][1] == Blob(a[i].value);
    }
  }

  /** The tree determines the transaction. */
  lemma TxTreeInjective(a: Tx, b: Tx)
    requires TxTree(a) == TxTree(b)
    ensures a == b
  {
    var x, y := TxTree(a).items, TxTree(b).items;
    assert forall i :: 0 <= i < 9 ==> x[i] == y[i];
    assert x[0] == y[0] && x[1] == y[1] && x[2] == y[2] && x[3] == y[3] && x[4] == y[4];
    assert x[5] == y[5] && x[6] == y[6] && x[7] == y[7] && x[8] == y[8];
    TagTreesInjective(a.tags, b.tags);
  }

  // ----- the accumulator, read from its end ------------------------------------

  /** The accumulator of a list of n children after those in `items`. */
  function Chain(h: Hash, n: nat, items: seq<Chunk>): (d: seq<byte>)
    ensures |d| == 48
  {
    if items == [] then h(TagText(LIST, n))
    else h(Chain(h, n, items[..|items| - 1]) + DeepHash(h, items[|items| - 1]))
  }

  lemma {:induction false} ChunksAppend(h: Hash, a: seq<Chunk>, x: Chunk, acc: seq<byte>)
    requires |acc| == 48
    ensures DeepHashChunks(h, a + [x], acc) == h(DeepHashChunks(h, a, acc) + DeepHash(h, x))
    decreases |a|
  {
    hide DeepHash;
    if a == [] {
      assert [] + [x] == [x];
      assert DeepHashChunks(h, [x][1..], h(acc + DeepHash(h, x))) == h(acc + DeepHash(h, x));
    } else {
      assert (a + [x])[0] == a[0] && (a + [x])[1..] == a[1..] + [x];
      ChunksAppend(h, a[1..], x, h(acc + DeepHash(h, a[0])));
    }
  }

  lemma {:induction false} ChainIsChunks(h: Hash, n: nat, items: seq<Chunk>)
    ensures Chain(h, n, items) == DeepHashChunks(h, items, h(TagText(LIST, n)))
    decreases |items|
  {
    hide DeepHash;
    if items != [] {
      var front, last := items[..|items| - 1], items[|items| - 1];
      ChainIsChunks(h, n, front);
      ChunksAppend(h, front, last, h(TagText(LIST, n)));
      assert front + [last] == items;
    }
  }

  // ----- what is hashed --------------------------------------------------------

  /** The byte strings that computing the deep hash of c passes to the hash function. */
  function Preimages(h: Hash, c: Chunk): set<seq<byte>>
    decreases c, 0
  {
    match c
    case Blob(data) => {TagText(BLOB, |data|), data, h(TagText(BLOB, |data|)) + h(data)}
    case List(items) => ChainPreimages(h, |items|, items)
  }

  function ChainPreimages(h: Hash, n: nat, items: seq<Chunk>): set<seq<byte>>
    decreases items, 1
  {
    if items == [] then {TagText(LIST, n)}
    else
      ChainPreimages(h, n, items[..|items| - 1]) + Preimages(h, items[|items| - 1]) +
      {Chain(h, n, items[..|items| - 1]) + DeepHash(h, items[|items| - 1])}
  }

  /** Two different byte strings with the same hash. */
  predicate Collide(h: Hash, x: seq<byte>, y: seq<byte>) {
    x != y && h(x) == h(y)
  }

  /** Sizes that the device's sixteen-bit arguments can express, at every node. */
  predicate Sized(c: Chunk)
    decreases c, 0
  {
    match c
    case Blob(data) => |data| < 0x1_0000
    case List(items) => |items| < 0x1_0000 && forall i :: 0 <= i < |items| ==> Sized(items[i])
  }

  lemma TagTextIsShort(name: seq<byte>, n: u16)
    requires |name| == 4
    ensures |TagText(name, n)| < 10
  {
    DecimalOfU16IsShort(n);
  }

  lemma TagTextInjective(name: seq<byte>, m: nat, n: nat)
    requires TagText(name, m) == TagText(name, n)
    ensures m == n
  {
    assert TagText(name, m)[|name|..] == Decimal(m) && TagText(name, n)[|name|..] == Decimal(n);
    DecimalInjective(m, n);
  }

  lemma TagTextsDiffer(m: nat, n: nat)
    ensures TagText(BLOB, m) != TagText(LIST, n)
  {
    assert TagText(BLOB, m)[0] == 98 && TagText(LIST, n)[0] == 108;
  }

  lemma HalvesAreEqual(a: seq<byte>, b: seq<byte>, c: seq<byte>, d: seq<byte>)
    requires |a| == |c| && a + b == c + d
    ensures a == c && b == d
  {
    assert (a + b)[..|a|] == a && (c + d)[..|c|] == c;
    assert (a + b)[|a|..] == b && (c + d)[|c|..] == d;
  }

  // ----- collision extraction --------------------------------------------------

  /** Two different trees with the same deep hash: a collision of the hash function among
      the strings that were hashed. */
  lemma {:induction false} TreeCollision(h: Hash, c: Chunk, d: Chunk) returns (x: seq<byte>, y: seq<byte>)
    requires Sized(c) && Sized(d) && c != d && DeepHash(h, c) == DeepHash(h, d)
    ensures Collide(h, x, y) && x in Preimages(h, c) && y in Preimages(h, d)
    decreases c, 0
  {
    match c {
      case Blob(data) =>
        if d.Blob? {
          x, y := BlobCollision(h, data, d.data);
        } else {
          x, y := MixedCollision(h, data, d.items);
        }
      case List(items) =>
        if d.Blob? {
          y, x := MixedCollision(h, d.data, items);
        } else {
          ChainIsChunks(h, |items|, items);
          ChainIsChunks(h, |d.items|, d.items);
          x, y := ChainCollision(h, |items|, items, |d.items|, d.items);
        }
    }
  }

  lemma BlobCollision(h: Hash, a: seq<byte>, b: seq<byte>) returns (x: seq<byte>, y: seq<byte>)
    requires a != b && DeepHash(h, Blob(a)) == DeepHash(h, Blob(b))
    ensures Collide(h, x, y) && x in Preimages(h, Blob(a)) && y in Preimages(h, Blob(b))
  {
    x, y := h(TagText(BLOB, |a|)) + h(a), h(TagText(BLOB, |b|)) + h(b);
    if x == y {
      HalvesAreEqual(h(TagText(BLOB, |a|)), h(a), h(TagText(BLOB, |b|)), h(b));
      x, y := a, b;
    }
  }

  /** The last string hashed for an accumulator. */
  function ChainInput(h: Hash, n: nat, items: seq<Chunk>): (x: seq<byte>)
    ensures h(x) == Chain(h, n, items) && x in ChainPreimages(h, n, items)
    ensures items == [] ==> x == TagText(LIST, n)
    ensures items != [] ==> x == Chain(h, n, items[..|items| - 1]) + DeepHash(h, items[|items| - 1])
  {
    if items == [] then TagText(LIST, n)
    else Chain(h, n, items[..|items| - 1]) + DeepHash(h, items[|items| - 1])
  }

  // The strings hashed for part of a list are hashed for the list.
  lemma ChainPreimagesParts(h: Hash, n: nat, items: seq<Chunk>)
    requires items != []
    ensures ChainPreimages(h, n, items[..|items| - 1]) <= ChainPreimages(h, n, items)
    ensures Preimages(h, items[|items| - 1]) <= ChainPreimages(h, n, items)
  {
  }

  lemma BlobInput(h: Hash, data: seq<byte>)
    ensures DeepHash(h, Blob(data)) == h(h(TagText(BLOB, |data|)) + h(data))
    ensures TagText(BLOB, |data|) in Preimages(h, Blob(data))
    ensures h(TagText(BLOB, |data|)) + h(data) in Preimages(h, Blob(data))
  {
  }

  lemma ListInput(h: Hash, items: seq<Chunk>)
    ensures DeepHash(h, List(items)) == Chain(h, |items|, items)
    ensures Preimages(h, List(items)) == ChainPreimages(h, |items|, items)
  {
    ChainIsChunks(h, |items|, items);
  }

  /** A blob against a list. */
  lemma MixedCollision(h: Hash, data: seq<byte>, items: seq<Chunk>) returns (x: seq<byte>, y: seq<byte>)
    requires |data| < 0x1_0000 && |items| < 0x1_0000
    requires DeepHash(h, Blob(data)) == DeepHash(h, List(items))
    ensures Collide(h, x, y) && x in Preimages(h, Blob(data)) && y in Preimages(h, List(items))
  {
    hide DeepHash, DeepHashChunks, Chain, TagText, Preimages, ChainPreimages, ChainInput;
    var n := |items|;
    var tag := TagText(BLOB, |data|);
    BlobInput(h, data);
    ListInput(h, items);
    TagTextIsShort(LIST, n);
    TagTextIsShort(BLOB, |data|);
    TagTextsDiffer(|data|, n);
    x, y := h(tag) + h(data), ChainInput(h, n, items);
    if x == y {
      assert items != [];
      var front, last := items[..n - 1], items[n - 1];
      ChainPreimagesParts(h, n, items);
      HalvesAreEqual(h(tag), h(data), Chain(h, n, front), DeepHash(h, last));
      x, y := tag, ChainInput(h, n, front);
    }
  }

  /** Two accumulators with the same value, walked back together. */
  lemma {:induction false} ChainCollision(h: Hash, m: nat, a: seq<Chunk>, n: nat, b: seq<Chunk>)
    returns (x: seq<byte>, y: seq<byte>)
    requires m < 0x1_0000 && n < 0x1_0000 && (m, a) != (n, b)
    requires forall i :: 0 <= i < |a| ==> Sized(a[i])
    requires forall i :: 0 <= i < |b| ==> Sized(b[i])
    requires Chain(h, m, a) == Chain(h, n, b)
    ensures Collide(h, x, y) && x in ChainPreimages(h, m, a) && y in ChainPreimages(h, n, b)
    decreases a, 1
  {
    hide DeepHash, DeepHashChunks, Chain, TagText, Preimages, ChainPreimages, ChainInput, Sized;
    TagTextIsShort(LIST, m);
    TagTextIsShort(LIST, n);
    x, y := ChainInput(h, m, a), ChainInput(h, n, b);
    if x == y {
      if a == [] {
        assert b == [];
        TagTextInjective(LIST, m, n);
      } else {
        assert b != [];
        var i, j := |a| - 1, |b| - 1;
        HalvesAreEqual(Chain(h, m, a[..i]), DeepHash(h, a[i]), Chain(h, n, b[..j]), DeepHash(h, b[j]));
        ChainPreimagesParts(h, m, a);
        ChainPreimagesParts(h, n, b);
        if a[i] != b[j] {
          x, y := TreeCollision(h, a[i], b[j]);
        } else {
          assert a == a[..i] + [a[i]] && b == b[..j] + [b[j]];
          x, y := ChainCollision(h, m, a[..i], n, b[..j]);
        }
      }
    }
  }

  // ----- transactions ----------------------------------------------------------

  lemma TxTreeIsSized(tx: Tx)
    requires Valid(tx)
    ensures Sized(TxTree(tx))
  {
    forall i | 0 <= i < |tx.tags| ensures Sized(TagTree(tx.tags[i])) {
      var t := TagTree(tx.tags[i]);
      assert Fits(tx.tags[i].key) && Fits(tx.tags[i].value);
      assert forall k :: 0 <= k < 2 ==> Sized(t.items[k]);
    }
    assert Sized(List(TagTrees(tx.tags)));
  }

  /** Two different transactions with the same deep hash yield a collision of the hash
      function, between a string hashed for one and a string hashed for the other. */
  lemma TxCollision(h: Hash, a: Tx, b: Tx) returns (x: seq<byte>, y: seq<byte>)
    requires Valid(a) && Valid(b) && a != b
    requires DeepHash(h, TxTree(a)) == DeepHash(h, TxTree(b))
    ensures Collide(h, x, y) && x in Preimages(h, TxTree(a)) && y in Preimages(h, TxTree(b))
  {
    hide DeepHash, Preimages, TxTree, Valid;
    TxTreeIsSized(a);
    TxTreeIsSized(b);
    if TxTree(a) == TxTree(b) { TxTreeInjective(a, b); }
    x, y := TreeCollision(h, TxTree(a), TxTree(b));
  }
}
