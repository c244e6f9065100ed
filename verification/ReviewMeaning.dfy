/** What a review in expert mode says about the transaction that is signed
    (app/src/parser.c:273-341). A text is taken before it is cut into pages. */
module ReviewMeaning {
  import opened Bytes
  import opened CStrings
  import opened WireFormat
  import opened Display
  import opened TxParser
  import Base64Url

  // ----- reviews that look the same ------------------------------------------------

  /** With key buffers of n bytes: the same captions and the same texts, item by item. */
  predicate SameReview(lib: Library, n: nat, a: Tx, b: Tx) {
    && |AllItems(a)| == |AllItems(b)|
    && forall i :: 0 <= i < |AllItems(a)| ==> SameEntry(lib, n, a, b, i)
  }

  predicate SameEntry(lib: Library, n: nat, a: Tx, b: Tx, i: nat)
    requires i < |AllItems(a)| && i < |AllItems(b)|
  {
    && KeyBytes(n, Label(a, AllItems(a)[i])) == KeyBytes(n, Label(b, AllItems(b)[i]))
    && ItemText(lib, a, AllItems(a)[i]) == ItemText(lib, b, AllItems(b)[i])
  }

  /** Then parser_getItem cannot tell them apart: what it may write for one of them on any
      page it may write for the other. */
  lemma SameScreens(lib: Library, a: Tx, b: Tx, i: nat, outKey: seq<byte>, outVal: seq<byte>, pageIdx: nat,
                    status: Status, pageCount: nat)
    requires SameReview(lib, |outKey|, a, b) && i < |AllItems(a)|
    ensures Presents(lib, a, AllItems(a)[i], outKey, outVal, pageIdx, status, pageCount)
       <==> Presents(lib, b, AllItems(b)[i], outKey, outVal, pageIdx, status, pageCount)
  {
    hide ItemText, Label, KeyBytes, ShownAs;
    assert SameEntry(lib, |outKey|, a, b, i);
  }

  /** Equal, up to what a review can show: the amount as it is formatted, the data size up to
      a NUL, and of each tag name the part before a NUL that fits the key buffer. */
  predicate Agree(lib: Library, n: nat, a: Tx, b: Tx) {
    && a.format == b.format && a.owner == b.owner && a.target == b.target
    && a.reward == b.reward && a.lastTx == b.lastTx && a.dataRoot == b.dataRoot
    && AmountText(lib, a.quantity) == AmountText(lib, b.quantity)
    && UpToNul(a.dataSize) == UpToNul(b.dataSize)
    && |a.tags| == |b.tags|
    && forall i :: 0 <= i < |a.tags| ==> SameTag(n, a.tags[i], b.tags[i])
  }

  predicate SameTag(n: nat, s: Tag, t: Tag) {
    s.value == t.value && Cut(UpToNul(s.key), n) == Cut(UpToNul(t.key), n)
  }

  // ----- captions and texts ----------------------------------------------------------

  predicate NoNul(s: seq<byte>) {
    forall i :: 0 <= i < |s| ==> s[i] != 0
  }

  /** The zeros behind a caption do not blur it. */
  lemma KeyBytesInjective(n: nat, s: seq<byte>, t: seq<byte>)
    requires NoNul(s) && NoNul(t)
    ensures KeyBytes(n, s) == KeyBytes(n, t) <==> Cut(s, n) == Cut(t, n)
  {
    if KeyBytes(n, s) == KeyBytes(n, t) {
      if |Cut(s, n)| < |Cut(t, n)| { FillDiffers(n, Cut(s, n), Cut(t, n)); }
      if |Cut(t, n)| < |Cut(s, n)| { FillDiffers(n, Cut(t, n), Cut(s, n)); }
      assert Fill(n, Cut(s, n))[..|Cut(s, n)|] == Cut(s, n);
      assert Fill(n, Cut(t, n))[..|Cut(t, n)|] == Cut(t, n);
    }
  }

  lemma FillDiffers(n: nat, s: seq<byte>, t: seq<byte>)
    requires |s| < |t| <= n && NoNul(t)
    ensures Fill(n, s) != Fill(n, t)
  {
    assert Fill(n, s)[|s|] == 0 && Fill(n, t)[|s|] == t[|s|];
  }

  lemma CaptionHasNoNul()
    ensures NoNul(Caption(5)) && UpToNul(Caption(5)) == Caption(5) && |Caption(5)| == 9
  {
    var s := "Data root";
    assert forall i :: 0 <= i < |s| ==> s[i] != '\0' && s[i] as int < 256;
    assert Caption(5) == Ascii(s);
    UpToNulOfText(Ascii(s), []);
    UpToNulPrefix(Ascii(s), [0]);
    assert Ascii(s) + [0] + [] == Ascii(s) + [0];
  }

  lemma Base64TextInjective(v: seq<byte>, w: seq<byte>)
    requires Base64Text(v).Text? && Base64Text(v) == Base64Text(w)
    ensures v == w
  {
    Base64TextDecodes(v);
    Base64TextDecodes(w);
  }

  lemma Base64TextDecodes(v: seq<byte>)
    requires Base64Text(v).Text?
    ensures Base64Url.Decode(Characters(Base64Text(v).text)) == Some(v)
  {
    hide Base64Url.Encode, Base64Url.Decode;
    Base64Url.EncodingIsAscii(v);
    assert Characters(Base64Text(v).text) == Base64Url.Encode(v);
    Base64Url.RoundTrip(v);
  }

  /** The text is what is shown for some binary field. */
  predicate IsBase64Text(t: seq<byte>) {
    var v := Base64Url.Decode(Characters(t));
    v.Some? && ShowsInBase64(v.value) && Base64Text(v.value) == Text(t)
  }

  lemma IsBase64TextExactly(t: seq<byte>, v: seq<byte>)
    ensures Base64Text(v) == Text(t) <==> IsBase64Text(t) && Base64Url.Decode(Characters(t)) == Some(v)
  {
    hide Base64Text;
    Base64TextExactly(v);
    if Base64Text(v) == Text(t) {
      Base64TextDecodes(v);
    }
  }

  // ----- which transactions look the same --------------------------------------------

  lemma ItemsInOrder(tx: Tx)
    ensures var fields := if tx.dataRoot == [] then 5 else 6;
            && |AllItems(tx)| == fields + |tx.tags|
            && AllItems(tx)[..5] == [Target, Quantity, Reward, LastTx, DataSize]
            && (fields == 6 ==> AllItems(tx)[5] == DataRoot)
            && forall i :: 0 <= i < |tx.tags| ==> AllItems(tx)[fields + i] == TagItem(i)
  {
  }

  /** The fields in front of the tags: their captions are fixed. */
  lemma FieldEntries(lib: Library, n: nat, a: Tx, b: Tx)
    requires |AllItems(a)| == |AllItems(b)|
    ensures SameEntry(lib, n, a, b, 0) <==> Base64Text(a.target) == Base64Text(b.target)
    ensures SameEntry(lib, n, a, b, 1) <==> AmountText(lib, a.quantity) == AmountText(lib, b.quantity)
    ensures SameEntry(lib, n, a, b, 2) <==> a.reward == b.reward
    ensures SameEntry(lib, n, a, b, 3) <==> Base64Text(a.lastTx) == Base64Text(b.lastTx)
    ensures SameEntry(lib, n, a, b, 4) <==> SizeText(a.dataSize) == SizeText(b.dataSize)
    ensures a.dataRoot != [] && b.dataRoot != [] ==>
              (SameEntry(lib, n, a, b, 5) <==> Base64Text(a.dataRoot) == Base64Text(b.dataRoot))
  {
    hide AmountText, Base64Text, SizeText, Caption, KeyBytes, AllItems;
    ItemsInOrder(a);
    ItemsInOrder(b);
    assert forall k :: 0 <= k < 5 ==> AllItems(a)[..5][k] == AllItems(a)[k];
    assert forall k :: 0 <= k < 5 ==> AllItems(b)[..5][k] == AllItems(b)[k];
  }

  lemma TagEntry(lib: Library, n: nat, a: Tx, b: Tx, at: nat, i: nat, j: nat)
    requires at < |AllItems(a)| == |AllItems(b)| && i < |a.tags| && j < |b.tags|
    requires AllItems(a)[at] == TagItem(i) && AllItems(b)[at] == TagItem(j)
    ensures SameEntry(lib, n, a, b, at) <==> SameTag(n, a.tags[i], b.tags[j])
  {
    hide AllItems, Cut, KeyBytes, UpToNul;
    KeyBytesInjective(n, UpToNul(a.tags[i].key), UpToNul(b.tags[j].key));
  }

  /** Of two transactions that both have a data root, or both have none, exactly those look
      the same that agree. */
  lemma ReviewDeterminesTransaction(lib: Library, n: nat, key: Option<seq<byte>>, a: Tx, b: Tx)
    requires Valid(a) && Valid(b) && (a.dataRoot == [] <==> b.dataRoot == [])
    requires Reviewable(lib, key, a, true) && Reviewable(lib, key, b, true)
    ensures SameReview(lib, n, a, b) <==> Agree(lib, n, a, b)
  {
    hide AmountText, Base64Text, SizeText, KeyBytes, AllItems, Cut, UpToNul, SameEntry, SameTag, Reviewable;
    ItemsInOrder(a);
    ItemsInOrder(b);
    ReviewableExactly(lib, key, a, true);
    ReviewableExactly(lib, key, b, true);
    if |a.tags| == |b.tags| {
      var fields := if a.dataRoot == [] then 5 else 6;
      FieldEntries(lib, n, a, b);
      SameFields(lib, key, a, b);
      forall i | 0 <= i < |a.tags|
        ensures SameEntry(lib, n, a, b, fields + i) <==> SameTag(n, a.tags[i], b.tags[i])
      {
        TagEntry(lib, n, a, b, fields + i, i, i);
      }
      TagsAgree(lib, n, a, b, fields);
    }
  }

  lemma SameFields(lib: Library, key: Option<seq<byte>>, a: Tx, b: Tx)
    requires Valid(a) && Valid(b)
    requires Reviewable(lib, key, a, true) && Reviewable(lib, key, b, true)
    ensures a.format == b.format && a.owner == b.owner
    ensures Base64Text(a.target) == Base64Text(b.target) <==> a.target == b.target
    ensures Base64Text(a.lastTx) == Base64Text(b.lastTx) <==> a.lastTx == b.lastTx
    ensures SizeText(a.dataSize) == SizeText(b.dataSize) <==> UpToNul(a.dataSize) == UpToNul(b.dataSize)
    ensures a.dataRoot != [] && b.dataRoot != [] ==>
              (Base64Text(a.dataRoot) == Base64Text(b.dataRoot) <==> a.dataRoot == b.dataRoot)
  {
    hide AmountText, Base64Text, UpToNul, Reviewable;
    ReviewableExactly(lib, key, a, true);
    ReviewableExactly(lib, key, b, true);
    SameField(a.target, b.target);
    SameField(a.lastTx, b.lastTx);
    if a.dataRoot != [] && b.dataRoot != [] { SameField(a.dataRoot, b.dataRoot); }
  }

  lemma SameField(v: seq<byte>, w: seq<byte>)
    requires ShowsInBase64(v)
    ensures Base64Text(v) == Base64Text(w) <==> v == w
  {
    hide Base64Text;
    Base64TextExactly(v);
    if Base64Text(v) == Base64Text(w) { Base64TextInjective(v, w); }
  }

  /** The entries of the tags, where the others are known. */
  lemma TagsAgree(lib: Library, n: nat, a: Tx, b: Tx, fields: nat)
    requires |AllItems(a)| == |AllItems(b)| == fields + |a.tags| && |a.tags| == |b.tags| && 5 <= fields <= 6
    requires forall i :: 0 <= i < |a.tags| ==>
               (SameEntry(lib, n, a, b, fields + i) <==> SameTag(n, a.tags[i], b.tags[i]))
    ensures SameReview(lib, n, a, b) <==>
            && SameEntry(lib, n, a, b, 0) && SameEntry(lib, n, a, b, 1) && SameEntry(lib, n, a, b, 2)
            && SameEntry(lib, n, a, b, 3) && SameEntry(lib, n, a, b, 4)
            && (fields == 6 ==> SameEntry(lib, n, a, b, 5))
            && forall i :: 0 <= i < |a.tags| ==> SameTag(n, a.tags[i], b.tags[i])
  {
    hide SameEntry, SameTag, AllItems;
    if forall i :: 0 <= i < |a.tags| ==> SameTag(n, a.tags[i], b.tags[i]) {
      forall k | fields <= k < fields + |a.tags| ensures SameEntry(lib, n, a, b, k) {
        assert SameTag(n, a.tags[k - fields], b.tags[k - fields]);
        assert k == fields + (k - fields);
      }
    }
  }

  // ----- when a review belongs to one transaction only -------------------------------

  /** A tag that is shown as a data root would be. */
  predicate LooksLikeDataRoot(n: nat, t: Tag) {
    IsBase64Text(t.value) && Cut(UpToNul(t.key), n) == Cut(Caption(5), n)
  }

  /** A tag in place of a data root is not noticed. */
  lemma TagForDataRoot(lib: Library, n: nat, a: Tx, b: Tx, t: Tag)
    requires a.dataRoot != [] && Base64Text(a.dataRoot) == Text(t.value)
    requires Cut(UpToNul(t.key), n) == Cut(Caption(5), n)
    requires b == a.(dataRoot := [], tags := [t] + a.tags)
    ensures SameReview(lib, n, a, b) && SameReview(lib, n, b, a)
  {
    hide Base64Text, AmountText, SizeText, Caption, UpToNul, Cut, KeyBytes, AllItems, SameEntry;
    ItemsInOrder(a);
    ItemsInOrder(b);
    FieldEntries(lib, n, a, b);
    TagEntryForRoot(lib, n, a, b, t);
    forall i | 0 <= i < |AllItems(a)| ensures SameEntry(lib, n, a, b, i) && SameEntry(lib, n, b, a, i) {
      if i >= 6 {
        assert AllItems(a)[6 + (i - 6)] == TagItem(i - 6);
        assert AllItems(b)[5 + (i - 5)] == TagItem(i - 5);
        TagEntry(lib, n, a, b, i, i - 6, i - 5);
      }
      SameEntrySymmetric(lib, n, a, b, i);
    }
  }

  lemma SameEntrySymmetric(lib: Library, n: nat, a: Tx, b: Tx, i: nat)
    requires i < |AllItems(a)| && i < |AllItems(b)|
    ensures SameEntry(lib, n, a, b, i) <==> SameEntry(lib, n, b, a, i)
  {
    hide AllItems, Label, ItemText, KeyBytes;
  }

  lemma TagEntryForRoot(lib: Library, n: nat, a: Tx, b: Tx, t: Tag)
    requires a.dataRoot != [] && b.dataRoot == [] && b.tags != [] && b.tags[0] == t
    ensures 5 < |AllItems(a)| && 5 < |AllItems(b)|
    ensures SameEntry(lib, n, a, b, 5) <==>
            Base64Text(a.dataRoot) == Text(t.value) && Cut(UpToNul(t.key), n) == Cut(Caption(5), n)
  {
    hide Base64Text, Caption, UpToNul, Cut, KeyBytes, AllItems;
    ItemsInOrder(a);
    ItemsInOrder(b);
    assert AllItems(b)[5 + 0] == TagItem(0);
    CaptionHasNoNul();
    KeyBytesInjective(n, UpToNul(t.key), Caption(5));
  }

  /** A transaction with a data root, and the one that has a tag instead: they look the same,
      and the second one can be sent and reviewed exactly if there is room for the tag. */
  lemma TagWithTheCaptionOfAField(lib: Library, n: nat, key: Option<seq<byte>>, a: Tx, b: Tx)
    requires Valid(a) && Reviewable(lib, key, a, true) && a.dataRoot != []
    requires Base64Text(a.dataRoot).Text?
    requires b == a.(dataRoot := [], tags := [Tag(Caption(5), Base64Text(a.dataRoot).text)] + a.tags)
    ensures SameReview(lib, n, a, b) && !Agree(lib, n, a, b)
    ensures Valid(b) <==> |a.tags| < MAX_NUMBER_TAGS
    ensures Valid(b) ==> Reviewable(lib, key, b, true)
  {
    hide Base64Text, AmountText, SizeText, Caption, UpToNul, Cut, SameReview, Reviewable;
    var t := Tag(Caption(5), Base64Text(a.dataRoot).text);
    CaptionHasNoNul();
    TagForDataRoot(lib, n, a, b, t);
    Base64TextFits(a.dataRoot);
    if |a.tags| < MAX_NUMBER_TAGS {
      MoreTagsFit(t, a.tags);
      ReviewableExactly(lib, key, a, true);
      ReviewableExactly(lib, key, b, true);
    }
  }

  lemma Base64TextFits(v: seq<byte>)
    requires Base64Text(v).Text?
    ensures |Base64Text(v).text| <= UI_BUFFER
  {
    Base64Url.LengthIsExact(v);
  }

  lemma MoreTagsFit(t: Tag, tags: seq<Tag>)
    ensures TagsFit([t] + tags) <==> Fits(t.key) && Fits(t.value) && TagsFit(tags)
  {
    if TagsFit([t] + tags) {
      assert forall i :: 0 <= i < |tags| ==> tags[i] == ([t] + tags)[i + 1];
      assert ([t] + tags)[0] == t;
    }
  }

  /** The other way round: a transaction without data root whose first tag looks like one. */
  lemma DataRootForTag(lib: Library, n: nat, key: Option<seq<byte>>, a: Tx, b: Tx)
    requires Valid(a) && Reviewable(lib, key, a, true) && a.dataRoot == []
    requires |a.tags| > 0 && LooksLikeDataRoot(n, a.tags[0])
    requires b == a.(dataRoot := Base64Url.Decode(Characters(a.tags[0].value)).value, tags := a.tags[1..])
    ensures SameReview(lib, n, a, b) && !Agree(lib, n, a, b)
    ensures Valid(b) && Reviewable(lib, key, b, true)
  {
    hide Base64Text, AmountText, SizeText, Caption, UpToNul, Cut, SameReview, Reviewable;
    hide Base64Url.Decode;
    assert [a.tags[0]] + b.tags == a.tags;
    TagForDataRoot(lib, n, b, a, a.tags[0]);
    MoreTagsFit(a.tags[0], b.tags);
    ReviewableExactly(lib, key, a, true);
    ReviewableExactly(lib, key, b, true);
  }

  /** Whatever else can be reviewed for this key and looks the same agrees. */
  ghost predicate Unambiguous(lib: Library, n: nat, key: Option<seq<byte>>, a: Tx) {
    forall b :: Valid(b) && Reviewable(lib, key, b, true) && SameReview(lib, n, a, b) ==> Agree(lib, n, a, b)
  }

  /** What a user can check on the screen: a review with a data root and sixteen tags, or one
      without data root whose first tag does not look like a data root. */
  predicate CanOnlyBeOne(n: nat, a: Tx) {
    if a.dataRoot != [] then |a.tags| == MAX_NUMBER_TAGS
    else a.tags == [] || !LooksLikeDataRoot(n, a.tags[0])
  }

  /** Exactly those reviews belong to one transaction only. */
  lemma UnambiguousExactly(lib: Library, n: nat, key: Option<seq<byte>>, a: Tx)
    requires Valid(a) && Reviewable(lib, key, a, true)
    ensures Unambiguous(lib, n, key, a) <==> CanOnlyBeOne(n, a)
  {
    hide SameReview, Agree, Reviewable, LooksLikeDataRoot, Base64Text, Caption, Valid;
    if CanOnlyBeOne(n, a) {
      forall b | Valid(b) && Reviewable(lib, key, b, true) && SameReview(lib, n, a, b)
        ensures Agree(lib, n, a, b)
      {
        SameKind(lib, n, key, a, b);
        ReviewDeterminesTransaction(lib, n, key, a, b);
      }
    } else if a.dataRoot != [] {
      RootHasText(lib, key, a);
      var b := a.(dataRoot := [], tags := [Tag(Caption(5), Base64Text(a.dataRoot).text)] + a.tags);
      TagWithTheCaptionOfAField(lib, n, key, a, b);
      AtMostSixteen(a);
    } else {
      LooksDecodable(n, a.tags[0]);
      var b := a.(dataRoot := Base64Url.Decode(Characters(a.tags[0].value)).value, tags := a.tags[1..]);
      DataRootForTag(lib, n, key, a, b);
    }
  }

  lemma LooksDecodable(n: nat, t: Tag)
    requires LooksLikeDataRoot(n, t)
    ensures Base64Url.Decode(Characters(t.value)).Some?
  {
  }

  lemma AtMostSixteen(a: Tx)
    requires Valid(a)
    ensures |a.tags| <= MAX_NUMBER_TAGS
  {
  }

  lemma RootHasText(lib: Library, key: Option<seq<byte>>, a: Tx)
    requires Valid(a) && Reviewable(lib, key, a, true) && a.dataRoot != []
    ensures Base64Text(a.dataRoot).Text?
  {
    hide AmountText, Base64Text, Reviewable;
    ReviewableExactly(lib, key, a, true);
    Base64TextExactly(a.dataRoot);
  }

  /** Such a review fixes whether there is a data root. */
  lemma SameKind(lib: Library, n: nat, key: Option<seq<byte>>, a: Tx, b: Tx)
    requires Valid(a) && Valid(b) && Reviewable(lib, key, b, true)
    requires SameReview(lib, n, a, b) && CanOnlyBeOne(n, a)
    ensures a.dataRoot == [] <==> b.dataRoot == []
  {
    hide AmountText, Base64Text, Caption, UpToNul, Cut, KeyBytes, AllItems, SameEntry, Reviewable, IsBase64Text;
    ItemsInOrder(a);
    ItemsInOrder(b);
    AtMostSixteen(b);
    if a.dataRoot == [] && b.dataRoot != [] {
      var t := a.tags[0];
      assert SameEntry(lib, n, a, b, 5);
      SameEntrySymmetric(lib, n, a, b, 5);
      TagEntryForRoot(lib, n, b, a, t);
      IsBase64TextExactly(t.value, b.dataRoot);
    }
  }
}
