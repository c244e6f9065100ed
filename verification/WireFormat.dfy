/** The bytes of a transaction on the wire: what the host writes (js/src/index.js:73-147) and
    what the device reads (app/src/parser_impl.c:101-151), as functions, and the proof that
    each undoes the other. */
module WireFormat {
  import opened Bytes

  datatype Tag = Tag(key: seq<byte>, value: seq<byte>)

  datatype Tx = Tx(
    format: seq<byte>,
    owner: seq<byte>,
    target: seq<byte>,
    quantity: seq<byte>,
    reward: seq<byte>,
    lastTx: seq<byte>,
    tags: seq<Tag>,
    dataSize: seq<byte>,
    dataRoot: seq<byte>)

  datatype ParserError =
    | UnexpectedTxVersion
    | UnexpectedBufferEnd
    | ValueOutOfRange
    | UnexpectedError
    | UnexpectedValue
    | NoData
    | InitContextEmpty

  const MAX_NUMBER_TAGS: nat := 16
  const OWNER_LEN: nat := 512
  const FORMAT_2: seq<byte> := [50]

  // ----- writing ---------------------------------------------------------------

  /** Two bytes of a Uint8Array: values are stored modulo 256. */
  function EncodeU16(n: nat): (s: seq<byte>)
    ensures |s| == 2
  {
    [n / 256 % 256, n % 256]
  }

  function EncodeWithLen(s: seq<byte>): (r: seq<byte>)
    ensures |r| == |s| + 2
  {
    EncodeU16(|s|) + s
  }

  function EncodeTags(tags: seq<Tag>): seq<byte> {
    if tags == [] then []
    else EncodeWithLen(tags[0].key) + EncodeWithLen(tags[0].value) + EncodeTags(tags[1..])
  }

  function Encode(tx: Tx): seq<byte> {
    EncodeWithLen(tx.format) + (EncodeWithLen(tx.owner) + (EncodeWithLen(tx.target) +
    (EncodeWithLen(tx.quantity) + (EncodeWithLen(tx.reward) + (EncodeWithLen(tx.lastTx) +
    (EncodeU16(|tx.tags|) + (EncodeTags(tx.tags) +
    (EncodeWithLen(tx.dataSize) + EncodeWithLen(tx.dataRoot)))))))))
  }

  /** Two bytes, the more significant one first. */
  lemma U16IsBigEndian(n: u16, b: seq<byte>)
    ensures FromBigEndian(EncodeU16(n)) == n && EncodeU16(n)[0] == n / 256
    ensures |b| >= 2 ==> ParseU16(b, 0) == Ok(FromBigEndian(b[..2]), 2)
    ensures |b| >= 2 && b[1] == 0 ==> ParseU16(b, 0) == Ok(256 * (b[0] as int), 2)
  {
    var e := EncodeU16(n);
    TwoBytes(e);
    if |b| >= 2 { TwoBytes(b[..2]); }
  }

  lemma TwoBytes(s: seq<byte>)
    requires |s| == 2
    ensures FromBigEndian(s) == 256 * (s[0] as int) + s[1]
  {
    assert s[..1][..0] == [];
    assert FromBigEndian(s[..1]) == s[0];
  }

  /** Length fields have sixteen bits. */
  predicate Fits(s: seq<byte>) {
    |s| < 0x1_0000
  }

  predicate TagsFit(tags: seq<Tag>) {
    forall i :: 0 <= i < |tags| ==> Fits(tags[i].key) && Fits(tags[i].value)
  }

  /** The transactions the device can be sent. */
  predicate Valid(tx: Tx) {
    && tx.format == FORMAT_2
    && |tx.owner| == OWNER_LEN
    && Fits(tx.target) && Fits(tx.quantity) && Fits(tx.reward) && Fits(tx.lastTx)
    && |tx.tags| <= MAX_NUMBER_TAGS && TagsFit(tx.tags)
    && Fits(tx.dataSize) && Fits(tx.dataRoot)
  }

  // ----- reading ---------------------------------------------------------------

  datatype Parsed<+T> = Ok(value: T, next: nat) | Fail(error: ParserError) {
    predicate IsFailure() {
      Fail?
    }

    function PropagateFailure<U>(): Parsed<U>
      requires Fail?
    {
      Fail(error)
    }

    function Extract(): (T, nat)
      requires Ok?
    {
      (value, next)
    }
  }

  function ParseU16(b: seq<byte>, at: nat): (r: Parsed<u16>)
  {
    if at + 2 > |b| then Fail(UnexpectedBufferEnd)
    else
      var v: int := (b[at] as int) * 256 + b[at + 1] as int;
      Ok(v as u16, at + 2)
  }

  function ParseElement(b: seq<byte>, at: nat): Parsed<seq<byte>> {
    var (len, start) :- ParseU16(b, at);
    if start + len > |b| then Fail(UnexpectedBufferEnd)
    else Ok(b[start..start + len], start + len)
  }

  function ParseTag(b: seq<byte>, at: nat): Parsed<Tag> {
    var (key, next) :- ParseElement(b, at);
    var (value, next') :- ParseElement(b, next);
    Ok(Tag(key, value), next')
  }

  function ParseTags(b: seq<byte>, at: nat, n: nat): Parsed<seq<Tag>>
    decreases n
  {
    if n == 0 then Ok([], at)
    else
      var (tag, next) :- ParseTag(b, at);
      var (tags, next') :- ParseTags(b, next, n - 1);
      Ok([tag] + tags, next')
  }

  function ParseTagList(b: seq<byte>, at: nat): Parsed<seq<Tag>> {
    var (n, next) :- ParseU16(b, at);
    if n > MAX_NUMBER_TAGS then Fail(ValueOutOfRange) else ParseTags(b, next, n)
  }

  function ParseFormat(b: seq<byte>, at: nat): Parsed<seq<byte>> {
    var (format, next) :- ParseElement(b, at);
    if format != FORMAT_2 then Fail(UnexpectedTxVersion) else Ok(format, next)
  }

  function ParseOwner(b: seq<byte>, at: nat): Parsed<seq<byte>> {
    var (owner, next) :- ParseElement(b, at);
    if |owner| != OWNER_LEN then Fail(UnexpectedTxVersion) else Ok(owner, next)
  }

  /** The four fields between the owner and the tags. */
  function ParseFour(b: seq<byte>, at: nat): Parsed<(seq<byte>, seq<byte>, seq<byte>, seq<byte>)> {
    var (target, n2) :- ParseElement(b, at);
    var (quantity, n3) :- ParseElement(b, n2);
    var (reward, n4) :- ParseElement(b, n3);
    var (lastTx, n5) :- ParseElement(b, n4);
    Ok((target, quantity, reward, lastTx), n5)
  }

  /** _read */
  function ParseTx(b: seq<byte>): Parsed<Tx> {
    var (format, n0) :- ParseFormat(b, 0);
    var (owner, n1) :- ParseOwner(b, n0);
    var (four, n5) :- ParseFour(b, n1);
    var (tags, n6) :- ParseTagList(b, n5);
    var (dataSize, n7) :- ParseElement(b, n6);
    var (dataRoot, n8) :- ParseElement(b, n7);
    Ok(Tx(format, owner, four.0, four.1, four.2, four.3, tags, dataSize, dataRoot), n8)
  }

  // ----- reading and writing are inverse ---------------------------------------

  /** The bytes s stand in b at this position. */
  predicate At(b: seq<byte>, at: nat, s: seq<byte>) {
    at + |s| <= |b| && b[at..at + |s|] == s
  }

  lemma AtAppend(b: seq<byte>, at: nat, s: seq<byte>, t: seq<byte>)
    ensures At(b, at, s + t) <==> At(b, at, s) && At(b, at + |s|, t)
  {
    if At(b, at, s + t) {
      assert b[at..at + |s|] == (s + t)[..|s|] == s;
      assert b[at + |s|..at + |s| + |t|] == (s + t)[|s|..] == t;
    }
  }

  lemma U16Inverse(b: seq<byte>, at: nat, n: nat, next: nat)
    ensures ParseU16(b, at) == Ok(n, next) <==>
            n < 0x1_0000 && At(b, at, EncodeU16(n)) && next == at + 2
  {
    if at + 2 <= |b| {
      assert b[at..at + 2] == [b[at], b[at + 1]];
    }
  }

  lemma ElementInverse(b: seq<byte>, at: nat, s: seq<byte>, next: nat)
    ensures ParseElement(b, at) == Ok(s, next) <==>
            Fits(s) && At(b, at, EncodeWithLen(s)) && next == at + 2 + |s|
  {
    hide EncodeU16;
    AtAppend(b, at, EncodeU16(|s|), s);
    U16Inverse(b, at, |s|, at + 2);
    if ParseU16(b, at).Ok? {
      var n := ParseU16(b, at).value;
      if At(b, at, EncodeWithLen(s)) && Fits(s) {
        assert n == |s|;
      }
    }
  }

  lemma TagInverse(b: seq<byte>, at: nat, t: Tag, next: nat)
    ensures ParseTag(b, at) == Ok(t, next) <==>
            && Fits(t.key) && Fits(t.value)
            && At(b, at, EncodeWithLen(t.key) + EncodeWithLen(t.value))
            && next == at + 4 + |t.key| + |t.value|
  {
    hide ParseElement, EncodeWithLen, At;
    var mid := at + 2 + |t.key|;
    AtAppend(b, at, EncodeWithLen(t.key), EncodeWithLen(t.value));
    ElementInverse(b, at, t.key, mid);
    ElementInverse(b, mid, t.value, next);
    match ParseElement(b, at) {
      case Ok(key, n) => ElementInverse(b, at, key, n);
      case Fail(_) =>
    }
  }

  lemma EncodeTagsHead(tags: seq<Tag>)
    requires tags != []
    ensures EncodeTags(tags)
         == (EncodeWithLen(tags[0].key) + EncodeWithLen(tags[0].value)) + EncodeTags(tags[1..])
  {
  }

  lemma TagsFitHead(t: Tag, rest: seq<Tag>)
    ensures TagsFit([t] + rest) <==> Fits(t.key) && Fits(t.value) && TagsFit(rest)
  {
    var tags := [t] + rest;
    assert tags[0] == t;
    assert forall i :: 0 <= i < |rest| ==> rest[i] == tags[i + 1];
  }

  lemma ParseTagsStep(b: seq<byte>, at: nat, n: nat)
    requires n > 0
    ensures var t := ParseTag(b, at);
            ParseTags(b, at, n).Ok? <==> t.Ok? && ParseTags(b, t.next, n - 1).Ok?
    ensures var t := ParseTag(b, at);
            t.Ok? ==>
              var rest := ParseTags(b, t.next, n - 1);
              rest.Ok? ==> ParseTags(b, at, n) == Ok([t.value] + rest.value, rest.next)
  {
    hide ParseTag;
  }

  lemma NoTags(b: seq<byte>, at: nat)
    requires at <= |b|
    ensures ParseTags(b, at, 0) == Ok([], at)
    ensures EncodeTags([]) == [] && TagsFit([]) && At(b, at, [])
  {
    assert b[at..at] == [];
  }

  lemma {:induction false} TagsWritten(b: seq<byte>, at: nat, tags: seq<Tag>)
    requires at <= |b| && TagsFit(tags) && At(b, at, EncodeTags(tags))
    ensures ParseTags(b, at, |tags|) == Ok(tags, at + |EncodeTags(tags)|)
    decreases |tags|
  {
    hide ParseTag, ParseTags, EncodeWithLen, EncodeTags, TagsFit, Fits, At;
    NoTags(b, at);
    if tags != [] {
      var t, rest := tags[0], tags[1..];
      assert tags == [t] + rest;
      var first := EncodeWithLen(t.key) + EncodeWithLen(t.value);
      var next := at + |first|;
      EncodeTagsHead(tags);
      TagsFitHead(t, rest);
      AtAppend(b, at, first, EncodeTags(rest));
      AtBounds(b, at, first);
      TagInverse(b, at, t, next);
      assert ParseTag(b, at) == Ok(t, next);
      ParseTagsStep(b, at, |tags|);
      TagsWritten(b, next, rest);
    }
  }

  lemma {:induction false} TagsRead(b: seq<byte>, at: nat, n: nat)
    requires at <= |b| && ParseTags(b, at, n).Ok?
    ensures var r := ParseTags(b, at, n);
            && |r.value| == n && TagsFit(r.value)
            && At(b, at, EncodeTags(r.value)) && r.next == at + |EncodeTags(r.value)|
    decreases n
  {
    hide ParseTag, ParseTags, EncodeWithLen, EncodeTags, TagsFit, Fits, At;
    NoTags(b, at);
    if n > 0 {
      var t := ParseTag(b, at);
      ParseTagsStep(b, at, n);
      var rest := ParseTags(b, t.next, n - 1);
      var first := EncodeWithLen(t.value.key) + EncodeWithLen(t.value.value);
      TagInverse(b, at, t.value, t.next);
      AtBounds(b, at, first);
      TagsRead(b, t.next, n - 1);
      assert ([t.value] + rest.value)[1..] == rest.value;
      EncodeTagsHead([t.value] + rest.value);
      TagsFitHead(t.value, rest.value);
      AtAppend(b, at, first, EncodeTags(rest.value));
    }
  }

  lemma TagsInverse(b: seq<byte>, at: nat, tags: seq<Tag>, next: nat)
    requires at <= |b|
    ensures ParseTags(b, at, |tags|) == Ok(tags, next) <==>
            TagsFit(tags) && At(b, at, EncodeTags(tags)) && next == at + |EncodeTags(tags)|
  {
    hide ParseTags, EncodeTags, TagsFit, At;
    if ParseTags(b, at, |tags|).Ok? {
      TagsRead(b, at, |tags|);
    }
    if TagsFit(tags) && At(b, at, EncodeTags(tags)) {
      TagsWritten(b, at, tags);
    }
  }

  lemma AtBounds(b: seq<byte>, at: nat, s: seq<byte>)
    ensures At(b, at, s) ==> at + |s| <= |b|
  {
  }

  lemma TagListInverse(b: seq<byte>, at: nat, tags: seq<Tag>, next: nat)
    ensures ParseTagList(b, at) == Ok(tags, next) <==>
            && |tags| <= MAX_NUMBER_TAGS && TagsFit(tags)
            && At(b, at, EncodeU16(|tags|) + EncodeTags(tags))
            && next == at + 2 + |EncodeTags(tags)|
  {
    hide EncodeU16, EncodeTags, ParseTags;
    AtAppend(b, at, EncodeU16(|tags|), EncodeTags(tags));
    U16Inverse(b, at, |tags|, at + 2);
    match ParseU16(b, at) {
      case Ok(n, start) =>
        U16Inverse(b, at, n, start);
        TagsInverse(b, start, tags, next);
        if ParseTags(b, start, n).Ok? { TagsRead(b, start, n); }
      case Fail(_) =>
    }
  }

  // The fields of a transaction in order, each with the position it starts at.
  function Position(tx: Tx, i: nat): nat
    requires i <= 8
  {
    if i == 0 then 0
    else if i == 1 then 2 + |tx.format|
    else if i == 2 then Position(tx, 1) + 2 + |tx.owner|
    else if i == 3 then Position(tx, 2) + 2 + |tx.target|
    else if i == 4 then Position(tx, 3) + 2 + |tx.quantity|
    else if i == 5 then Position(tx, 4) + 2 + |tx.reward|
    else if i == 6 then Position(tx, 5) + 2 + |tx.lastTx|
    else if i == 7 then Position(tx, 6) + 2 + |EncodeTags(tx.tags)|
    else Position(tx, 7) + 2 + |tx.dataSize|
  }

  /** An encoding stands at the front of b exactly when every field stands in its place. */
  ghost predicate FieldsInPlace(b: seq<byte>, tx: Tx) {
    && At(b, 0, EncodeWithLen(tx.format))
    && At(b, Position(tx, 1), EncodeWithLen(tx.owner))
    && At(b, Position(tx, 2), EncodeWithLen(tx.target))
    && At(b, Position(tx, 3), EncodeWithLen(tx.quantity))
    && At(b, Position(tx, 4), EncodeWithLen(tx.reward))
    && At(b, Position(tx, 5), EncodeWithLen(tx.lastTx))
    && At(b, Position(tx, 6), EncodeU16(|tx.tags|) + EncodeTags(tx.tags))
    && At(b, Position(tx, 7), EncodeWithLen(tx.dataSize))
    && At(b, Position(tx, 8), EncodeWithLen(tx.dataRoot))
  }

  lemma EncodingInPlace(b: seq<byte>, tx: Tx)
    ensures At(b, 0, Encode(tx)) <==> FieldsInPlace(b, tx)
    ensures |Encode(tx)| == Position(tx, 8) + 2 + |tx.dataRoot|
  {
    hide At, EncodeWithLen, EncodeU16, EncodeTags;
    var e8 := EncodeWithLen(tx.dataSize) + EncodeWithLen(tx.dataRoot);
    var list := EncodeU16(|tx.tags|) + EncodeTags(tx.tags);
    var e6 := list + e8;
    var e5 := EncodeWithLen(tx.lastTx) + e6;
    var e4 := EncodeWithLen(tx.reward) + e5;
    var e3 := EncodeWithLen(tx.quantity) + e4;
    var e2 := EncodeWithLen(tx.target) + e3;
    var e1 := EncodeWithLen(tx.owner) + e2;
    assert EncodeU16(|tx.tags|) + (EncodeTags(tx.tags) + e8) == e6;
    assert Encode(tx) == EncodeWithLen(tx.format) + e1;
    AtAppend(b, 0, EncodeWithLen(tx.format), e1);
    AtAppend(b, Position(tx, 1), EncodeWithLen(tx.owner), e2);
    AtAppend(b, Position(tx, 2), EncodeWithLen(tx.target), e3);
    AtAppend(b, Position(tx, 3), EncodeWithLen(tx.quantity), e4);
    AtAppend(b, Position(tx, 4), EncodeWithLen(tx.reward), e5);
    AtAppend(b, Position(tx, 5), EncodeWithLen(tx.lastTx), e6);
    AtAppend(b, Position(tx, 6), list, e8);
    AtAppend(b, Position(tx, 7), EncodeWithLen(tx.dataSize), EncodeWithLen(tx.dataRoot));
  }

  lemma FormatInverse(b: seq<byte>, at: nat, s: seq<byte>, next: nat)
    ensures ParseFormat(b, at) == Ok(s, next) <==>
            s == FORMAT_2 && At(b, at, EncodeWithLen(s)) && next == at + 2 + |s|
  {
    hide ParseElement, EncodeWithLen;
    ElementInverse(b, at, s, next);
  }

  lemma OwnerInverse(b: seq<byte>, at: nat, s: seq<byte>, next: nat)
    ensures ParseOwner(b, at) == Ok(s, next) <==>
            |s| == OWNER_LEN && At(b, at, EncodeWithLen(s)) && next == at + 2 + |s|
  {
    hide ParseElement, EncodeWithLen;
    ElementInverse(b, at, s, next);
  }

  lemma FourInverse(b: seq<byte>, at: nat, s: (seq<byte>, seq<byte>, seq<byte>, seq<byte>), next: nat)
    ensures ParseFour(b, at) == Ok(s, next) <==>
            && Fits(s.0) && Fits(s.1) && Fits(s.2) && Fits(s.3)
            && At(b, at, EncodeWithLen(s.0))
            && At(b, at + 2 + |s.0|, EncodeWithLen(s.1))
            && At(b, at + 4 + |s.0| + |s.1|, EncodeWithLen(s.2))
            && At(b, at + 6 + |s.0| + |s.1| + |s.2|, EncodeWithLen(s.3))
            && next == at + 8 + |s.0| + |s.1| + |s.2| + |s.3|
  {
    hide ParseElement, EncodeWithLen, At;
    var n1 := at + 2 + |s.0|;
    var n2 := n1 + 2 + |s.1|;
    var n3 := n2 + 2 + |s.2|;
    ElementInverse(b, at, s.0, n1);
    ElementInverse(b, n1, s.1, n2);
    ElementInverse(b, n2, s.2, n3);
    ElementInverse(b, n3, s.3, next);
    if ParseFour(b, at).Ok? {
      var r := ParseFour(b, at).value;
      var m1 := ParseElement(b, at).next;
      var m2 := ParseElement(b, m1).next;
      var m3 := ParseElement(b, m2).next;
      ElementInverse(b, at, r.0, m1);
      ElementInverse(b, m1, r.1, m2);
      ElementInverse(b, m2, r.2, m3);
    }
  }

  /** On the encoding of a valid transaction, followed by anything, the reader returns the
      transaction and stops at the end of its encoding. */
  lemma ReadsEncoding(b: seq<byte>, tx: Tx)
    requires Valid(tx) && Encode(tx) <= b
    ensures ParseTx(b) == Ok(tx, |Encode(tx)|)
  {
    hide ParseElement, ParseFormat, ParseOwner, ParseFour, ParseTagList, EncodeWithLen, EncodeU16, EncodeTags, Encode;
    assert At(b, 0, Encode(tx));
    EncodingInPlace(b, tx);
    FormatInverse(b, 0, tx.format, Position(tx, 1));
    OwnerInverse(b, Position(tx, 1), tx.owner, Position(tx, 2));
    FourInverse(b, Position(tx, 2), (tx.target, tx.quantity, tx.reward, tx.lastTx), Position(tx, 6));
    TagListInverse(b, Position(tx, 6), tx.tags, Position(tx, 7));
    ElementInverse(b, Position(tx, 7), tx.dataSize, Position(tx, 8));
    ElementInverse(b, Position(tx, 8), tx.dataRoot, |Encode(tx)|);
  }

  /** Whatever the reader accepts is a valid transaction, and the bytes it consumed are
      the encoding of that transaction. */
  lemma ReadIsEncoding(b: seq<byte>)
    requires ParseTx(b).Ok?
    ensures Valid(ParseTx(b).value)
    ensures Encode(ParseTx(b).value) <= b && ParseTx(b).next == |Encode(ParseTx(b).value)|
  {
    hide ParseElement, ParseFormat, ParseOwner, ParseFour, ParseTagList, EncodeWithLen, EncodeU16, EncodeTags, Encode;
    hide At;
    var tx := ParseTx(b).value;
    var n0 := ParseFormat(b, 0).next;
    var n1 := ParseOwner(b, n0).next;
    var n5 := ParseFour(b, n1).next;
    var n6 := ParseTagList(b, n5).next;
    var n7 := ParseElement(b, n6).next;
    FormatInverse(b, 0, tx.format, n0);
    OwnerInverse(b, n0, tx.owner, n1);
    FourInverse(b, n1, (tx.target, tx.quantity, tx.reward, tx.lastTx), n5);
    TagListInverse(b, n5, tx.tags, n6);
    ElementInverse(b, n6, tx.dataSize, n7);
    ElementInverse(b, n7, tx.dataRoot, ParseTx(b).next);
    EncodingInPlace(b, tx);
    AtFront(b, Encode(tx));
  }

  lemma AtFront(b: seq<byte>, s: seq<byte>)
    ensures At(b, 0, s) <==> s <= b
  {
  }

  /** The reader fails exactly when no valid encoding is a prefix of the buffer. */
  lemma ReadFailsExactly(b: seq<byte>)
    ensures ParseTx(b).Fail? <==> !exists tx :: Valid(tx) && Encode(tx) <= b
  {
    if ParseTx(b).Ok? {
      ReadIsEncoding(b);
    } else if tx :| Valid(tx) && Encode(tx) <= b {
      ReadsEncoding(b, tx);
    }
  }

  // ----- which error ---------------------------------------------------------------

  lemma ElementError(b: seq<byte>, at: nat)
    ensures ParseElement(b, at).Fail? ==> ParseElement(b, at).error == UnexpectedBufferEnd
  {
  }

  lemma {:induction false} TagsError(b: seq<byte>, at: nat, n: nat)
    ensures ParseTags(b, at, n).Fail? ==> ParseTags(b, at, n).error == UnexpectedBufferEnd
    decreases n
  {
    hide ParseElement;
    if n > 0 {
      ElementError(b, at);
      if ParseElement(b, at).Ok? { ElementError(b, ParseElement(b, at).next); }
      if ParseTag(b, at).Ok? { TagsError(b, ParseTag(b, at).next, n - 1); }
    }
  }

  lemma FourError(b: seq<byte>, at: nat)
    ensures ParseFour(b, at).Fail? ==> ParseFour(b, at).error == UnexpectedBufferEnd
  {
    hide ParseElement;
    ElementError(b, at);
    if ParseElement(b, at).Ok? {
      var n2 := ParseElement(b, at).next;
      ElementError(b, n2);
      if ParseElement(b, n2).Ok? {
        var n3 := ParseElement(b, n2).next;
        ElementError(b, n3);
        if ParseElement(b, n3).Ok? { ElementError(b, ParseElement(b, n3).next); }
      }
    }
  }

  /** The first element is there and is not "2", or it is, and the second one is there and
      does not have 512 bytes. */
  ghost predicate WrongVersion(b: seq<byte>) {
    || (exists s :: IsElement(b, 0, s) && s != [50])
    || (IsElement(b, 0, [50]) && exists s :: IsElement(b, 3, s) && |s| != 512)
  }

  predicate IsElement(b: seq<byte>, at: nat, s: seq<byte>) {
    Fits(s) && At(b, at, EncodeWithLen(s))
  }

  /** The six elements in front of the tags are there, and a number of more than 16 tags. */
  ghost predicate TooManyTags(b: seq<byte>) {
    && IsElement(b, 0, [50])
    && (exists s :: IsElement(b, 3, s) && |s| == 512)
    && exists target, quantity, reward, lastTx :: ManyTagsBehind(b, target, quantity, reward, lastTx)
  }

  predicate ManyTagsBehind(b: seq<byte>, target: seq<byte>, quantity: seq<byte>, reward: seq<byte>,
                           lastTx: seq<byte>) {
    var n2 := 517 + 2 + |target|;
    var n3 := n2 + 2 + |quantity|;
    var n4 := n3 + 2 + |reward|;
    var n5 := n4 + 2 + |lastTx|;
    && IsElement(b, 517, target) && IsElement(b, n2, quantity) && IsElement(b, n3, reward)
    && IsElement(b, n4, lastTx)
    && n5 + 2 <= |b| && FromBigEndian(b[n5..n5 + 2]) > 16
  }

  lemma ElementIs(b: seq<byte>, at: nat, s: seq<byte>)
    ensures IsElement(b, at, s) <==> ParseElement(b, at) == Ok(s, at + 2 + |s|)
    ensures ParseElement(b, at).Ok? ==> IsElement(b, at, ParseElement(b, at).value)
    ensures ParseElement(b, at).Ok? ==> ParseElement(b, at).next == at + 2 + |ParseElement(b, at).value|
  {
    hide ParseElement, EncodeWithLen;
    ElementInverse(b, at, s, at + 2 + |s|);
    if ParseElement(b, at).Ok? {
      ElementInverse(b, at, ParseElement(b, at).value, ParseElement(b, at).next);
    }
  }

  lemma FormatError(b: seq<byte>)
    ensures ParseFormat(b, 0) == Fail(UnexpectedTxVersion) <==> exists s :: IsElement(b, 0, s) && s != [50]
    ensures ParseFormat(b, 0).Ok? <==> IsElement(b, 0, [50])
    ensures ParseFormat(b, 0).Ok? ==> ParseFormat(b, 0).next == 3
    ensures ParseFormat(b, 0).Fail? ==> ParseFormat(b, 0).error in {UnexpectedTxVersion, UnexpectedBufferEnd}
  {
    hide ParseElement, IsElement;
    ElementError(b, 0);
    ElementIs(b, 0, [50]);
    if s :| IsElement(b, 0, s) && s != [50] { ElementIs(b, 0, s); }
  }

  lemma OwnerError(b: seq<byte>)
    ensures ParseOwner(b, 3) == Fail(UnexpectedTxVersion) <==> exists s :: IsElement(b, 3, s) && |s| != 512
    ensures ParseOwner(b, 3).Ok? <==> exists s :: IsElement(b, 3, s) && |s| == 512
    ensures ParseOwner(b, 3).Ok? ==> ParseOwner(b, 3).next == 517
    ensures ParseOwner(b, 3).Fail? ==> ParseOwner(b, 3).error in {UnexpectedTxVersion, UnexpectedBufferEnd}
  {
    hide ParseElement, IsElement;
    ElementError(b, 3);
    ElementIs(b, 3, []);
    if s :| IsElement(b, 3, s) && |s| != 512 { ElementIs(b, 3, s); }
    if s :| IsElement(b, 3, s) && |s| == 512 { ElementIs(b, 3, s); }
  }

  lemma TagCountError(b: seq<byte>, at: nat)
    ensures ParseTagList(b, at) == Fail(ValueOutOfRange) <==> at + 2 <= |b| && FromBigEndian(b[at..at + 2]) > 16
    ensures ParseTagList(b, at).Fail? ==> ParseTagList(b, at).error in {ValueOutOfRange, UnexpectedBufferEnd}
  {
    hide ParseTags;
    if at + 2 <= |b| {
      TwoBytes(b[at..at + 2]);
      assert b[at..at + 2][0] == b[at] && b[at..at + 2][1] == b[at + 1];
      TagsError(b, at + 2, ParseU16(b, at).value);
    }
  }

  lemma ManyTagsExactly(b: seq<byte>)
    ensures (exists target, quantity, reward, lastTx :: ManyTagsBehind(b, target, quantity, reward, lastTx)) <==>
            ParseFour(b, 517).Ok? && ParseTagList(b, ParseFour(b, 517).next) == Fail(ValueOutOfRange)
  {
    hide ParseFour, ParseTagList, EncodeWithLen;
    if target, quantity, reward, lastTx :| ManyTagsBehind(b, target, quantity, reward, lastTx) {
      var n5 := 525 + |target| + |quantity| + |reward| + |lastTx|;
      FourInverse(b, 517, (target, quantity, reward, lastTx), n5);
      TagCountError(b, n5);
    }
    if ParseFour(b, 517).Ok? {
      var four, n5 := ParseFour(b, 517).value, ParseFour(b, 517).next;
      FourInverse(b, 517, four, n5);
      TagCountError(b, n5);
      if ParseTagList(b, n5) == Fail(ValueOutOfRange) {
        assert ManyTagsBehind(b, four.0, four.1, four.2, four.3);
      }
    }
  }

  /** The error of a failed read, in terms of what stands in the buffer. */
  lemma ParseErrorExactly(b: seq<byte>)
    ensures ParseTx(b) == Fail(UnexpectedTxVersion) <==> WrongVersion(b)
    ensures ParseTx(b) == Fail(ValueOutOfRange) <==> TooManyTags(b)
    ensures ParseTx(b).Fail? ==> ParseTx(b).error in {UnexpectedTxVersion, ValueOutOfRange, UnexpectedBufferEnd}
  {
    hide ParseFormat, ParseOwner, ParseFour, ParseTagList, ParseElement, IsElement, ManyTagsBehind;
    FormatError(b);
    OwnerError(b);
    FourError(b, 517);
    ManyTagsExactly(b);
    OnlyOneElement(b, 0);
    OnlyOneElement(b, 3);
    if ParseFour(b, 517).Ok? {
      var n5 := ParseFour(b, 517).next;
      TagCountError(b, n5);
      if ParseTagList(b, n5).Ok? {
        var n6 := ParseTagList(b, n5).next;
        ElementError(b, n6);
        if ParseElement(b, n6).Ok? { ElementError(b, ParseElement(b, n6).next); }
      }
    }
  }

  lemma OnlyOneElement(b: seq<byte>, at: nat)
    ensures forall s, t :: IsElement(b, at, s) && IsElement(b, at, t) ==> s == t
  {
    hide ParseElement, IsElement;
    forall s, t | IsElement(b, at, s) && IsElement(b, at, t) ensures s == t {
      ElementIs(b, at, s);
      ElementIs(b, at, t);
    }
  }

  /** No encoding is a proper prefix of another, and encodings determine transactions. */
  lemma EncodingsArePrefixFree(t1: Tx, t2: Tx)
    requires Valid(t1) && Valid(t2) && Encode(t1) <= Encode(t2)
    ensures t1 == t2
  {
    hide ParseTx, Encode, Valid;
    ReadsEncoding(Encode(t2), t1);
    ReadsEncoding(Encode(t2), t2);
  }

  /** Bytes after the transaction are not looked at: the result only depends on the
      bytes consumed. */
  lemma TrailingBytesAreIgnored(b: seq<byte>, more: seq<byte>)
    requires ParseTx(b).Ok?
    ensures ParseTx(b[..ParseTx(b).next] + more) == ParseTx(b)
  {
    hide ParseTx, Encode, Valid;
    ReadIsEncoding(b);
    assert b[..ParseTx(b).next] == Encode(ParseTx(b).value);
    ReadsEncoding(Encode(ParseTx(b).value) + more, ParseTx(b).value);
  }
}
