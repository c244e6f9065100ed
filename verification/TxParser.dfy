/** The cursor parser that fills the global transaction object
    (app/src/parser_impl.c:28-151, app/src/parser.c:35-41). */
module TxParser {
  import opened Bytes
  import opened WireFormat

  datatype Status = Accepted | Rejected(error: ParserError)

  /** parser_element_t: a length and a pointer into the transaction buffer. */
  datatype Element = Element(len: u16, ptr: nat) {
    predicate InBounds(data: seq<byte>) {
      ptr + len <= |data|
    }

    function Bytes(data: seq<byte>): seq<byte>
      requires InBounds(data)
    {
      data[ptr..ptr + len]
    }
  }

  datatype TagElement = TagElement(key: Element, value: Element) {
    predicate InBounds(data: seq<byte>) {
      key.InBounds(data) && value.InBounds(data)
    }

    function Tag(data: seq<byte>): Tag
      requires InBounds(data)
    {
      WireFormat.Tag.Tag(key.Bytes(data), value.Bytes(data))
    }
  }

  /** parser_tx_t, of which the app has one global instance (parser_tx_obj). */
  class TxObject {
    var format: Element
    var owner: Element
    var target: Element
    var quantity: Element
    var reward: Element
    var lastTx: Element
    var tagsCount: u16
    const tags: array<TagElement>
    var dataSize: Element
    var dataRoot: Element

    constructor ()
      ensures tags.Length == MAX_NUMBER_TAGS && fresh(tags)
    {
      var none := Element(0, 0);
      format, owner, target, quantity, reward, lastTx := none, none, none, none, none, none;
      tagsCount, dataSize, dataRoot := 0, none, none;
      tags := new TagElement[MAX_NUMBER_TAGS](_ => TagElement(none, none));
    }

    /** All pointers that count point into the buffer; entries of the table at and beyond
        tags_count are left over from earlier parses and may point anywhere. */
    predicate InBounds(data: seq<byte>)
      reads this, tags
    {
      && format.InBounds(data) && owner.InBounds(data) && target.InBounds(data)
      && quantity.InBounds(data) && reward.InBounds(data) && lastTx.InBounds(data)
      && tagsCount <= tags.Length == MAX_NUMBER_TAGS
      && (forall i :: 0 <= i < tagsCount ==> tags[i].InBounds(data))
      && dataSize.InBounds(data) && dataRoot.InBounds(data)
    }

    /** The transaction the object stands for. */
    function View(data: seq<byte>): Tx
      requires InBounds(data)
      reads this, tags
    {
      Tx(format.Bytes(data), owner.Bytes(data), target.Bytes(data), quantity.Bytes(data),
         reward.Bytes(data), lastTx.Bytes(data), TagViews(data, tags[..tagsCount]),
         dataSize.Bytes(data), dataRoot.Bytes(data))
    }
  }

  function TagViews(data: seq<byte>, elements: seq<TagElement>): (tags: seq<Tag>)
    requires forall i :: 0 <= i < |elements| ==> elements[i].InBounds(data)
    ensures |tags| == |elements|
    ensures forall i :: 0 <= i < |tags| ==> tags[i] == elements[i].Tag(data)
  {
    seq(|elements|, i requires 0 <= i < |elements| => elements[i].Tag(data))
  }

  /** parser_context_t */
  class ParserContext {
    var buffer: seq<byte>
    var bufferLen: u16
    var offset: u16

    predicate Valid()
      reads this
    {
      offset <= bufferLen <= |buffer|
    }

    /** The bytes the parser may look at. */
    function Data(): seq<byte>
      requires Valid()
      reads this
    {
      buffer[..bufferLen]
    }

    constructor ()
      ensures Valid()
    {
      buffer, bufferLen, offset := [], 0, 0;
    }

    /** parser_init_context; the size argument has sixteen bits. */
    method Init(data: seq<byte>, size: u16) returns (status: Status)
      requires size <= |data|
      modifies this
      ensures Valid() && offset == 0
      ensures if size == 0 then status == Rejected(InitContextEmpty)
              else status == Accepted && Data() == data[..size]
    {
      buffer, bufferLen, offset := [], 0, 0;
      if size == 0 {
        return Rejected(InitContextEmpty);
      }
      buffer, bufferLen := data, size;
      return Accepted;
    }

    /** parser_readU16 */
    method ReadU16(before: u16) returns (status: Status, v: u16)
      requires Valid()
      modifies this`offset
      ensures Valid()
      ensures match ParseU16(Data(), old(offset))
              case Ok(n, next) => status == Accepted && v == n && offset == next
              case Fail(e) => status == Rejected(e)
    {
      v := before;
      if offset + 2 > bufferLen {
        return Rejected(UnexpectedBufferEnd), v;
      }
      v := buffer[offset] as int * 256;
      v := v + buffer[offset + 1];
      offset := offset + 2;
      status := Accepted;
    }

    /** parser_readElement; the element is written through its pointer. */
    method ReadElement(before: Element) returns (status: Status, v: Element)
      requires Valid()
      modifies this`offset
      ensures Valid()
      ensures match ParseElement(Data(), old(offset))
              case Ok(s, next) =>
                && status == Accepted && offset == next
                && v.InBounds(Data()) && v.Bytes(Data()) == s
              case Fail(e) => status == Rejected(e)
    {
      v := before;
      var len;
      status, len := ReadU16(v.len);
      v := v.(len := len);
      if status != Accepted { return; }
      if offset + v.len > bufferLen {
        return Rejected(UnexpectedBufferEnd), v;
      }
      v := v.(ptr := offset);
      offset := offset + v.len;
    }

    /** parser_readTag */
    method ReadTag(before: TagElement) returns (status: Status, v: TagElement)
      requires Valid()
      modifies this`offset
      ensures Valid()
      ensures match ParseTag(Data(), old(offset))
              case Ok(t, next) =>
                && status == Accepted && offset == next
                && v.InBounds(Data()) && v.Tag(Data()) == t
              case Fail(e) => status == Rejected(e)
    {
      hide ParseElement;
      v := before;
      var key, value;
      status, key := ReadElement(v.key);
      v := v.(key := key);
      if status != Accepted { return; }
      status, value := ReadElement(v.value);
      v := v.(value := value);
    }

    /** The loop over the tags, after their number has been read. */
    method ReadTags(v: TxObject) returns (status: Status)
      requires Valid() && v.tags.Length == MAX_NUMBER_TAGS && v.tagsCount <= MAX_NUMBER_TAGS
      modifies this`offset, v.tags
      ensures Valid()
      ensures match ParseTags(Data(), old(offset), v.tagsCount)
              case Ok(tags, next) =>
                && status == Accepted && offset == next
                && (forall i :: 0 <= i < v.tagsCount ==> v.tags[i].InBounds(Data()))
                && TagViews(Data(), v.tags[..v.tagsCount]) == tags
              case Fail(e) => status == Rejected(e)
    {
      hide ParseTag;
      ghost var data, start, n := Data(), offset, v.tagsCount as nat;
      ghost var tags: seq<Tag> := [];
      ResumeStart(data, start, n);
      for i := 0 to v.tagsCount
        invariant Valid() && Data() == data
        invariant |tags| == i
        invariant forall k :: 0 <= k < i ==> v.tags[k].InBounds(data) && v.tags[k].Tag(data) == tags[k]
        invariant Resumes(data, start, n, tags, offset)
      {
        var tag;
        ResumeStep(data, start, n, tags, offset);
        status, tag := ReadTag(v.tags[i]);
        v.tags[i] := tag;
        if status != Accepted { return; }
        tags := tags + [tag.Tag(data)];
      }
      status := Accepted;
      assert TagViews(data, v.tags[..v.tagsCount]) == tags;
    }

    /** The first field of _read must be the one character '2'. */
    method ReadFormat(v: TxObject) returns (status: Status)
      requires Valid()
      modifies this`offset, v`format
      ensures Valid()
      ensures match ParseFormat(Data(), old(offset))
              case Ok(s, next) =>
                status == Accepted && offset == next && v.format.InBounds(Data()) && v.format.Bytes(Data()) == s
              case Fail(e) => status == Rejected(e)
    {
      hide ParseElement;
      var e;
      status, e := ReadElement(v.format);
      v.format := e;
      if status != Accepted { return; }
      FormatIsTwo(Data(), v.format);
      if v.format.len != 1 || buffer[v.format.ptr] != 50 {
        return Rejected(UnexpectedTxVersion);
      }
    }

    method ReadOwner(v: TxObject) returns (status: Status)
      requires Valid()
      modifies this`offset, v`owner
      ensures Valid()
      ensures match ParseOwner(Data(), old(offset))
              case Ok(s, next) =>
                status == Accepted && offset == next && v.owner.InBounds(Data()) && v.owner.Bytes(Data()) == s
              case Fail(e) => status == Rejected(e)
    {
      hide ParseElement;
      var e;
      status, e := ReadElement(v.owner);
      v.owner := e;
      if status != Accepted { return; }
      if v.owner.len != OWNER_LEN {
        return Rejected(UnexpectedTxVersion);
      }
    }

    /** The four fields before the tags. */
    method ReadFour(v: TxObject) returns (status: Status)
      requires Valid()
      modifies this`offset, v`target, v`quantity, v`reward, v`lastTx
      ensures Valid()
      ensures match ParseFour(Data(), old(offset))
              case Ok(s, next) =>
                && status == Accepted && offset == next
                && v.target.InBounds(Data()) && v.target.Bytes(Data()) == s.0
                && v.quantity.InBounds(Data()) && v.quantity.Bytes(Data()) == s.1
                && v.reward.InBounds(Data()) && v.reward.Bytes(Data()) == s.2
                && v.lastTx.InBounds(Data()) && v.lastTx.Bytes(Data()) == s.3
              case Fail(e) => status == Rejected(e)
    {
      hide ParseElement;
      var e;
      status, e := ReadElement(v.target);
      v.target := e;
      if status != Accepted { return; }
      status, e := ReadElement(v.quantity);
      v.quantity := e;
      if status != Accepted { return; }
      status, e := ReadElement(v.reward);
      v.reward := e;
      if status != Accepted { return; }
      status, e := ReadElement(v.lastTx);
      v.lastTx := e;
    }

    /** The tag section of _read. */
    method ReadTagList(v: TxObject) returns (status: Status)
      requires Valid() && v.tags.Length == MAX_NUMBER_TAGS
      modifies this`offset, v`tagsCount, v.tags
      ensures Valid()
      ensures match ParseTagList(Data(), old(offset))
              case Ok(tags, next) =>
                && status == Accepted && offset == next
                && v.tagsCount <= MAX_NUMBER_TAGS
                && (forall i :: 0 <= i < v.tagsCount ==> v.tags[i].InBounds(Data()))
                && TagViews(Data(), v.tags[..v.tagsCount]) == tags
              case Fail(e) => status == Rejected(e)
    {
      hide ParseTags;
      var n;
      status, n := ReadU16(v.tagsCount);
      v.tagsCount := n;
      if status != Accepted { return; }
      if v.tagsCount > MAX_NUMBER_TAGS {
        return Rejected(ValueOutOfRange);
      }
      status := ReadTags(v);
    }

    /** _read: the object is filled in place, field after field. */
    method Read(v: TxObject) returns (status: Status)
      requires Valid() && offset == 0 && v.tags.Length == MAX_NUMBER_TAGS
      modifies this`offset, v, v.tags
      ensures Valid()
      ensures match ParseTx(Data())
              case Ok(tx, next) =>
                status == Accepted && offset == next && v.InBounds(Data()) && v.View(Data()) == tx
              case Fail(e) => status == Rejected(e)
    {
      hide ParseElement, ParseTagList, ParseFormat, ParseOwner, ParseFour, TagViews, Element.Bytes, Element.InBounds;
      hide TagElement.InBounds;
      var e;
      status := ReadFormat(v);
      if status != Accepted { return; }
      status := ReadOwner(v);
      if status != Accepted { return; }
      status := ReadFour(v);
      if status != Accepted { return; }
      status := ReadTagList(v);
      if status != Accepted { return; }

      status, e := ReadElement(v.dataSize);
      v.dataSize := e;
      if status != Accepted { return; }
      status, e := ReadElement(v.dataRoot);
      v.dataRoot := e;
    }
  }

  /** The version check looks at the length and the first byte. */
  lemma FormatIsTwo(data: seq<byte>, e: Element)
    requires e.InBounds(data)
    ensures e.Bytes(data) == FORMAT_2 <==> e.len == 1 && data[e.ptr] == 50
  {
    if e.len == 1 {
      assert e.Bytes(data) == [data[e.ptr]];
    }
  }

  /** Reading n tags from start has the outcome of reading the tags that are missing after
      `done`, from the cursor. */
  ghost predicate Resumes(b: seq<byte>, start: nat, n: nat, done: seq<Tag>, cursor: nat) {
    && |done| <= n
    && ParseTags(b, start, n) == Prepend(done, ParseTags(b, cursor, n - |done|))
  }

  function Prepend(done: seq<Tag>, r: Parsed<seq<Tag>>): Parsed<seq<Tag>> {
    if r.Ok? then Ok(done + r.value, r.next) else r
  }

  lemma ResumeStart(b: seq<byte>, start: nat, n: nat)
    ensures Resumes(b, start, n, [], start)
  {
    var r := ParseTags(b, start, n);
    assert r.Ok? ==> [] + r.value == r.value;
  }

  lemma ResumeStep(b: seq<byte>, start: nat, n: nat, done: seq<Tag>, cursor: nat)
    requires Resumes(b, start, n, done, cursor) && |done| < n
    ensures var r := ParseTag(b, cursor);
            if r.Ok? then Resumes(b, start, n, done + [r.value], r.next)
            else ParseTags(b, start, n) == Fail(r.error)
  {
    hide ParseTag;
    var r := ParseTag(b, cursor);
    if r.Ok? {
      var rest := ParseTags(b, r.next, n - |done| - 1);
      if rest.Ok? {
        assert done + ([r.value] + rest.value) == (done + [r.value]) + rest.value;
      }
    }
  }

  /** parser_parse: the size is cut to sixteen bits when it is passed on. */
  method Parse(ctx: ParserContext, data: seq<byte>, v: TxObject) returns (status: Status)
    requires v.tags.Length == MAX_NUMBER_TAGS
    modifies ctx, v, v.tags
    ensures data == [] ==> status == Rejected(NoData)
    ensures data != [] && |data| % 0x1_0000 == 0 ==> status == Rejected(InitContextEmpty)
    ensures |data| % 0x1_0000 != 0 ==>
              && ctx.Valid() && ctx.Data() == data[..|data| % 0x1_0000]
              && (status == Accepted <==> ParseTx(ctx.Data()).Ok?)
              && (status != Accepted ==> status == Rejected(ParseTx(ctx.Data()).error))
              && (status == Accepted ==>
                    v.InBounds(ctx.Data()) && v.View(ctx.Data()) == ParseTx(ctx.Data()).value)
  {
    hide ParseTx;
    if |data| < 1 {
      return Rejected(NoData);
    }
    status := ctx.Init(data, |data| % 0x1_0000);
    if status != Accepted { return; }
    status := ctx.Read(v);
  }

  /** Two transaction objects with any earlier contents, filled from the same bytes: the same
      outcome and the same transaction. */
  method ParseTwice(data: seq<byte>, v: TxObject, w: TxObject) returns (s: Status, t: Status)
    requires v.tags.Length == w.tags.Length == MAX_NUMBER_TAGS
    requires v != w && v.tags != w.tags && |data| < 0x1_0000
    modifies v, v.tags, w, w.tags
    ensures s == t
    ensures s == Accepted ==> v.InBounds(data) && w.InBounds(data) && v.View(data) == w.View(data)
  {
    hide ParseTx;
    var ctx := new ParserContext();
    s := Parse(ctx, data, v);
    ghost var view := if s == Accepted then Some(v.View(ctx.Data())) else None;
    t := Parse(ctx, data, w);
    if data != [] {
      assert |data| % 0x1_0000 == |data| && data[..|data|] == data;
    }
  }
}
