/** The review screen: which items are shown, with which text, and when showing an item can
    fail (app/src/parser.c:43-58, 162-341, app/src/parser_impl.c:153-181). */
module Display {
  import opened Bytes
  import opened CStrings
  import opened WireFormat
  import opened TxParser
  import Base64Url

  const CONST_NUM_UI_ITEMS: nat := 4
  const DATA_SIZE_NUM_UI_ITEMS: nat := 1
  const DATA_ROOT_NUM_UI_ITEMS: nat := 1
  const UI_BUFFER: nat := 200

  /** Library routines whose text is not part of this model: the decimal formatting of an
      amount (no result: the routine reports an error), and the cutting of a text into pages
      (the output for a buffer size and a page, and the number of pages). */
  datatype Library = Library(
    fixedPoint: seq<byte> -> Option<seq<byte>>,
    joinUnit: seq<byte> -> Option<seq<byte>>,
    trim: seq<byte> -> seq<byte>,
    page: (nat, seq<byte>, nat) -> (seq<byte>, byte))

  // ----- the items ---------------------------------------------------------------

  datatype Item = Target | Quantity | Reward | LastTx | DataSize | DataRoot | TagItem(i: nat)

  /** _getNumItems */
  function NumItems(tx: Tx, expert: bool): nat {
    if !expert then CONST_NUM_UI_ITEMS
    else CONST_NUM_UI_ITEMS + |tx.tags| + DATA_SIZE_NUM_UI_ITEMS +
         (if |tx.dataRoot| > 0 then DATA_ROOT_NUM_UI_ITEMS else 0)
  }

  /** What a review in expert mode lists, in order. */
  function AllItems(tx: Tx): seq<Item> {
    [Target, Quantity, Reward, LastTx, DataSize] +
    (if |tx.dataRoot| > 0 then [DataRoot] else []) +
    seq(|tx.tags|, i requires 0 <= i < |tx.tags| => TagItem(i))
  }

  /** The items that a review lists. */
  function Listed(tx: Tx, expert: bool): seq<Item> {
    if expert then AllItems(tx) else AllItems(tx)[..CONST_NUM_UI_ITEMS]
  }

  /** The switch of parser_getItem, with its sixteen-bit subtraction. */
  function ItemAt(tx: Tx, idx: u16): Option<Item> {
    if idx == 0 then Some(Target)
    else if idx == 1 then Some(Quantity)
    else if idx == 2 then Some(Reward)
    else if idx == 3 then Some(LastTx)
    else if idx == 4 then Some(DataSize)
    else if idx == 5 && |tx.dataRoot| != 0 then Some(DataRoot)
    else
      var i := TagIndex(tx, idx);
      if i >= MAX_NUMBER_TAGS then None else Some(TagItem(i))
  }

  function TagIndex(tx: Tx, idx: u16): u16 {
    (idx - (CONST_NUM_UI_ITEMS + DATA_SIZE_NUM_UI_ITEMS +
            (if |tx.dataRoot| != 0 then DATA_ROOT_NUM_UI_ITEMS else 0))) % 0x1_0000
  }

  /** Display indices stand for the listed items, in order; the subtraction does not wrap
      and no index beyond the tags that were read is used. */
  lemma IndicesAreTheListedItems(tx: Tx, expert: bool, idx: u16)
    requires Valid(tx) && idx < NumItems(tx, expert)
    ensures |Listed(tx, expert)| == NumItems(tx, expert) <= 22
    ensures ItemAt(tx, idx) == Some(Listed(tx, expert)[idx])
    ensures Listed(tx, expert)[idx].TagItem? ==>
              Listed(tx, expert)[idx].i == TagIndex(tx, idx) < |tx.tags|
  {
  }

  /** No item is listed twice, and in expert mode none is missing. */
  lemma ListedItemsAreDistinct(tx: Tx, expert: bool, i: nat, j: nat)
    requires i < j < |Listed(tx, expert)|
    ensures Listed(tx, expert)[i] != Listed(tx, expert)[j]
  {
  }

  predicate Exists(tx: Tx, item: Item) {
    match item
    case DataRoot => |tx.dataRoot| > 0
    case TagItem(i) => i < |tx.tags|
    case _ => true
  }

  lemma ExpertListsEverything(tx: Tx, item: Item)
    ensures Exists(tx, item) <==> item in Listed(tx, true)
  {
    var listed := Listed(tx, true);
    var base := if |tx.dataRoot| > 0 then 6 else 5;
    match item {
      case Target => assert listed[0] == item;
      case Quantity => assert listed[1] == item;
      case Reward => assert listed[2] == item;
      case LastTx => assert listed[3] == item;
      case DataSize => assert listed[4] == item;
      case DataRoot => if |tx.dataRoot| > 0 { assert listed[5] == item; }
      case TagItem(i) => if i < |tx.tags| { assert listed[base + i] == item; }
    }
  }

  // ----- the texts ---------------------------------------------------------------

  /** The characters of a text. */
  function Characters(t: seq<byte>): (s: string)
    ensures |s| == |t|
  {
    seq(|t|, i requires 0 <= i < |t| => t[i] as char)
  }

  /** The captions of the fields, by display index. */
  function Caption(i: nat): (t: seq<byte>)
    ensures 6 <= |t|
  {
    match i
    case 0 => Ascii("Target")
    case 1 => Ascii("Quantity")
    case 2 => Ascii("Reward")
    case 3 => Ascii("Last tx")
    case 4 => Ascii("Data size")
    case _ => Ascii("Data root")
  }

  /** The caption of an item; for a tag, its name up to the first NUL. */
  function Label(tx: Tx, item: Item): seq<byte> {
    match item
    case Target => Caption(0)
    case Quantity => Caption(1)
    case Reward => Caption(2)
    case LastTx => Caption(3)
    case DataSize => Caption(4)
    case DataRoot => Caption(5)
    case TagItem(i) => if i < |tx.tags| then UpToNul(tx.tags[i].key) else []
  }

  datatype Shown = Text(text: seq<byte>) | Failure(error: ParserError)

  /** A binary field is shown in base64url, if its text is not empty and fits. */
  function Base64Text(v: seq<byte>): Shown {
    if v == [] || Base64Url.EncodedLength(|v|) > UI_BUFFER then Failure(UnexpectedBufferEnd)
    else Text(Ascii(Base64Url.Encode(v)))
  }

  /** parser_printQuantity: the digits are formatted inside a buffer of 200 bytes. */
  function AmountText(lib: Library, v: seq<byte>): Shown {
    if |v| > UI_BUFFER then Failure(UnexpectedError)
    else
      match lib.fixedPoint(v + Zeros(UI_BUFFER - |v|))
      case None => Failure(UnexpectedValue)
      case Some(number) =>
        match lib.joinUnit(number)
        case None => Failure(UnexpectedBufferEnd)
        case Some(amount) => Text(UpToNul(lib.trim(amount)))
  }

  /** parser_printSize */
  function SizeText(v: seq<byte>): Shown {
    if |v| > UI_BUFFER then Failure(UnexpectedError)
    else Text(UpToNul(v))
  }

  /** The whole text of an item, before it is cut into pages. */
  function ItemText(lib: Library, tx: Tx, item: Item): Shown {
    match item
    case Target => Base64Text(tx.target)
    case Quantity => AmountText(lib, tx.quantity)
    case Reward => Text(tx.reward)
    case LastTx => Base64Text(tx.lastTx)
    case DataSize => SizeText(tx.dataSize)
    case DataRoot => Base64Text(tx.dataRoot)
    case TagItem(i) => Text(if i < |tx.tags| then tx.tags[i].value else [])
  }

  /** A buffer of this size after it was cleared and t written to its front. */
  function Fill(size: nat, t: seq<byte>): (r: seq<byte>)
    ensures |r| == size
  {
    if |t| <= size then t + Zeros(size - |t|) else t[..size]
  }

  /** What snprintf leaves of a caption in a cleared buffer of n bytes. */
  function KeyBytes(n: nat, caption: seq<byte>): seq<byte> {
    Fill(n, Cut(caption, n))
  }

  /** parser_getErrorDescription */
  function ErrorText(e: ParserError): (t: seq<byte>)
    ensures 12 <= |t| <= 27
  {
    match e
    case NoData => Ascii("No more data")
    case InitContextEmpty => Ascii("Initialized empty context")
    case UnexpectedError => Ascii("Unexepected internal error")
    case UnexpectedTxVersion => Ascii("tx version is not supported")
    case UnexpectedBufferEnd => Ascii("Unexpected buffer end")
    case UnexpectedValue => Ascii("Unexpected value")
    case ValueOutOfRange => Ascii("Value out of range")
  }

  lemma AsciiCharacters(s: string)
    requires forall i :: 0 <= i < |s| ==> s[i] as int < 256
    ensures Characters(Ascii(s)) == s
  {
  }

  /** The error texts, read as characters. */
  lemma ErrorTextsInWords()
    ensures Characters(ErrorText(NoData)) == "No more data"
    ensures Characters(ErrorText(InitContextEmpty)) == "Initialized empty context"
    ensures Characters(ErrorText(UnexpectedError)) == "Unexepected internal error"
    ensures Characters(ErrorText(UnexpectedTxVersion)) == "tx version is not supported"
    ensures Characters(ErrorText(UnexpectedBufferEnd)) == "Unexpected buffer end"
    ensures Characters(ErrorText(UnexpectedValue)) == "Unexpected value"
    ensures Characters(ErrorText(ValueOutOfRange)) == "Value out of range"
  {
    hide Ascii, Characters;
    AsciiCharacters("No more data");
    AsciiCharacters("Initialized empty context");
    AsciiCharacters("Unexepected internal error");
    AsciiCharacters("tx version is not supported");
    AsciiCharacters("Unexpected buffer end");
    AsciiCharacters("Unexpected value");
    AsciiCharacters("Value out of range");
  }

  // ----- showing -----------------------------------------------------------------

  /** MEMZERO followed by snprintf. */
  method PrintLabel(out: array<byte>, caption: seq<byte>)
    modifies out
    ensures out[..] == Fill(out.Length, Cut(caption, out.Length))
  {
    MemZero(out);
    Snprintf(out, out.Length, caption);
  }

  /** snprintf over a shorter text that was printed into the cleared buffer before. */
  method Reprint(out: array<byte>, before: seq<byte>, caption: seq<byte>)
    requires out[..] == Fill(out.Length, Cut(before, out.Length)) && |before| <= |caption|
    modifies out
    ensures out[..] == Fill(out.Length, Cut(caption, out.Length))
  {
    ghost var t := Cut(caption, out.Length);
    assert |Cut(before, out.Length)| <= |t|;
    Snprintf(out, out.Length, caption);
  }

  /** pageStringExt */
  method PageText(lib: Library, out: array<byte>, text: seq<byte>, pageIdx: nat) returns (pageCount: nat)
    modifies out
    ensures out[..] == Fill(out.Length, lib.page(out.Length, text, pageIdx).0)
    ensures pageCount == lib.page(out.Length, text, pageIdx).1
  {
    var (t, n) := lib.page(out.Length, text, pageIdx);
    MemZero(out);
    var r := Fill(out.Length, t);
    forall i | 0 <= i < out.Length {
      out[i] := r[i];
    }
    assert out[..] == r;
    pageCount := n;
  }

  /** What was written for an item that could be shown. */
  ghost predicate ShownAs(lib: Library, out: seq<byte>, text: seq<byte>, pageIdx: nat, pageCount: nat) {
    out == Fill(|out|, lib.page(|out|, text, pageIdx).0) && pageCount == lib.page(|out|, text, pageIdx).1
  }

  /** parser_printTarget, parser_printLastTx and parser_printData */
  method PrintBase64(lib: Library, v: seq<byte>, outVal: array<byte>, pageIdx: nat)
    returns (status: Status, pageCount: nat)
    requires |v| < 0x1_0000
    modifies outVal
    ensures match Base64Text(v)
            case Text(text) => status == Accepted && ShownAs(lib, outVal[..], text, pageIdx, pageCount)
            case Failure(e) => status == Rejected(e)
  {
    hide Base64Url.Encode;
    pageCount := 1;
    var uibuffer := new char[UI_BUFFER](_ => '\0');
    MemZero(outVal);
    Base64Url.LengthIsExact(v);
    var n := Base64Url.EncodeInto(uibuffer, Some(v));
    if n == 0 {
      return Rejected(UnexpectedBufferEnd), pageCount;
    }
    pageCount := PageText(lib, outVal, Ascii(uibuffer[..n]), pageIdx);
    status := Accepted;
  }

  /** A field copied to the front of a cleared buffer of 200 bytes. */
  method CopyToUiBuffer(v: seq<byte>) returns (buffer: array<byte>)
    requires |v| <= UI_BUFFER
    ensures fresh(buffer) && buffer[..] == v + Zeros(UI_BUFFER - |v|)
  {
    buffer := new byte[UI_BUFFER](_ => 0);
    MemCopy(buffer, 0, v);
  }

  /** parser_printQuantity */
  method PrintQuantity(lib: Library, v: seq<byte>, outVal: array<byte>, pageIdx: nat)
    returns (status: Status, pageCount: nat)
    modifies outVal
    ensures match AmountText(lib, v)
            case Text(text) => status == Accepted && ShownAs(lib, outVal[..], text, pageIdx, pageCount)
            case Failure(e) => status == Rejected(e)
  {
    pageCount := 1;
    if |v| > UI_BUFFER {
      return Rejected(UnexpectedError), pageCount;
    }
    MemZero(outVal);
    var bufferUI := CopyToUiBuffer(v);
    var number := lib.fixedPoint(bufferUI[..]);
    if number.None? {
      return Rejected(UnexpectedValue), pageCount;
    }
    var amount := lib.joinUnit(number.value);
    if amount.None? {
      return Rejected(UnexpectedBufferEnd), pageCount;
    }
    var trimmed := lib.trim(amount.value);
    pageCount := PageText(lib, outVal, UpToNul(trimmed), pageIdx);
    status := Accepted;
  }

  /** parser_printSize */
  method PrintSize(lib: Library, v: seq<byte>, outVal: array<byte>, pageIdx: nat)
    returns (status: Status, pageCount: nat)
    modifies outVal
    ensures match SizeText(v)
            case Text(text) => status == Accepted && ShownAs(lib, outVal[..], text, pageIdx, pageCount)
            case Failure(e) => status == Rejected(e)
  {
    pageCount := 1;
    if |v| > UI_BUFFER {
      return Rejected(UnexpectedError), pageCount;
    }
    MemZero(outVal);
    var uibuffer := CopyToUiBuffer(v);
    UpToNulPadded(v, UI_BUFFER - |v|);
    pageCount := PageText(lib, outVal, UpToNul(uibuffer[..]), pageIdx);
    status := Accepted;
  }

  /** The caption of a tag is printed from its place in the transaction buffer, with whatever
      follows it there; the size limit makes what follows invisible. */
  lemma KeyTextIgnoresWhatFollows(key: seq<byte>, after: seq<byte>, size: nat)
    ensures var max := if size >= |key| + 1 then |key| + 1 else size;
            max > 0 ==> Cut(UpToNul(key + after), max) == Cut(UpToNul(key), size)
  {
    var max := if size >= |key| + 1 then |key| + 1 else size;
    UpToNulPrefix(key, after);
  }

  lemma {:induction false} UpToNulPrefix(s: seq<byte>, t: seq<byte>)
    ensures |UpToNul(s)| < |s| ==> UpToNul(s + t) == UpToNul(s)
    ensures |UpToNul(s)| == |s| ==> UpToNul(s + t) == s + UpToNul(t)
  {
    if s == [] {
      assert s + t == t;
    } else if s[0] != 0 {
      assert (s + t)[1..] == s[1..] + t;
      UpToNulPrefix(s[1..], t);
      assert s == [s[0]] + s[1..];
    }
  }

  lemma UpToNulPadded(v: seq<byte>, pad: nat)
    ensures UpToNul(v + Zeros(pad)) == UpToNul(v)
  {
    UpToNulPrefix(v, Zeros(pad));
    assert UpToNul(Zeros(pad)) == [];
    assert UpToNul(v) + [] == UpToNul(v);
  }

  /** The caption part of parser_printTag; `after` is the memory behind the name. */
  method PrintKey(key: seq<byte>, after: seq<byte>, outKey: array<byte>)
    modifies outKey
    ensures outKey[..] == Fill(outKey.Length, Cut(UpToNul(key), outKey.Length))
  {
    MemZero(outKey);
    // the size for snprintf counts the NUL it writes
    var maxKeyLen := if outKey.Length >= |key| + 1 then |key| + 1 else outKey.Length;
    KeyTextIgnoresWhatFollows(key, after, outKey.Length);
    Snprintf(outKey, maxKeyLen, UpToNul(key + after));
  }

  /** parser_printTag */
  method PrintTag(lib: Library, data: seq<byte>, v: TagElement, outKey: array<byte>, outVal: array<byte>, pageIdx: nat)
    returns (pageCount: nat)
    requires v.InBounds(data) && outKey != outVal
    modifies outKey, outVal
    ensures outKey[..] == Fill(outKey.Length, Cut(UpToNul(v.key.Bytes(data)), outKey.Length))
    ensures ShownAs(lib, outVal[..], v.value.Bytes(data), pageIdx, pageCount)
  {
    hide Fill, Cut;
    PrintKey(v.key.Bytes(data), data[v.key.ptr + v.key.len..], outKey);
    MemZero(outVal);
    pageCount := PageText(lib, outVal, v.value.Bytes(data), pageIdx);
  }

  // ----- what an item looks like, written out -----------------------------------------

  /** The characters of a caption at the front of a buffer that keeps its last byte for a NUL,
      and zeros behind them. */
  ghost predicate KeyShows(key: seq<byte>, caption: string) {
    forall i :: 0 <= i < |key| ==>
      key[i] == if i < |caption| && i + 1 < |key| then caption[i] as int else 0
  }

  /** The page of a text, with zeros behind it. */
  ghost predicate PageOf(lib: Library, val: seq<byte>, text: seq<byte>, pageIdx: nat, pageCount: nat) {
    var (page, pages) := lib.page(|val|, text, pageIdx);
    && pageCount == pages
    && forall i :: 0 <= i < |val| ==> val[i] == if i < |page| then page[i] else 0
  }

  /** A page of the base64url text of a binary field. */
  ghost predicate Base64Page(lib: Library, val: seq<byte>, v: seq<byte>, pageIdx: nat, pageCount: nat) {
    exists text: seq<byte> ::
      && Characters(text) == Base64Url.Encode(v) && Base64Url.Decode(Characters(text)) == Some(v)
      && PageOf(lib, val, text, pageIdx, pageCount)
  }

  /** A page of the formatted amount: the digits in a cleared buffer of 200 bytes, as a number
      with a decimal point, with its unit, trimmed, up to the NUL. */
  ghost predicate AmountPage(lib: Library, val: seq<byte>, v: seq<byte>, pageIdx: nat, pageCount: nat) {
    && |v| <= 200
    && var number := lib.fixedPoint(v + Zeros(200 - |v|));
       && number.Some? && lib.joinUnit(number.value).Some?
       && PageOf(lib, val, UpToNul(lib.trim(lib.joinUnit(number.value).value)), pageIdx, pageCount)
  }

  /** The index of the first tag on the screen. */
  function FirstTag(tx: Tx): nat {
    if tx.dataRoot == [] then 5 else 6
  }

  ghost predicate ShownInWords(lib: Library, tx: Tx, idx: nat, key: seq<byte>, val: seq<byte>, pageIdx: nat,
                               pageCount: nat) {
    && (idx == 0 ==> KeyShows(key, "Target") && Base64Page(lib, val, tx.target, pageIdx, pageCount))
    && (idx == 1 ==> KeyShows(key, "Quantity") && AmountPage(lib, val, tx.quantity, pageIdx, pageCount))
    && (idx == 2 ==> KeyShows(key, "Reward") && PageOf(lib, val, tx.reward, pageIdx, pageCount))
    && (idx == 3 ==> KeyShows(key, "Last tx") && Base64Page(lib, val, tx.lastTx, pageIdx, pageCount))
    && (idx == 4 ==> KeyShows(key, "Data size") && PageOf(lib, val, UpToNul(tx.dataSize), pageIdx, pageCount))
    && (idx == 5 && tx.dataRoot != [] ==>
          KeyShows(key, "Data root") && Base64Page(lib, val, tx.dataRoot, pageIdx, pageCount))
    && (idx >= FirstTag(tx) ==>
          && idx - FirstTag(tx) < |tx.tags|
          && KeyShows(key, Characters(UpToNul(tx.tags[idx - FirstTag(tx)].key)))
          && PageOf(lib, val, tx.tags[idx - FirstTag(tx)].value, pageIdx, pageCount))
  }

  lemma KeyBytesShow(n: nat, s: string)
    requires forall i :: 0 <= i < |s| ==> s[i] as int < 256
    ensures KeyShows(KeyBytes(n, Ascii(s)), s)
  {
  }

  lemma TagKeyShows(n: nat, t: seq<byte>)
    ensures KeyShows(KeyBytes(n, t), Characters(t))
  {
  }

  lemma ShownIsPage(lib: Library, val: seq<byte>, text: seq<byte>, pageIdx: nat, pageCount: nat)
    requires ShownAs(lib, val, text, pageIdx, pageCount)
    ensures PageOf(lib, val, text, pageIdx, pageCount)
  {
  }

  lemma Base64IsShown(lib: Library, val: seq<byte>, v: seq<byte>, pageIdx: nat, pageCount: nat)
    requires Base64Text(v).Text? && ShownAs(lib, val, Base64Text(v).text, pageIdx, pageCount)
    ensures Base64Page(lib, val, v, pageIdx, pageCount)
  {
    hide Base64Url.Encode, Base64Url.Decode, ShownAs, PageOf;
    var text := Base64Text(v).text;
    Base64Url.EncodingIsAscii(v);
    assert Characters(text) == Base64Url.Encode(v);
    Base64Url.RoundTrip(v);
    ShownIsPage(lib, val, text, pageIdx, pageCount);
  }

  lemma CaptionsInWords(n: nat)
    ensures KeyShows(KeyBytes(n, Caption(0)), "Target") && KeyShows(KeyBytes(n, Caption(1)), "Quantity")
    ensures KeyShows(KeyBytes(n, Caption(2)), "Reward") && KeyShows(KeyBytes(n, Caption(3)), "Last tx")
    ensures KeyShows(KeyBytes(n, Caption(4)), "Data size") && KeyShows(KeyBytes(n, Caption(5)), "Data root")
  {
    hide KeyShows, KeyBytes, Ascii;
    KeyBytesShow(n, "Target");
    KeyBytesShow(n, "Quantity");
    KeyBytesShow(n, "Reward");
    KeyBytesShow(n, "Last tx");
    KeyBytesShow(n, "Data size");
    KeyBytesShow(n, "Data root");
  }

  lemma PresentedInWords(lib: Library, tx: Tx, expert: bool, idx: u16, key: seq<byte>, val: seq<byte>,
                         pageIdx: nat, pageCount: nat)
    requires Valid(tx) && idx < NumItems(tx, expert) && ItemAt(tx, idx).Some?
    requires Presents(lib, tx, ItemAt(tx, idx).value, key, val, pageIdx, Accepted, pageCount)
    ensures ShownInWords(lib, tx, idx, key, val, pageIdx, pageCount)
  {
    hide Valid, Caption, KeyShows, KeyBytes, Base64Text, ShownAs, PageOf, Base64Page, UpToNul;
    CaptionsInWords(|key|);
    IndicesAreTheListedItems(tx, expert, idx);
    var item := ItemAt(tx, idx).value;
    var text := ItemText(lib, tx, item).text;
    ShownIsPage(lib, val, text, pageIdx, pageCount);
    match item
    case Target => Base64IsShown(lib, val, tx.target, pageIdx, pageCount);
    case LastTx => Base64IsShown(lib, val, tx.lastTx, pageIdx, pageCount);
    case DataRoot => Base64IsShown(lib, val, tx.dataRoot, pageIdx, pageCount);
    case TagItem(i) => TagKeyShows(|key|, UpToNul(tx.tags[i].key));
    case _ =>
  }

  /** parser_getItem: what it writes, also written out field by field. */
  method GetItem(lib: Library, data: seq<byte>, tx: TxObject, expert: bool, displayIdx: u16,
                 outKey: array<byte>, outVal: array<byte>, pageIdx: nat)
    returns (status: Status, pageCount: nat)
    requires tx.InBounds(data) && Valid(tx.View(data)) && outKey != outVal
    modifies outKey, outVal
    ensures displayIdx >= NumItems(tx.View(data), expert) ==> status == Rejected(NoData) && pageCount == 0
    ensures displayIdx < NumItems(tx.View(data), expert) ==>
              var item := ItemAt(tx.View(data), displayIdx);
              item.Some? && Presents(lib, tx.View(data), item.value, outKey[..], outVal[..], pageIdx, status, pageCount)
    ensures status == Accepted ==>
              ShownInWords(lib, tx.View(data), displayIdx, outKey[..], outVal[..], pageIdx, pageCount)
  {
    hide Valid, Presents, ShownInWords, NumItems, ItemAt;
    status, pageCount := SwitchItem(lib, data, tx, expert, displayIdx, outKey, outVal, pageIdx);
    if status == Accepted {
      PresentedInWords(lib, tx.View(data), expert, displayIdx, outKey[..], outVal[..], pageIdx, pageCount);
    }
  }

  /** The body of parser_getItem. */
  method SwitchItem(lib: Library, data: seq<byte>, tx: TxObject, expert: bool, displayIdx: u16,
                    outKey: array<byte>, outVal: array<byte>, pageIdx: nat)
    returns (status: Status, pageCount: nat)
    requires tx.InBounds(data) && Valid(tx.View(data)) && outKey != outVal
    modifies outKey, outVal
    ensures displayIdx >= NumItems(tx.View(data), expert) ==> status == Rejected(NoData) && pageCount == 0
    ensures displayIdx < NumItems(tx.View(data), expert) ==>
              var item := ItemAt(tx.View(data), displayIdx);
              item.Some? && Presents(lib, tx.View(data), item.value, outKey[..], outVal[..], pageIdx, status, pageCount)
  {
    hide Valid, Presents, Label, Caption;
    ghost var view := tx.View(data);
    PrintLabel(outKey, Ascii("? ") + Decimal(displayIdx));
    PrintLabel(outVal, Ascii("?"));
    pageCount := 0;

    var numItems := GetNumItems(data, tx, expert);
    if displayIdx >= numItems {
      return Rejected(NoData), pageCount;
    }
    IndicesAreTheListedItems(view, expert, displayIdx);
    if displayIdx <= 4 || (displayIdx == 5 && tx.dataRoot.len != 0) {
      ShortIndexText(displayIdx);
      Reprint(outKey, Ascii("? ") + Decimal(displayIdx), Caption(displayIdx));
      status, pageCount := PrintField(lib, data, tx, displayIdx, outKey, outVal, pageIdx);
    } else {
      var i := (displayIdx - (CONST_NUM_UI_ITEMS + DATA_SIZE_NUM_UI_ITEMS +
                (if tx.dataRoot.len != 0 then DATA_ROOT_NUM_UI_ITEMS else 0))) % 0x1_0000;
      pageCount := 1;
      if i >= MAX_NUMBER_TAGS {
        return Rejected(UnexpectedValue), pageCount;
      }
      pageCount := PrintTag(lib, data, tx.tags[i], outKey, outVal, pageIdx);
      status := Accepted;
      TagPresented(lib, data, tx, i, outKey[..], outVal[..], pageIdx, pageCount);
    }
  }

  /** The cases of parser_getItem for the fields, once the caption is printed. */
  method PrintField(lib: Library, data: seq<byte>, tx: TxObject, displayIdx: u16,
                    outKey: array<byte>, outVal: array<byte>, pageIdx: nat)
    returns (status: Status, pageCount: nat)
    requires tx.InBounds(data) && outKey != outVal
    requires displayIdx <= 4 || (displayIdx == 5 && tx.dataRoot.len != 0)
    requires outKey[..] == Fill(outKey.Length, Cut(Caption(displayIdx), outKey.Length))
    modifies outVal
    ensures outKey[..] == old(outKey[..])
    ensures var item := ItemAt(tx.View(data), displayIdx);
            item.Some? && Presents(lib, tx.View(data), item.value, outKey[..], outVal[..], pageIdx, status, pageCount)
  {
    hide Caption, Base64Text, AmountText, SizeText, ShownAs, Fill, Cut;
    match displayIdx
    case 0 => status, pageCount := PrintBase64(lib, tx.target.Bytes(data), outVal, pageIdx);
    case 1 => status, pageCount := PrintQuantity(lib, tx.quantity.Bytes(data), outVal, pageIdx);
    case 2 => pageCount := PrintReward(lib, tx.reward.Bytes(data), outVal, pageIdx); status := Accepted;
    case 3 => status, pageCount := PrintBase64(lib, tx.lastTx.Bytes(data), outVal, pageIdx);
    case 4 => status, pageCount := PrintSize(lib, tx.dataSize.Bytes(data), outVal, pageIdx);
    case _ => status, pageCount := PrintBase64(lib, tx.dataRoot.Bytes(data), outVal, pageIdx);
  }

  /** parser_printReward */
  method PrintReward(lib: Library, v: seq<byte>, outVal: array<byte>, pageIdx: nat) returns (pageCount: nat)
    modifies outVal
    ensures ShownAs(lib, outVal[..], v, pageIdx, pageCount)
  {
    MemZero(outVal);
    pageCount := PageText(lib, outVal, v, pageIdx);
  }

  lemma TagPresented(lib: Library, data: seq<byte>, tx: TxObject, i: nat, key: seq<byte>, val: seq<byte>,
                     pageIdx: nat, pageCount: nat)
    requires tx.InBounds(data) && i < tx.tagsCount
    requires key == Fill(|key|, Cut(UpToNul(tx.tags[i].key.Bytes(data)), |key|))
    requires ShownAs(lib, val, tx.tags[i].value.Bytes(data), pageIdx, pageCount)
    ensures Presents(lib, tx.View(data), TagItem(i), key, val, pageIdx, Accepted, pageCount)
  {
    hide ShownAs, Fill, Cut;
    assert tx.View(data).tags[i] == tx.tags[i].Tag(data);
  }

  /** The result of showing one item: it succeeds exactly when the item has a text. */
  ghost predicate Presents(lib: Library, tx: Tx, item: Item, key: seq<byte>, val: seq<byte>, pageIdx: nat,
                           status: Status, pageCount: nat) {
    var shown := ItemText(lib, tx, item);
    if shown.Text? then
      && status == Accepted
      && key == KeyBytes(|key|, Label(tx, item))
      && ShownAs(lib, val, shown.text, pageIdx, pageCount)
    else status == Rejected(shown.error)
  }

  /** parser_getNumItems: the result is an eight-bit number. */
  method GetNumItems(data: seq<byte>, tx: TxObject, expert: bool) returns (n: byte)
    requires tx.InBounds(data) && Valid(tx.View(data))
    ensures n == NumItems(tx.View(data), expert)
  {
    if !expert {
      return CONST_NUM_UI_ITEMS;
    }
    n := (CONST_NUM_UI_ITEMS + tx.tagsCount + DATA_SIZE_NUM_UI_ITEMS +
          (if tx.dataRoot.len > 0 then DATA_ROOT_NUM_UI_ITEMS else 0)) % 0x100;
  }

  lemma ShortIndexText(idx: u16)
    requires idx < 100
    ensures |Ascii("? ") + Decimal(idx)| <= 4
  {
  }

  // ----- validation ----------------------------------------------------------------

  /** The transactions that reach the review screen: the owner is the key of the device and
      every listed item has a text. */
  ghost predicate Reviewable(lib: Library, key: Option<seq<byte>>, tx: Tx, expert: bool) {
    && key == Some(tx.owner)
    && forall i :: 0 <= i < NumItems(tx, expert) ==> Showable(lib, tx, i)
  }

  predicate Showable(lib: Library, tx: Tx, idx: int) {
    0 <= idx < 0x1_0000 && ItemAt(tx, idx).Some? && ItemText(lib, tx, ItemAt(tx, idx).value).Text?
  }

  /** Why an item cannot be shown. */
  function RefusalOf(lib: Library, tx: Tx, idx: int): ParserError {
    if 0 <= idx < 0x1_0000 && ItemAt(tx, idx).Some? && ItemText(lib, tx, ItemAt(tx, idx).value).Failure?
    then ItemText(lib, tx, ItemAt(tx, idx).value).error else UnexpectedValue
  }

  /** The error of the first of n items that cannot be shown. */
  function FirstRefusal(lib: Library, tx: Tx, n: nat): Option<ParserError> {
    if n == 0 then None
    else
      var before := FirstRefusal(lib, tx, n - 1);
      if before.Some? || Showable(lib, tx, n - 1) then before else Some(RefusalOf(lib, tx, n - 1))
  }

  lemma {:induction false} NoRefusal(lib: Library, tx: Tx, n: nat)
    ensures FirstRefusal(lib, tx, n).None? <==> forall i :: 0 <= i < n ==> Showable(lib, tx, i)
  {
    hide Showable;
    if n > 0 { NoRefusal(lib, tx, n - 1); }
  }

  lemma {:induction false} RefusalStays(lib: Library, tx: Tx, n: nat, m: nat)
    requires n <= m && FirstRefusal(lib, tx, n).Some?
    ensures FirstRefusal(lib, tx, m) == FirstRefusal(lib, tx, n)
    decreases m
  {
    if n < m { RefusalStays(lib, tx, n, m - 1); }
  }

  /** What validation says of a transaction. */
  datatype Verdict = ForReview(tx: Tx) | Refused(error: ParserError)

  function Judge(lib: Library, key: Option<seq<byte>>, tx: Tx, expert: bool): Verdict {
    if key != Some(tx.owner) then Refused(UnexpectedError)
    else
      match FirstRefusal(lib, tx, NumItems(tx, expert))
      case None => ForReview(tx)
      case Some(e) => Refused(e)
  }

  /** What parsing and validation say of an upload. */
  function JudgeBytes(lib: Library, key: Option<seq<byte>>, data: seq<byte>, expert: bool): Verdict {
    if data == [] then Refused(NoData)
    else
      match ParseTx(data)
      case Ok(tx, _) => Judge(lib, key, tx, expert)
      case Fail(e) => Refused(e)
  }

  lemma JudgeExactly(lib: Library, key: Option<seq<byte>>, tx: Tx, expert: bool)
    ensures Judge(lib, key, tx, expert) == ForReview(tx) <==> Reviewable(lib, key, tx, expert)
    ensures Judge(lib, key, tx, expert).ForReview? ==> Judge(lib, key, tx, expert).tx == tx
  {
    hide Showable;
    NoRefusal(lib, tx, NumItems(tx, expert));
  }

  lemma {:induction false} NoMoreRefusals(lib: Library, tx: Tx, n: nat, m: nat)
    requires n <= m && forall i :: n <= i < m ==> Showable(lib, tx, i)
    ensures FirstRefusal(lib, tx, m) == FirstRefusal(lib, tx, n)
    decreases m
  {
    hide Showable;
    if n < m { NoMoreRefusals(lib, tx, n, m - 1); }
  }

  /** The first error of the items, written out. */
  function ItemError(lib: Library, tx: Tx, expert: bool): Option<ParserError> {
    if !(1 <= |tx.target| <= 150) then Some(UnexpectedBufferEnd)
    else if |tx.quantity| > 200 then Some(UnexpectedError)
    else if lib.fixedPoint(tx.quantity + Zeros(200 - |tx.quantity|)) == None then Some(UnexpectedValue)
    else if lib.joinUnit(lib.fixedPoint(tx.quantity + Zeros(200 - |tx.quantity|)).value) == None
    then Some(UnexpectedBufferEnd)
    else if !(1 <= |tx.lastTx| <= 150) then Some(UnexpectedBufferEnd)
    else if expert && |tx.dataSize| > 200 then Some(UnexpectedError)
    else if expert && |tx.dataRoot| > 150 then Some(UnexpectedBufferEnd)
    else None
  }

  /** The whole verdict in terms of the fields: which error, and in which order they are
      looked at. */
  lemma JudgeInWords(lib: Library, key: Option<seq<byte>>, tx: Tx, expert: bool)
    requires Valid(tx)
    ensures Judge(lib, key, tx, expert) ==
            if key != Some(tx.owner) then Refused(UnexpectedError)
            else
              match ItemError(lib, tx, expert)
              case Some(e) => Refused(e)
              case None => ForReview(tx)
  {
    hide Valid, ItemError, FirstRefusal;
    FirstRefusalInWords(lib, tx, expert);
  }

  lemma FirstRefusalInWords(lib: Library, tx: Tx, expert: bool)
    requires Valid(tx)
    ensures FirstRefusal(lib, tx, NumItems(tx, expert)) == ItemError(lib, tx, expert)
  {
    hide Valid, Base64Text, AmountText, Showable, RefusalOf;
    FieldRefusals(lib, tx);
    if expert {
      var fields := FirstTag(tx);
      forall i | fields <= i < NumItems(tx, expert) ensures Showable(lib, tx, i) {
        TagIsShowable(lib, tx, i);
      }
      NoMoreRefusals(lib, tx, fields, NumItems(tx, expert));
      FirstFive(lib, tx);
    } else {
      FirstFour(lib, tx);
    }
  }

  lemma TagIsShowable(lib: Library, tx: Tx, i: nat)
    requires Valid(tx) && FirstTag(tx) <= i < NumItems(tx, true)
    ensures Showable(lib, tx, i)
  {
    IndicesAreTheListedItems(tx, true, i);
  }

  /** Which fields can be shown, and the error otherwise. */
  lemma FieldRefusals(lib: Library, tx: Tx)
    ensures Showable(lib, tx, 0) <==> 1 <= |tx.target| <= 150
    ensures !Showable(lib, tx, 0) ==> RefusalOf(lib, tx, 0) == UnexpectedBufferEnd
    ensures Showable(lib, tx, 1) <==> AmountText(lib, tx.quantity).Text?
    ensures !Showable(lib, tx, 1) ==> RefusalOf(lib, tx, 1) == AmountText(lib, tx.quantity).error
    ensures Showable(lib, tx, 2)
    ensures Showable(lib, tx, 3) <==> 1 <= |tx.lastTx| <= 150
    ensures !Showable(lib, tx, 3) ==> RefusalOf(lib, tx, 3) == UnexpectedBufferEnd
    ensures Showable(lib, tx, 4) <==> |tx.dataSize| <= 200
    ensures !Showable(lib, tx, 4) ==> RefusalOf(lib, tx, 4) == UnexpectedError
    ensures tx.dataRoot != [] ==> (Showable(lib, tx, 5) <==> |tx.dataRoot| <= 150)
    ensures tx.dataRoot != [] && !Showable(lib, tx, 5) ==> RefusalOf(lib, tx, 5) == UnexpectedBufferEnd
  {
    hide AmountText, Base64Text;
    Base64Refusal(tx.target);
    Base64Refusal(tx.lastTx);
    Base64Refusal(tx.dataRoot);
  }

  lemma Base64Refusal(v: seq<byte>)
    ensures Base64Text(v).Text? <==> 1 <= |v| <= 150
    ensures Base64Text(v).Failure? ==> Base64Text(v).error == UnexpectedBufferEnd
  {
  }

  lemma FirstFour(lib: Library, tx: Tx)
    ensures FirstRefusal(lib, tx, 4) == ItemError(lib, tx, false)
  {
    hide Showable, RefusalOf;
    FieldRefusals(lib, tx);
    assert FirstRefusal(lib, tx, 1) == if Showable(lib, tx, 0) then None else Some(RefusalOf(lib, tx, 0));
    assert FirstRefusal(lib, tx, 3) == FirstRefusal(lib, tx, 2);
  }

  lemma FirstFive(lib: Library, tx: Tx)
    ensures FirstRefusal(lib, tx, FirstTag(tx)) == ItemError(lib, tx, true)
  {
    hide Showable, RefusalOf, AmountText;
    FieldRefusals(lib, tx);
    FirstFour(lib, tx);
    FewerErrors(lib, tx);
    assert FirstRefusal(lib, tx, 5)
        == if FirstRefusal(lib, tx, 4).Some? || Showable(lib, tx, 4) then FirstRefusal(lib, tx, 4)
           else Some(RefusalOf(lib, tx, 4));
  }

  lemma FewerErrors(lib: Library, tx: Tx)
    ensures ItemError(lib, tx, true) ==
            if ItemError(lib, tx, false).Some? then ItemError(lib, tx, false)
            else if |tx.dataSize| > 200 then Some(UnexpectedError)
            else if |tx.dataRoot| > 150 then Some(UnexpectedBufferEnd)
            else None
  {
  }

  /** An upload comes to the review exactly if it holds a transaction that can be reviewed. */
  lemma JudgeBytesExactly(lib: Library, key: Option<seq<byte>>, data: seq<byte>, expert: bool)
    ensures JudgeBytes(lib, key, data, expert).ForReview? <==>
            ParseTx(data).Ok? && Reviewable(lib, key, ParseTx(data).value, expert)
    ensures JudgeBytes(lib, key, data, expert).ForReview? ==>
              JudgeBytes(lib, key, data, expert).tx == ParseTx(data).value
  {
    hide ParseTx, Judge, Reviewable;
    EmptyIsNoTransaction();
    if ParseTx(data).Ok? { JudgeExactly(lib, key, ParseTx(data).value, expert); }
  }

  lemma EmptyIsNoTransaction()
    ensures ParseTx([]).Fail?
  {
  }

  /** _validateTx: the owner is compared with the public key, half by half. */
  method ValidateTx(key: Option<seq<byte>>, data: seq<byte>, tx: TxObject) returns (status: Status)
    requires key.Some? ==> |key.value| == 512
    requires tx.InBounds(data) && tx.owner.len == OWNER_LEN
    ensures status == if key == Some(tx.View(data).owner) then Accepted else Rejected(UnexpectedError)
  {
    var owner := tx.owner.Bytes(data);
    for i := 0 to 2
      invariant i > 0 ==> key.Some?
      invariant forall k :: 0 <= k < 256 * i ==> owner[k] == key.value[k]
    {
      if key.None? {
        return Rejected(UnexpectedError);
      }
      var rsakey := key.value[256 * i..256 * i + 256];
      if owner[256 * i..256 * i + 256] != rsakey {
        return Rejected(UnexpectedError);
      }
      forall k | 256 * i <= k < 256 * (i + 1) ensures owner[k] == key.value[k] {
        assert owner[k] == owner[256 * i..256 * i + 256][k - 256 * i];
        assert key.value[k] == rsakey[k - 256 * i];
      }
    }
    assert owner == key.value;
    status := Accepted;
  }

  /** parser_validate: every item is shown once, into small buffers. */
  method Validate(lib: Library, key: Option<seq<byte>>, data: seq<byte>, tx: TxObject, expert: bool)
    returns (status: Status)
    requires key.Some? ==> |key.value| == 512
    requires tx.InBounds(data) && Valid(tx.View(data))
    ensures status == match Judge(lib, key, tx.View(data), expert)
                      case ForReview(_) => Accepted
                      case Refused(e) => Rejected(e)
    ensures status == Accepted <==> Reviewable(lib, key, tx.View(data), expert)
  {
    hide Valid, Showable, RefusalOf, NumItems, Reviewable;
    ghost var view := tx.View(data);
    JudgeExactly(lib, key, view, expert);
    assert tx.owner.len == OWNER_LEN by { OwnerLength(data, tx); }
    status := ValidateTx(key, data, tx);
    if status != Accepted { return; }
    var numItems := GetNumItems(data, tx, expert);
    var tmpKey := new byte[40](_ => 0);
    var tmpVal := new byte[40](_ => 0);
    var idx := 0;
    while idx < numItems
      invariant 0 <= idx <= numItems && status == Accepted
      invariant FirstRefusal(lib, view, idx) == None
    {
      status := TryItem(lib, data, tx, expert, idx, tmpKey, tmpVal);
      if status != Accepted {
        RefusalStays(lib, view, idx + 1, numItems);
        return;
      }
      idx := idx + 1;
    }
  }

  /** One turn of the loop of parser_validate. */
  method TryItem(lib: Library, data: seq<byte>, tx: TxObject, expert: bool, idx: u16,
                 tmpKey: array<byte>, tmpVal: array<byte>) returns (status: Status)
    requires tx.InBounds(data) && Valid(tx.View(data)) && tmpKey != tmpVal
    requires idx < NumItems(tx.View(data), expert)
    modifies tmpKey, tmpVal
    ensures status == if Showable(lib, tx.View(data), idx) then Accepted
                      else Rejected(RefusalOf(lib, tx.View(data), idx))
  {
    hide Valid, ItemText, ItemAt, NumItems, ShownAs, Fill, Label, ShownInWords;
    var pageCount;
    status, pageCount := GetItem(lib, data, tx, expert, idx, tmpKey, tmpVal, 0);
  }

  /** Parsing and then validation, as tx_parse and the fuzz target call them. */
  method ParseAndValidate(lib: Library, key: Option<seq<byte>>, ctx: ParserContext, data: seq<byte>,
                          tx: TxObject, expert: bool) returns (status: Status)
    requires key.Some? ==> |key.value| == 512
    requires |data| < 0x1_0000 && tx.tags.Length == MAX_NUMBER_TAGS
    modifies ctx, tx, tx.tags
    ensures match JudgeBytes(lib, key, data, expert)
            case ForReview(view) =>
              status == Accepted && tx.InBounds(data) && tx.View(data) == view && Valid(view)
            case Refused(e) => status == Rejected(e)
  {
    hide ParseTx, Judge, Valid, Reviewable;
    EmptyIsNoTransaction();
    assert data[..|data|] == data && |data| % 0x1_0000 == |data|;
    status := Parse(ctx, data, tx);
    if status != Accepted { return; }
    ReadIsEncoding(data);
    JudgeExactly(lib, key, tx.View(data), expert);
    status := Validate(lib, key, data, tx, expert);
  }

  lemma OwnerLength(data: seq<byte>, tx: TxObject)
    requires tx.InBounds(data) && Valid(tx.View(data))
    ensures tx.owner.len == OWNER_LEN
  {
  }

  /** The results of asking for the pages of an item, from page 0 on: all succeed, and they
      go on up to the page count that the last of them reports. */
  ghost predicate AllPagesShown(lib: Library, tx: Tx, idx: int, size: nat, results: seq<Status>) {
    && Showable(lib, tx, idx) && results != []
    && (forall p :: 0 <= p < |results| ==> results[p] == Accepted)
    && lib.page(size, ItemText(lib, tx, ItemAt(tx, idx).value).text, |results| - 1).1 <= |results|
  }

  /** The loop of the fuzz target over the pages of one item; it ends at a failure. */
  method ShowPages(lib: Library, data: seq<byte>, tx: TxObject, expert: bool, idx: u16,
                   outKey: array<byte>, outVal: array<byte>) returns (results: seq<Status>)
    requires tx.InBounds(data) && Valid(tx.View(data)) && outKey != outVal
    requires idx < NumItems(tx.View(data), expert) && Showable(lib, tx.View(data), idx)
    modifies outKey, outVal
    ensures AllPagesShown(lib, tx.View(data), idx, outVal.Length, results)
  {
    hide Valid, ItemText, ItemAt, NumItems, Fill, KeyBytes, Label, ShownInWords;
    ghost var text := ItemText(lib, tx.View(data), ItemAt(tx.View(data), idx).value).text;
    results := [];
    var pageIdx: byte := 0;
    var pageCount: nat := 1;
    while pageIdx < pageCount
      invariant |results| == pageIdx && pageCount <= 255
      invariant forall p :: 0 <= p < |results| ==> results[p] == Accepted
      invariant pageCount == if pageIdx == 0 then 1 else lib.page(outVal.Length, text, pageIdx - 1).1
      decreases 255 - pageIdx
    {
      var rc;
      rc, pageCount := GetItem(lib, data, tx, expert, idx, outKey, outVal, pageIdx);
      results := results + [rc];
      if rc != Accepted { return; }
      pageIdx := pageIdx + 1;
    }
  }

  /** The loop of the fuzz target over the items. */
  method ShowItems(lib: Library, data: seq<byte>, tx: TxObject, expert: bool,
                   outKey: array<byte>, outVal: array<byte>) returns (screens: seq<seq<Status>>)
    requires tx.InBounds(data) && Valid(tx.View(data)) && outKey != outVal
    requires forall i :: 0 <= i < NumItems(tx.View(data), expert) ==> Showable(lib, tx.View(data), i)
    modifies outKey, outVal
    ensures |screens| == NumItems(tx.View(data), expert)
    ensures forall i :: 0 <= i < |screens| ==>
              AllPagesShown(lib, tx.View(data), i, outVal.Length, screens[i])
  {
    hide Valid, Showable, NumItems, AllPagesShown;
    screens := [];
    var numItems := GetNumItems(data, tx, expert);
    for i := 0 to numItems
      invariant |screens| == i
      invariant forall k :: 0 <= k < i ==> AllPagesShown(lib, tx.View(data), k, outVal.Length, screens[k])
    {
      var results := ShowPages(lib, data, tx, expert, i, outKey, outVal);
      screens := screens + [results];
    }
  }

  /** The fuzz target: parse, validate, and then ask for every page of every item, into
      buffers of any size. Nothing fails any more once the validation has succeeded. */
  method ShowEverything(lib: Library, key: Option<seq<byte>>, data: seq<byte>, tx: TxObject, expert: bool,
                        outKey: array<byte>, outVal: array<byte>)
    returns (rc: Status, screens: seq<seq<Status>>)
    requires key.Some? ==> |key.value| == 512
    requires |data| < 0x1_0000 && tx.tags.Length == MAX_NUMBER_TAGS && outKey != outVal
    modifies tx, tx.tags, outKey, outVal
    ensures rc == Accepted <==> JudgeBytes(lib, key, data, expert).ForReview?
    ensures rc == Accepted ==>
              var view := JudgeBytes(lib, key, data, expert).tx;
              && |screens| == NumItems(view, expert)
              && forall i :: 0 <= i < |screens| ==>
                   AllPagesShown(lib, view, i, outVal.Length, screens[i])
  {
    hide ParseTx, Valid, Showable, NumItems, AllPagesShown, Judge;
    screens := [];
    var ctx := new ParserContext();
    rc := ParseAndValidate(lib, key, ctx, data, tx, expert);
    if rc != Accepted { return; }
    JudgeBytesExactly(lib, key, data, expert);
    screens := ShowItems(lib, data, tx, expert, outKey, outVal);
  }

  predicate ShowsInBase64(v: seq<byte>) {
    1 <= |v| <= 150
  }

  lemma Base64TextExactly(v: seq<byte>)
    ensures Base64Text(v).Text? <==> ShowsInBase64(v)
  {
  }

  /** Which transactions can be reviewed, outside expert mode and in it. In particular a
      transaction without target, or without last_tx, is always refused. */
  lemma ReviewableExactly(lib: Library, key: Option<seq<byte>>, tx: Tx, expert: bool)
    requires Valid(tx)
    ensures Reviewable(lib, key, tx, expert) <==>
            && key == Some(tx.owner)
            && ShowsInBase64(tx.target) && ShowsInBase64(tx.lastTx)
            && AmountText(lib, tx.quantity).Text?
            && (expert ==> |tx.dataSize| <= 200 && (tx.dataRoot == [] || ShowsInBase64(tx.dataRoot)))
  {
    hide AmountText, Base64Text;
    Base64TextExactly(tx.target);
    Base64TextExactly(tx.lastTx);
    Base64TextExactly(tx.dataRoot);
    if Reviewable(lib, key, tx, expert) {
      assert Showable(lib, tx, 0) && Showable(lib, tx, 1) && Showable(lib, tx, 3);
      if expert {
        assert Showable(lib, tx, 4);
        if tx.dataRoot != [] { assert Showable(lib, tx, 5); }
      }
    }
    forall i | 0 <= i < NumItems(tx, expert)
      ensures i < 0x1_0000 && ItemAt(tx, i).Some?
      ensures ItemAt(tx, i).value.TagItem? ==> Showable(lib, tx, i)
    {
      assert NumItems(tx, expert) <= 22;
      IndicesAreTheListedItems(tx, expert, i);
    }
  }
}
