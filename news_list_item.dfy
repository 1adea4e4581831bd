/**
 * The card body of one news item: which display blocks a document's optional
 * fields produce and in what order.
 */
module NewsListItem {
  import opened Wrappers
  import opened Content

  /** One display block of an item card. */
  datatype Block =
    | Title(text: string, link: Option<Url>)
    | Author(text: string)
    | Date(timestamp: int)
    | Introduction(text: string)
    | Text(text: string)  // bare text React renders for a falsy number in the date slot

  /** Position of a block kind in the card: title, author, date, introduction. */
  function Rank(b: Block): nat
  {
    match b
    case Title(_, _) => 0
    case Author(_) => 1
    case Date(_) => 2
    case Text(_) => 2
    case Introduction(_) => 3
  }

  /**
   * The blocks of an item card. Each field yields its block only when it is
   * truthy; the title links to the document's own URL. A zero date is falsy,
   * but `date && …` then evaluates to the number 0, which React shows as the
   * text "0" in the date's place.
   */
  function ItemBlocks(item: Document): (blocks: seq<Block>)
    ensures |blocks| <= 4
    ensures forall i, j :: 0 <= i < j < |blocks| ==> Rank(blocks[i]) < Rank(blocks[j])
    ensures forall i :: 0 <= i < |blocks| && blocks[i].Title? ==> blocks[i].link == item.url
    ensures forall i :: 0 <= i < |blocks| && blocks[i].Text? ==> item.data.date == Some(0) && blocks[i].text == "0"
  {
    var d := item.data;
    (if TruthyText(d.title) then [Title(d.title.value, item.url)] else [])
    + (if TruthyText(d.author) then [Author(d.author.value)] else [])
    + (if TruthyDate(d.date) then [Date(d.date.value)] else if d.date == Some(0) then [Text("0")] else [])
    + (if TruthyText(d.introduction) then [Introduction(d.introduction.value)] else [])
  }

  /** The document data with every falsy field replaced by an absent one. */
  function Normalize(d: DocumentData): DocumentData
  {
    DocumentData(
      if TruthyText(d.title) then d.title else None,
      if TruthyText(d.author) then d.author else None,
      if TruthyDate(d.date) then d.date else None,
      if TruthyText(d.introduction) then d.introduction else None)
  }

  /** Reads the shown fields back off a card's blocks; bare text is no field. */
  function Recover(blocks: seq<Block>): DocumentData
  {
    if blocks == [] then DocumentData(None, None, None, None)
    else
      var rest := Recover(blocks[1..]);
      match blocks[0]
      case Title(t, _) => rest.(title := Some(t))
      case Author(a) => rest.(author := Some(a))
      case Date(ts) => rest.(date := Some(ts))
      case Introduction(s) => rest.(introduction := Some(s))
      case Text(_) => rest
  }

  lemma {:induction false} RecoverAppend(a: seq<Block>, b: Block)
    requires forall i :: 0 <= i < |a| ==> Rank(a[i]) < Rank(b)
    ensures Recover(a + [b]) == match b
      case Title(t, _) => Recover(a).(title := Some(t))
      case Author(s) => Recover(a).(author := Some(s))
      case Date(ts) => Recover(a).(date := Some(ts))
      case Introduction(s) => Recover(a).(introduction := Some(s))
      case Text(_) => Recover(a)
  {
    if a != [] {
      assert (a + [b])[1..] == a[1..] + [b];
      RecoverAppend(a[1..], b);
    }
  }

  /**
   * A card shows exactly the truthy fields of its document, each with its
   * value: nothing is dropped, added or altered.
   */
  lemma ItemBlocksShowTruthyFields(item: Document)
    ensures Recover(ItemBlocks(item)) == Normalize(item.data)
  {
    var d := item.data;
    var t: seq<Block> := if TruthyText(d.title) then [Title(d.title.value, item.url)] else [];
    var a: seq<Block> := if TruthyText(d.author) then [Author(d.author.value)] else [];
    var dt: seq<Block> := if TruthyDate(d.date) then [Date(d.date.value)] else if d.date == Some(0) then [Text("0")] else [];
    var n: seq<Block> := if TruthyText(d.introduction) then [Introduction(d.introduction.value)] else [];
    var none := DocumentData(None, None, None, None);
    assert Recover(t) == none.(title := Normalize(d).title);
    if TruthyText(d.author) { RecoverAppend(t, Author(d.author.value)); } else { assert t + a == t; }
    assert Recover(t + a) == none.(title := Normalize(d).title, author := Normalize(d).author);
    if TruthyDate(d.date) {
      RecoverAppend(t + a, Date(d.date.value));
    } else if d.date == Some(0) {
      RecoverAppend(t + a, Text("0"));
    } else {
      assert t + a + dt == t + a;
    }
    assert Recover(t + a + dt) == Normalize(d).(introduction := None);
    if TruthyText(d.introduction) {
      RecoverAppend(t + a + dt, Introduction(d.introduction.value));
    } else {
      assert t + a + dt + n == t + a + dt;
    }
    assert ItemBlocks(item) == t + a + dt + n;
  }

  /** A document with only a title yields the title heading and nothing else. */
  lemma OnlyTitleShowsOnlyHeading(item: Document, t: string)
    requires item.data == DocumentData(Some(t), None, None, None) && t != ""
    ensures ItemBlocks(item) == [Title(t, item.url)]
  {
  }

  /**
   * The bare text "0" appears exactly when the date is zero, and then no
   * date line does.
   */
  lemma ZeroDateShowsZeroText(item: Document)
    ensures Text("0") in ItemBlocks(item) <==> item.data.date == Some(0)
    ensures item.data.date == Some(0) ==> forall b :: b in ItemBlocks(item) ==> !b.Date?
  {
  }
}
