/** `format_kml_placemark_description` of kml.py: turns an insertion-ordered
    record into the CDATA block shown when a placemark is clicked. */
module KmlDescription {
  import opened Text

  /** One entry of the record: a scalar value, or a mapping one level deep.
      Values are already text; insertion order is the order of the sequences. */
  datatype Field =
    | Scalar(key: string, value: string)
    | Group(key: string, items: seq<(string, string)>)

  const StartTag: string := "<![CDATA["
  const NewlineTag: string := "<br  />\n"
  const EndTag: string := "]]>"

  /** `KEY - value` and a line break: keys are upper-cased, values kept as they are. */
  function ItemLine(key: string, value: string): string
  {
    Upper(key) + " - " + value + NewlineTag
  }

  function ItemLines(items: seq<(string, string)>): string
  {
    if items == [] then ""
    else ItemLines(items[..|items| - 1]) + ItemLine(items[|items| - 1].0, items[|items| - 1].1)
  }

  function FieldText(field: Field): string
  {
    match field
    case Scalar(key, value) => ItemLine(key, value)
    case Group(key, items) => NewlineTag + Upper(key) + NewlineTag + ItemLines(items)
  }

  function FieldsText(fields: seq<Field>): string
  {
    if fields == [] then "" else FieldsText(fields[..|fields| - 1]) + FieldText(fields[|fields| - 1])
  }

  /** The description the source returns for `fields`. */
  function Description(fields: seq<Field>): string
  {
    StartTag + FieldsText(fields) + EndTag
  }

  /** Every description is one CDATA section; an empty record gives an empty one. */
  lemma DescriptionIsCData(fields: seq<Field>)
    ensures |Description(fields)| >= 12
    ensures Description(fields)[..9] == "<![CDATA[" && Description(fields)[|Description(fields)| - 3..] == "]]>"
    ensures fields == [] ==> Description(fields) == "<![CDATA[]]>"
  {
    var r := Description(fields);
    assert r == StartTag + (FieldsText(fields) + EndTag);
    assert r == (StartTag + FieldsText(fields)) + EndTag;
  }

  /** The pieces `descriptionlist` receives for one item of a nested mapping. */
  function ItemPieces(items: seq<(string, string)>): seq<string>
  {
    if items == [] then []
    else ItemPieces(items[..|items| - 1]) + [Upper(items[|items| - 1].0), " - ", items[|items| - 1].1, NewlineTag]
  }

  /** The pieces `descriptionlist` receives for one entry of the record. */
  function FieldPieces(field: Field): seq<string>
  {
    match field
    case Scalar(key, value) => [Upper(key), " - ", value, NewlineTag]
    case Group(key, items) => [NewlineTag, Upper(key), NewlineTag] + ItemPieces(items)
  }

  function Pieces(fields: seq<Field>): seq<string>
  {
    if fields == [] then [] else Pieces(fields[..|fields| - 1]) + FieldPieces(fields[|fields| - 1])
  }

  method FormatKmlPlacemarkDescription(placemarkdict: seq<Field>) returns (description: string)
    ensures description == Description(placemarkdict)
  {
    var descriptionlist: seq<string> := [StartTag];
    for i := 0 to |placemarkdict|
      invariant descriptionlist == [StartTag] + Pieces(placemarkdict[..i])
    {
      descriptionlist := AppendField(descriptionlist, placemarkdict[i]);
      PiecesStep(placemarkdict, i);
      AppendAssoc([StartTag], Pieces(placemarkdict[..i]), FieldPieces(placemarkdict[i]));
    }
    assert placemarkdict[..|placemarkdict|] == placemarkdict;
    descriptionlist := descriptionlist + [EndTag];
    description := Concat(descriptionlist);
    JoinedPieces(placemarkdict);
  }

  /** The body of the loop over the record: one entry's pieces. */
  method AppendField(descriptionlist: seq<string>, item: Field) returns (extended: seq<string>)
    ensures extended == descriptionlist + FieldPieces(item)
  {
    match item {
      case Group(key, subitems) =>
        extended := descriptionlist + [NewlineTag, Upper(key), NewlineTag];
        extended := AppendItems(extended, subitems);
      case Scalar(key, value) =>
        extended := descriptionlist + [Upper(key), " - ", value, NewlineTag];
    }
  }

  /** The inner loop over a nested mapping's items. */
  method AppendItems(descriptionlist: seq<string>, subitems: seq<(string, string)>) returns (extended: seq<string>)
    ensures extended == descriptionlist + ItemPieces(subitems)
  {
    extended := descriptionlist;
    for j := 0 to |subitems|
      invariant extended == descriptionlist + ItemPieces(subitems[..j])
    {
      extended := extended + [Upper(subitems[j].0), " - ", subitems[j].1, NewlineTag];
      ItemPiecesStep(subitems, j);
      AppendAssoc(descriptionlist, ItemPieces(subitems[..j]), [Upper(subitems[j].0), " - ", subitems[j].1, NewlineTag]);
    }
    assert subitems[..|subitems|] == subitems;
  }

  lemma PiecesStep(fields: seq<Field>, i: int)
    requires 0 <= i < |fields|
    ensures Pieces(fields[..i + 1]) == Pieces(fields[..i]) + FieldPieces(fields[i])
  {
    assert fields[..i + 1][..i] == fields[..i];
  }

  lemma ItemPiecesStep(items: seq<(string, string)>, j: int)
    requires 0 <= j < |items|
    ensures ItemPieces(items[..j + 1]) == ItemPieces(items[..j]) + [Upper(items[j].0), " - ", items[j].1, NewlineTag]
  {
    assert items[..j + 1][..j] == items[..j];
  }

  lemma ConcatFour(a: string, b: string, c: string, d: string)
    ensures Concat([a, b, c, d]) == a + b + c + d
  {
    ConcatPush([a, b, c], d);
    assert [a, b, c] + [d] == [a, b, c, d];
    ConcatPush([a, b], c);
    assert [a, b] + [c] == [a, b, c];
    ConcatPush([a], b);
    assert [a] + [b] == [a, b];
    ConcatPush([], a);
    assert [] + [a] == [a];
  }

  lemma {:induction false} JoinedItemPieces(items: seq<(string, string)>)
    ensures Concat(ItemPieces(items)) == ItemLines(items)
    decreases |items|
  {
    if items != [] {
      var front, last := items[..|items| - 1], items[|items| - 1];
      JoinedItemPieces(front);
      ConcatAppend(ItemPieces(front), [Upper(last.0), " - ", last.1, NewlineTag]);
      ConcatFour(Upper(last.0), " - ", last.1, NewlineTag);
    }
  }

  lemma JoinedFieldPieces(field: Field)
    ensures Concat(FieldPieces(field)) == FieldText(field)
  {
    match field
    case Scalar(key, value) =>
      ConcatFour(Upper(key), " - ", value, NewlineTag);
    case Group(key, items) =>
      JoinedGroupPieces(Upper(key), items);
  }

  /** A nested entry's pieces, for an already upper-cased key `head`. */
  lemma JoinedGroupPieces(head: string, items: seq<(string, string)>)
    ensures Concat([NewlineTag, head, NewlineTag] + ItemPieces(items)) == NewlineTag + head + NewlineTag + ItemLines(items)
  {
    ConcatAppend([NewlineTag, head, NewlineTag], ItemPieces(items));
    JoinedItemPieces(items);
    ConcatThree(NewlineTag, head, NewlineTag);
  }

  lemma ConcatThree(a: string, b: string, c: string)
    ensures Concat([a, b, c]) == a + b + c
  {
    ConcatPush([a, b], c);
    assert [a, b] + [c] == [a, b, c];
    ConcatPush([a], b);
    assert [a] + [b] == [a, b];
    ConcatPush([], a);
    assert [] + [a] == [a];
  }

  lemma {:induction false} JoinedFieldsPieces(fields: seq<Field>)
    ensures Concat(Pieces(fields)) == FieldsText(fields)
    decreases |fields|
  {
    if fields != [] {
      var front, last := fields[..|fields| - 1], fields[|fields| - 1];
      JoinedFieldsPieces(front);
      ConcatAppend(Pieces(front), FieldPieces(last));
      JoinedFieldPieces(last);
    }
  }

  /** Joining the source's piece list gives the description. */
  lemma JoinedPieces(fields: seq<Field>)
    ensures Concat([StartTag] + Pieces(fields) + [EndTag]) == Description(fields)
  {
    var pieces := Pieces(fields);
    calc {
      Concat([StartTag] + pieces + [EndTag]);
      { ConcatPush([StartTag] + pieces, EndTag); }
      Concat([StartTag] + pieces) + EndTag;
      { ConcatAppend([StartTag], pieces); ConcatOne(StartTag); }
      StartTag + Concat(pieces) + EndTag;
      { JoinedFieldsPieces(fields); }
      StartTag + FieldsText(fields) + EndTag;
    }
  }

  lemma {:induction false} FieldsTextAppend(a: seq<Field>, b: seq<Field>)
    ensures FieldsText(a + b) == FieldsText(a) + FieldsText(b)
    decreases |b|
  {
    if b == [] {
      assert a + b == a;
    } else {
      var front, last := b[..|b| - 1], b[|b| - 1];
      AppendLast(a, b);
      FieldsTextPush(a + front, last);
      FieldsTextAppend(a, front);
      FieldsTextPush(front, last);
      AppendAssoc(FieldsText(a), FieldsText(front), FieldText(last));
    }
  }

  /** Entries appear in insertion order: entry `i` is written after every
      earlier entry and before every later one. */
  lemma FieldsInOrder(fields: seq<Field>, i: int)
    requires 0 <= i < |fields|
    ensures FieldsText(fields) == FieldsText(fields[..i]) + FieldText(fields[i]) + FieldsText(fields[i + 1..])
  {
    var front, back := fields[..i] + [fields[i]], fields[i + 1..];
    calc {
      FieldsText(fields);
      { SplitAt(fields, i); }
      FieldsText(front + back);
      { FieldsTextAppend(front, back); }
      FieldsText(front) + FieldsText(back);
      { FieldsTextPush(fields[..i], fields[i]); }
      FieldsText(fields[..i]) + FieldText(fields[i]) + FieldsText(back);
    }
  }

  lemma FieldsTextPush(fields: seq<Field>, field: Field)
    ensures FieldsText(fields + [field]) == FieldsText(fields) + FieldText(field)
  {
    assert (fields + [field])[..|fields|] == fields;
  }

  /** Each entry's text appears in the description. */
  lemma FieldShown(fields: seq<Field>, i: int)
    requires 0 <= i < |fields|
    ensures Contains(Description(fields), FieldText(fields[i]))
  {
    FieldsInOrder(fields, i);
    var before, after := StartTag + FieldsText(fields[..i]), FieldsText(fields[i + 1..]) + EndTag;
    AssocMiddle(StartTag, FieldsText(fields[..i]), FieldText(fields[i]), FieldsText(fields[i + 1..]), EndTag);
    ContainsMiddle(before, FieldText(fields[i]), after);
  }

  /** A scalar entry shows up as `KEY - value<br  />\n`, with its value verbatim. */
  lemma ScalarShown(fields: seq<Field>, i: int)
    requires 0 <= i < |fields| && fields[i].Scalar?
    ensures Contains(Description(fields), Upper(fields[i].key) + " - " + fields[i].value + NewlineTag)
  {
    FieldShown(fields, i);
  }

  lemma ItemLinesPush(items: seq<(string, string)>, item: (string, string))
    ensures ItemLines(items + [item]) == ItemLines(items) + ItemLine(item.0, item.1)
  {
    assert (items + [item])[..|items|] == items;
  }

  lemma {:induction false} ItemLinesAppend(a: seq<(string, string)>, b: seq<(string, string)>)
    ensures ItemLines(a + b) == ItemLines(a) + ItemLines(b)
    decreases |b|
  {
    if b == [] {
      assert a + b == a;
    } else {
      var front, last := b[..|b| - 1], b[|b| - 1];
      AppendLast(a, b);
      ItemLinesPush(a + front, last);
      ItemLinesAppend(a, front);
      ItemLinesPush(front, last);
      AppendAssoc(ItemLines(a), ItemLines(front), ItemLine(last.0, last.1));
    }
  }

  /** Sub-entries appear in insertion order too. */
  lemma ItemsInOrder(items: seq<(string, string)>, j: int)
    requires 0 <= j < |items|
    ensures ItemLines(items) == ItemLines(items[..j]) + ItemLine(items[j].0, items[j].1) + ItemLines(items[j + 1..])
  {
    var front, back := items[..j] + [items[j]], items[j + 1..];
    calc {
      ItemLines(items);
      { SplitAt(items, j); }
      ItemLines(front + back);
      { ItemLinesAppend(front, back); }
      ItemLines(front) + ItemLines(back);
      { ItemLinesPush(items[..j], items[j]); }
      ItemLines(items[..j]) + ItemLine(items[j].0, items[j].1) + ItemLines(back);
    }
  }

  /** A nested entry shows up as a line break, `KEY` and a line break. */
  lemma GroupHeadShown(fields: seq<Field>, i: int)
    requires 0 <= i < |fields| && fields[i].Group?
    ensures Contains(Description(fields), NewlineTag + Upper(fields[i].key) + NewlineTag)
  {
    var head := NewlineTag + Upper(fields[i].key) + NewlineTag;
    FieldShown(fields, i);
    ContainsPrefix(head, ItemLines(fields[i].items));
    ContainsTrans(Description(fields), FieldText(fields[i]), head);
  }

  /** Each sub-entry of a nested entry shows up as `SUBKEY - value<br  />\n`,
      with its value verbatim. */
  lemma GroupItemShown(fields: seq<Field>, i: int, j: int)
    requires 0 <= i < |fields| && fields[i].Group? && 0 <= j < |fields[i].items|
    ensures Contains(Description(fields), Upper(fields[i].items[j].0) + " - " + fields[i].items[j].1 + NewlineTag)
  {
    var items := fields[i].items;
    var head := NewlineTag + Upper(fields[i].key) + NewlineTag;
    var line := ItemLine(items[j].0, items[j].1);
    FieldShown(fields, i);
    ContainsSuffix(head, ItemLines(items));
    ContainsTrans(Description(fields), FieldText(fields[i]), ItemLines(items));
    ItemsInOrder(items, j);
    ContainsMiddle(ItemLines(items[..j]), line, ItemLines(items[j + 1..]));
    ContainsTrans(Description(fields), ItemLines(items), line);
  }

  /** The worked example: upper-case field names, values exactly as given, a
      nested mapping introduced by its own line. */
  lemma WorkedExample()
    ensures Description([Scalar("unit", "7th AF"), Group("load", [("type", "MK82"), ("qty", "4")])])
         == StartTag
          + (("UNIT" + " - " + "7th AF" + NewlineTag)
             + (NewlineTag + "LOAD" + NewlineTag
                + (("TYPE" + " - " + "MK82" + NewlineTag) + ("QTY" + " - " + "4" + NewlineTag))))
          + EndTag
  {
    FieldsTextTwo(Scalar("unit", "7th AF"), Group("load", [("type", "MK82"), ("qty", "4")]));
    ItemLinesTwo(("type", "MK82"), ("qty", "4"));
    UpperExamples();
  }

  lemma FieldsTextTwo(first: Field, second: Field)
    ensures FieldsText([first, second]) == FieldText(first) + FieldText(second)
  {
    PairParts(first, second);
    assert FieldsText([first, second]) == FieldsText([first]) + FieldText(second);
    EmptyAppend(FieldText(first));
    assert FieldsText([first]) == FieldText(first);
  }

  lemma ItemLinesTwo(first: (string, string), second: (string, string))
    ensures ItemLines([first, second]) == ItemLine(first.0, first.1) + ItemLine(second.0, second.1)
  {
    PairParts(first, second);
    assert ItemLines([first, second]) == ItemLines([first]) + ItemLine(second.0, second.1);
    EmptyAppend(ItemLine(first.0, first.1));
    assert ItemLines([first]) == ItemLine(first.0, first.1);
  }

  lemma UpperExamples()
    ensures Upper("unit") == "UNIT" && Upper("load") == "LOAD"
    ensures Upper("type") == "TYPE" && Upper("qty") == "QTY"
  {
  }
}
