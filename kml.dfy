/** `KMLOutputParser` of kml.py: builds a KML document for Google Earth as a list of
    text fragments, one fragment per call. */
module Kml {
  import opened Text
  import Sanitizer

  /** The fixed start of every document: XML declaration, `<kml>`, `<Document>`. */
  const KmlHeader: string :=
    "<?xml version=\"1.0\" encoding=\"UTF-8\"?>\n<kml xmlns=\"http://www.opengis.net/kml/2.2\">\n<Document>\n<name>Operations Map</name>\n<open>1</open>"

  const FolderClosing: string := "</Folder>"

  const EndTags: string := "\n</Document></kml>"

  /** The fragment `open_folder` appends, for an already cleaned folder name. */
  function FolderOpening(cleanfoldername: string): string
  {
    "<Folder>\n<name>" + cleanfoldername + "</name>"
  }

  /** `lon,lat,altitude`, the text of `<coordinates>`. */
  function Coordinates(lon: string, lat: string, altitude: string): string
  {
    lon + "," + lat + "," + altitude
  }

  /** One line of the placemark template, with the line break that precedes it. */
  function Line(s: string): string
  {
    "\n" + s
  }

  /** The placemark template, line by line, with its seven `%s` slots filled in the
      template's order: name, description, timestamp, longitude, latitude,
      altitude, coordinates. */
  function PlacemarkLines(name: string, description: string, timestamp: string, lon: string,
                          lat: string, altitude: string, coords: string): seq<string>
  {
    [ Line("<Placemark>"),
      Line("<name>" + name + "</name>"),
      Line("<description>" + description + "</description>"),
      Line("<TimeStamp>"),
      Line("<when>" + timestamp + "</when>"),
      Line("</TimeStamp>"),
      Line("<LookAt>"),
      Line("<longitude>" + lon + "</longitude>"),
      Line("<latitude>" + lat + "</latitude>"),
      Line("<altitude>" + altitude + "</altitude>"),
      Line("<heading>-0</heading>"),
      Line("<tilt>0</tilt>"),
      Line("<range>500</range>"),
      Line("</LookAt>"),
      Line("<Point>"),
      Line("<altitudeMode>absolute</altitudeMode>"),
      Line("<coordinates>" + coords + "</coordinates>"),
      Line("</Point>"),
      Line("</Placemark>") ]
  }

  /** `placemarktemplate % (name, description, timestamp, lon, lat, altitude, coords)`. */
  function PlacemarkText(name: string, description: string, timestamp: string, lon: string,
                         lat: string, altitude: string, coords: string): string
  {
    Concat(PlacemarkLines(name, description, timestamp, lon, lat, altitude, coords))
  }

  /** The fragment `add_kml_placemark` appends: the name is sanitized, everything
      else is inserted as given, and the coordinates are derived from the position. */
  function Placemark(placemarkname: string, description: string, lon: string, lat: string,
                     altitude: string, timestamp: string): string
  {
    PlacemarkText(Sanitizer.Escaped(placemarkname), description, timestamp, lon, lat, altitude,
                  Coordinates(lon, lat, altitude))
  }

  lemma LineShown(parts: seq<string>, k: int, s: string)
    requires 0 <= k < |parts| && parts[k] == Line(s)
    ensures Contains(Concat(parts), s)
  {
    ConcatContains(parts, k);
    ContainsSuffix("\n", s);
    ContainsTrans(Concat(parts), parts[k], s);
  }

  /** Each slot of the placemark shows its value between its own tags, and the
      fragment is one `<Placemark>` element on lines of its own. */
  lemma PlacemarkFields(placemarkname: string, description: string, lon: string, lat: string,
                        altitude: string, timestamp: string)
    ensures var p := Placemark(placemarkname, description, lon, lat, altitude, timestamp);
      && Contains(p, "<name>" + Sanitizer.Escaped(placemarkname) + "</name>")
      && Contains(p, "<description>" + description + "</description>")
      && Contains(p, "<when>" + timestamp + "</when>")
      && Contains(p, "<longitude>" + lon + "</longitude>")
      && Contains(p, "<latitude>" + lat + "</latitude>")
      && Contains(p, "<altitude>" + altitude + "</altitude>")
      && Contains(p, "<coordinates>" + lon + "," + lat + "," + altitude + "</coordinates>")
  {
    var name, coords := Sanitizer.Escaped(placemarkname), Coordinates(lon, lat, altitude);
    HeadShown(name, description, timestamp, lon, lat, altitude, coords);
    LookAtShown(name, description, timestamp, lon, lat, altitude, coords);
    CoordinatesShown(name, description, timestamp, lon, lat, altitude, coords);
    assert "<coordinates>" + coords + "</coordinates>"
        == "<coordinates>" + lon + "," + lat + "," + altitude + "</coordinates>";
  }

  lemma HeadShown(name: string, description: string, timestamp: string, lon: string,
                  lat: string, altitude: string, coords: string)
    ensures var p := PlacemarkText(name, description, timestamp, lon, lat, altitude, coords);
      && Contains(p, "<name>" + name + "</name>")
      && Contains(p, "<description>" + description + "</description>")
      && Contains(p, "<when>" + timestamp + "</when>")
  {
    var parts := PlacemarkLines(name, description, timestamp, lon, lat, altitude, coords);
    LineShown(parts, 1, "<name>" + name + "</name>");
    LineShown(parts, 2, "<description>" + description + "</description>");
    LineShown(parts, 4, "<when>" + timestamp + "</when>");
  }

  lemma LookAtShown(name: string, description: string, timestamp: string, lon: string,
                    lat: string, altitude: string, coords: string)
    ensures var p := PlacemarkText(name, description, timestamp, lon, lat, altitude, coords);
      && Contains(p, "<longitude>" + lon + "</longitude>")
      && Contains(p, "<latitude>" + lat + "</latitude>")
      && Contains(p, "<altitude>" + altitude + "</altitude>")
  {
    var parts := PlacemarkLines(name, description, timestamp, lon, lat, altitude, coords);
    LineShown(parts, 7, "<longitude>" + lon + "</longitude>");
    LineShown(parts, 8, "<latitude>" + lat + "</latitude>");
    LineShown(parts, 9, "<altitude>" + altitude + "</altitude>");
  }

  lemma CoordinatesShown(name: string, description: string, timestamp: string, lon: string,
                         lat: string, altitude: string, coords: string)
    ensures Contains(PlacemarkText(name, description, timestamp, lon, lat, altitude, coords),
                     "<coordinates>" + coords + "</coordinates>")
  {
    var parts := PlacemarkLines(name, description, timestamp, lon, lat, altitude, coords);
    LineShown(parts, 16, "<coordinates>" + coords + "</coordinates>");
  }

  /** The sanitized name cannot open or close a tag, or break the line layout. */
  lemma PlacemarkNameIsText(placemarkname: string)
    ensures var name := Sanitizer.Escaped(placemarkname);
      '<' !in name && '>' !in name && '"' !in name && '\n' !in name
  {
    Sanitizer.EscapedHasNoInvalidChars(placemarkname);
  }

  /** A name with an ampersand shows its entity, not a bare `&`. */
  lemma AmpersandNameExample()
    ensures Contains(Placemark("A&B", "", "106.5", "10.8", "0", ""), "<name>" + "A&amp;B" + "</name>")
  {
    EscapedAmpersandName();
    PlacemarkFields("A&B", "", "106.5", "10.8", "0", "");
  }

  lemma EscapedAmpersandName()
    ensures Sanitizer.Escaped("A&B") == "A&amp;B"
  {
    assert "A&B"[1..] == "&B" && "&B"[1..] == "B" && "B"[1..] == [];
    assert Sanitizer.Escaped("B") == "B";
    assert Sanitizer.Escaped("&B") == "&amp;" + "B";
  }

  /** The calls a client can make, as values: the protocol the class leaves
      unchecked is stated about sequences of these. */
  datatype Call =
    | CreateHeader
    | OpenFolder(foldername: string)
    | CloseFolder
    | AddPlacemark(placemarkname: string, description: string, lon: string, lat: string,
                   altitude: string, timestamp: string)
    | CloseFile

  /** The one fragment a call appends. */
  function Fragment(call: Call): string
  {
    match call
    case CreateHeader => KmlHeader
    case OpenFolder(foldername) => FolderOpening(Sanitizer.Escaped(foldername))
    case CloseFolder => FolderClosing
    case AddPlacemark(n, d, lon, lat, alt, ts) => Placemark(n, d, lon, lat, alt, ts)
    case CloseFile => EndTags
  }

  /** How a call changes the number of open folders. */
  function Delta(call: Call): int
  {
    match call
    case OpenFolder(_) => 1
    case CloseFolder => -1
    case _ => 0
  }

  function Fragments(calls: seq<Call>): seq<string>
  {
    if calls == [] then [] else Fragments(calls[..|calls| - 1]) + [Fragment(calls[|calls| - 1])]
  }

  /** Folders left open after `calls`, starting from none. */
  function Depth(calls: seq<Call>): int
  {
    if calls == [] then 0 else Depth(calls[..|calls| - 1]) + Delta(calls[|calls| - 1])
  }

  /** No prefix closes a folder that was never opened. */
  ghost predicate NeverNegative(calls: seq<Call>)
  {
    forall k :: 0 <= k <= |calls| ==> Depth(calls[..k]) >= 0
  }

  /** Every folder opened is closed, and never before it was opened. */
  ghost predicate Balanced(calls: seq<Call>)
  {
    NeverNegative(calls) && Depth(calls) == 0
  }

  lemma FragmentsPush(calls: seq<Call>, call: Call)
    ensures Fragments(calls + [call]) == Fragments(calls) + [Fragment(call)]
    ensures Depth(calls + [call]) == Depth(calls) + Delta(call)
  {
    assert (calls + [call])[..|calls|] == calls;
  }

  lemma FragmentsOne(call: Call)
    ensures Fragments([call]) == [Fragment(call)] && Depth([call]) == Delta(call)
  {
    FragmentsPush([], call);
    assert [] + [call] == [call];
  }

  /** A run of calls with one call before and one after it. */
  lemma FragmentsAround(first: Call, body: seq<Call>, last: Call)
    ensures Fragments([first] + body + [last]) == [Fragment(first)] + Fragments(body) + [Fragment(last)]
    ensures Depth([first] + body + [last]) == Delta(first) + Depth(body) + Delta(last)
  {
    FragmentsAppend([first] + body, [last]);
    FragmentsAppend([first], body);
    FragmentsOne(first);
    FragmentsOne(last);
  }

  /** One fragment per call, in call order, and the depth counts opens minus closes. */
  lemma {:induction false} FragmentsAppend(a: seq<Call>, b: seq<Call>)
    ensures Fragments(a + b) == Fragments(a) + Fragments(b)
    ensures Depth(a + b) == Depth(a) + Depth(b)
    decreases |b|
  {
    if b == [] {
      assert a + b == a;
    } else {
      var front, last := b[..|b| - 1], b[|b| - 1];
      AppendLast(a, b);
      FragmentsPush(a + front, last);
      FragmentsAppend(a, front);
      FragmentsPush(front, last);
    }
  }

  /** Two balanced call sequences one after the other are balanced. */
  lemma BalancedAppend(a: seq<Call>, b: seq<Call>)
    requires Balanced(a) && Balanced(b)
    ensures Balanced(a + b)
  {
    FragmentsAppend(a, b);
    forall k | 0 <= k <= |a + b| ensures Depth((a + b)[..k]) >= 0 {
      if k <= |a| {
        assert (a + b)[..k] == a[..k];
      } else {
        assert (a + b)[..k] == a + b[..k - |a|];
        FragmentsAppend(a, b[..k - |a|]);
      }
    }
  }

  /** A balanced sequence wrapped in one more folder is balanced. */
  lemma Nested(name: string, body: seq<Call>)
    requires Balanced(body)
    ensures Balanced([OpenFolder(name)] + body + [CloseFolder])
  {
    var inner := [OpenFolder(name)] + body;
    var whole := inner + [CloseFolder];
    FragmentsAppend([OpenFolder(name)], body);
    FragmentsPush(inner, CloseFolder);
    FragmentsPush([], OpenFolder(name));
    assert [] + [OpenFolder(name)] == [OpenFolder(name)];
    forall k | 0 <= k <= |whole| ensures Depth(whole[..k]) >= 0 {
      if k == 0 {
        assert whole[..k] == [];
      } else if k <= |inner| {
        assert whole[..k] == [OpenFolder(name)] + body[..k - 1];
        FragmentsAppend([OpenFolder(name)], body[..k - 1]);
      } else {
        assert whole[..k] == whole;
      }
    }
  }

  /** Calls that neither open nor close a folder are balanced on their own. */
  lemma {:induction false} FlatBalanced(calls: seq<Call>)
    requires forall k :: 0 <= k < |calls| ==> Delta(calls[k]) == 0
    ensures Balanced(calls)
    decreases |calls|
  {
    if calls != [] {
      var front := calls[..|calls| - 1];
      FlatBalanced(front);
      forall k | 0 <= k <= |calls| ensures Depth(calls[..k]) >= 0 {
        if k < |calls| {
          assert calls[..k] == front[..k];
        } else {
          assert calls[..k] == calls;
        }
      }
    }
  }

  /** The parser lets `close_folder` run with no folder open; the depth then drops
      below zero, which `Balanced` rules out. */
  lemma CloseWithoutOpen()
    ensures Depth([CloseFolder]) == -1 && !Balanced([CloseFolder])
  {
    FragmentsOne(CloseFolder);
  }

  /** The parser: `kmldoc` is the list of fragments written so far; `depth` counts
      folders opened and not yet closed, which the parser itself never checks. */
  class KmlOutputParser {
    var kmldoc: seq<string>
    const kmlfilepath: string
    ghost var depth: int

    constructor (kmlfilepath: string)
      ensures this.kmlfilepath == kmlfilepath
      ensures kmldoc == [] && depth == 0
    {
      kmldoc := [];
      this.kmlfilepath := kmlfilepath;
      depth := 0;
    }

    /** The text the document file receives: every fragment, in order. */
    function Document(): string
      reads this
    {
      Concat(kmldoc)
    }

    method CreateKmlHeader()
      modifies this
      ensures kmldoc == old(kmldoc) + [KmlHeader] && depth == old(depth)
      ensures Document() == old(Document()) + KmlHeader
    {
      kmldoc := kmldoc + [KmlHeader];
      ConcatPush(old(kmldoc), KmlHeader);
    }

    method AddKmlPlacemark(placemarkname: string, description: string, lon: string, lat: string,
                           altitude: string := "0", timestamp: string := "")
      modifies this
      ensures kmldoc == old(kmldoc) + [Placemark(placemarkname, description, lon, lat, altitude, timestamp)]
      ensures depth == old(depth)
      ensures Document() == old(Document()) + Placemark(placemarkname, description, lon, lat, altitude, timestamp)
    {
      var cleanname := Sanitizer.RemoveInvalidChars(placemarkname);
      var coords := lon + "," + lat + "," + altitude;
      var placemark := PlacemarkText(cleanname, description, timestamp, lon, lat, altitude, coords);
      kmldoc := kmldoc + [placemark];
      ConcatPush(old(kmldoc), placemark);
    }

    method OpenFolder(foldername: string)
      modifies this
      ensures kmldoc == old(kmldoc) + [FolderOpening(Sanitizer.Escaped(foldername))]
      ensures depth == old(depth) + 1
      ensures Document() == old(Document()) + FolderOpening(Sanitizer.Escaped(foldername))
    {
      var cleanfoldername := Sanitizer.RemoveInvalidChars(foldername);
      var openfolderstr := FolderOpening(cleanfoldername);
      kmldoc := kmldoc + [openfolderstr];
      depth := depth + 1;
      ConcatPush(old(kmldoc), openfolderstr);
    }

    method CloseFolder()
      modifies this
      ensures kmldoc == old(kmldoc) + [FolderClosing] && depth == old(depth) - 1
      ensures Document() == old(Document()) + FolderClosing
    {
      kmldoc := kmldoc + [FolderClosing];
      depth := depth - 1;
      ConcatPush(old(kmldoc), FolderClosing);
    }

    method CloseKmlFile()
      modifies this
      ensures kmldoc == old(kmldoc) + [EndTags] && depth == old(depth)
      ensures Document() == old(Document()) + EndTags
    {
      kmldoc := kmldoc + [EndTags];
      ConcatPush(old(kmldoc), EndTags);
    }

    /** The text `write_kml_doc_file` sends to the file, one fragment after another. */
    method WriteKmlDocFile() returns (written: string)
      ensures written == Concat(kmldoc)
    {
      written := "";
      for i := 0 to |kmldoc|
        invariant written == Concat(kmldoc[..i])
      {
        ConcatPush(kmldoc[..i], kmldoc[i]);
        assert kmldoc[..i] + [kmldoc[i]] == kmldoc[..i + 1];
        written := written + kmldoc[i];
      }
      assert kmldoc[..|kmldoc|] == kmldoc;
    }
  }
}
