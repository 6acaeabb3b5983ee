/** operationsmap.py: the date cleaner applied to every mission date, and the
    order in which `create_map` drives the KML parser. */
module OperationsMap {
  import opened Wrappers
  import opened Text
  import opened PythonDate
  import opened Kml
  import KmlDescription

  /** The text matches `^(\d{8})`: eight digits at the very start. */
  predicate StartsWithEightDigits(s: string)
  {
    |s| >= 8 && forall k :: 0 <= k < 8 ==> IsAsciiDigit(s[k])
  }

  /** `clean_date`: `yyyymmdd...` becomes `yyyy-mm-dd` (the day slice reaches a
      ninth character), `"INVALID"` when `datetime.date` refuses the numbers; any
      other text is returned as it came. */
  function CleanDate(datestr: string): (r: string)
    ensures !StartsWithEightDigits(datestr) ==> r == datestr
    ensures StartsWithEightDigits(datestr) ==> r == "INVALID" || (|r| >= 10 && r[4] == '-' && r[7] == '-')
  {
    if StartsWithEightDigits(datestr) then
      var cleandate := Slice(datestr, 0, 4) + "-" + Slice(datestr, 4, 6) + "-" + Slice(datestr, 6, 9);
      var year, month, day := PyInt(Slice(datestr, 0, 4)), PyInt(Slice(datestr, 4, 6)), PyInt(Slice(datestr, 6, 9));
      if year.Some? && month.Some? && day.Some? && IsRealDate(year.value, month.value, day.value)
      then cleandate
      else "INVALID"
    else datestr
  }

  /** The three numbers `clean_date` hands to `datetime.date` for a text starting
      with eight digits: the day also takes a ninth digit, skips a ninth
      whitespace character, and fails on any other ninth character. */
  lemma DateNumbers(s: string)
    requires StartsWithEightDigits(s)
    ensures PyInt(Slice(s, 0, 4)) == Some(DigitsValue(s[..4]))
    ensures PyInt(Slice(s, 4, 6)) == Some(DigitsValue(s[4..6]))
    ensures |s| == 8 ==> PyInt(Slice(s, 6, 9)) == Some(DigitsValue(s[6..8]))
    ensures |s| > 8 && IsAsciiDigit(s[8]) ==> PyInt(Slice(s, 6, 9)) == Some(DigitsValue(s[6..9]))
    ensures |s| > 8 && IsPyWhitespace(s[8]) ==> PyInt(Slice(s, 6, 9)) == Some(DigitsValue(s[6..8]))
    ensures |s| > 8 && !IsAsciiDigit(s[8]) && !IsPyWhitespace(s[8]) ==> PyInt(Slice(s, 6, 9)) == None
  {
    assert Slice(s, 0, 4) == s[..4];
    assert Slice(s, 4, 6) == s[4..6];
    PyIntOfDigits(s[..4]);
    PyIntOfDigits(s[4..6]);
    if |s| == 8 {
      assert Slice(s, 6, 9) == s[6..8];
      PyIntOfDigits(s[6..8]);
    } else {
      assert Slice(s, 6, 9) == s[6..8] + [s[8]] == s[6..9];
      if IsAsciiDigit(s[8]) {
        PyIntOfDigits(s[6..9]);
      } else if IsPyWhitespace(s[8]) {
        PyIntTrailingSpace(s[6..8], s[8]);
      } else {
        PyIntRejectsTrailing(s[6..8], s[8]);
      }
    }
  }

  /** An exactly eight-digit date: the dashed form when the digits name a real
      Gregorian date, `"INVALID"` otherwise (month 0 or 13 and up, a day past the
      month's end, February 29 outside leap years, year 0). */
  lemma CleanDateEightDigits(s: string)
    requires |s| == 8 && StartsWithEightDigits(s)
    ensures IsRealDate(DigitsValue(s[..4]), DigitsValue(s[4..6]), DigitsValue(s[6..8]))
            ==> CleanDate(s) == s[..4] + "-" + s[4..6] + "-" + s[6..8]
    ensures !IsRealDate(DigitsValue(s[..4]), DigitsValue(s[4..6]), DigitsValue(s[6..8]))
            ==> CleanDate(s) == "INVALID"
  {
    DateNumbers(s);
    assert Slice(s, 0, 4) == s[..4] && Slice(s, 4, 6) == s[4..6] && Slice(s, 6, 9) == s[6..8];
  }

  /** A ninth digit joins the day: `yyyymmddd` is checked with a three-digit day
      and kept in the output. */
  lemma CleanDateNinthDigit(s: string)
    requires StartsWithEightDigits(s) && |s| > 8 && IsAsciiDigit(s[8])
    ensures IsRealDate(DigitsValue(s[..4]), DigitsValue(s[4..6]), DigitsValue(s[6..9]))
            ==> CleanDate(s) == s[..4] + "-" + s[4..6] + "-" + s[6..9]
    ensures !IsRealDate(DigitsValue(s[..4]), DigitsValue(s[4..6]), DigitsValue(s[6..9]))
            ==> CleanDate(s) == "INVALID"
  {
    DateNumbers(s);
    assert Slice(s, 0, 4) == s[..4] && Slice(s, 4, 6) == s[4..6] && Slice(s, 6, 9) == s[6..9];
  }

  /** A ninth whitespace character is ignored by the `int()`/`datetime.date` check
      but kept in the output. */
  lemma CleanDateNinthSpace(s: string)
    requires StartsWithEightDigits(s) && |s| > 8 && IsPyWhitespace(s[8])
    ensures IsRealDate(DigitsValue(s[..4]), DigitsValue(s[4..6]), DigitsValue(s[6..8]))
            ==> CleanDate(s) == s[..4] + "-" + s[4..6] + "-" + s[6..9]
    ensures !IsRealDate(DigitsValue(s[..4]), DigitsValue(s[4..6]), DigitsValue(s[6..8]))
            ==> CleanDate(s) == "INVALID"
  {
    DateNumbers(s);
    assert Slice(s, 0, 4) == s[..4] && Slice(s, 4, 6) == s[4..6] && Slice(s, 6, 9) == s[6..9];
  }

  /** Any other ninth character makes `int()` fail, so the date is `"INVALID"`
      whatever its first eight digits say; this includes the separators U+001C to
      U+001F, which `int()` does not skip. */
  lemma CleanDateBadNinth(s: string)
    requires StartsWithEightDigits(s) && |s| > 8 && !IsAsciiDigit(s[8]) && !IsPyWhitespace(s[8])
    ensures CleanDate(s) == "INVALID"
  {
    DateNumbers(s);
  }

  /** For a valid exactly eight-digit date: ten characters, dashes at 4 and 7,
      the digits in their original order around them. */
  lemma CleanDateShape(s: string)
    requires |s| == 8 && StartsWithEightDigits(s) && CleanDate(s) != "INVALID"
    ensures |CleanDate(s)| == 10 && CleanDate(s)[4] == '-' && CleanDate(s)[7] == '-'
    ensures CleanDate(s)[..4] == s[..4] && CleanDate(s)[5..7] == s[4..6] && CleanDate(s)[8..] == s[6..]
  {
    CleanDateEightDigits(s);
  }

  /** Cleaning twice is cleaning once: no output starts with eight digits. */
  lemma CleanDateIdempotent(s: string)
    ensures !StartsWithEightDigits(CleanDate(s))
    ensures CleanDate(CleanDate(s)) == CleanDate(s)
  {
    var r := CleanDate(s);
    if StartsWithEightDigits(s) {
      if r == "INVALID" {
        assert !IsAsciiDigit(r[0]);
      } else {
        assert !IsAsciiDigit(r[4]);
      }
    }
  }

  /** `CleanDateEightDigits` with the year, month and day given separately. */
  lemma CleanDateParts(year: string, month: string, day: string)
    requires |year| == 4 && |month| == 2 && |day| == 2
    requires AllDigits(year) && AllDigits(month) && AllDigits(day)
    ensures CleanDate(year + month + day)
         == if IsRealDate(DigitsValue(year), DigitsValue(month), DigitsValue(day))
            then year + "-" + month + "-" + day else "INVALID"
  {
    var s := year + month + day;
    assert s[..4] == year && s[4..6] == month && s[6..8] == day;
    CleanDateEightDigits(s);
  }

  /** February 30 does not exist. */
  lemma ImpossibleDayExample()
    ensures CleanDate("1972" + "02" + "30") == "INVALID"
  {
    CleanDateParts("1972", "02", "30");
    DigitsValueTwo('0', '2');
    DigitsValueTwo('3', '0');
  }

  /** 1900 is a century year not divisible by 400, so it has no February 29. */
  lemma CenturyExample()
    ensures CleanDate("1900" + "02" + "29") == "INVALID"
  {
    DigitsValueFour('1', '9', '0', '0');
    DigitsValueTwo('0', '2');
    DigitsValueTwo('2', '9');
    assert !IsRealDate(1900, 2, 29) by { assert !IsLeapYear(1900); }
    CleanDateParts("1900", "02", "29");
  }

  /** 2000 is divisible by 400, so February 29 exists. */
  lemma LeapDayExample()
    ensures CleanDate("2000" + "02" + "29") == "2000" + "-" + "02" + "-" + "29"
  {
    DigitsValueFour('2', '0', '0', '0');
    DigitsValueTwo('0', '2');
    DigitsValueTwo('2', '9');
    assert IsRealDate(2000, 2, 29) by { assert IsLeapYear(2000); }
    CleanDateParts("2000", "02", "29");
  }

  /** `datetime.date` has no year 0. */
  lemma YearZeroExample()
    ensures CleanDate("0000" + "01" + "01") == "INVALID"
  {
    CleanDateParts("0000", "01", "01");
    DigitsValueFour('0', '0', '0', '0');
  }

  lemma MonthThirteenExample()
    ensures CleanDate("1972" + "13" + "01") == "INVALID"
  {
    CleanDateParts("1972", "13", "01");
    DigitsValueTwo('1', '3');
  }

  /** A ninth digit is read into the day and kept: `031` is the 31st. */
  lemma NinthDigitExample()
    ensures CleanDate("2010" + "01" + "031") == "2010" + "-" + "01" + "-" + "031"
  {
    var s := "2010" + "01" + "031";
    assert s[..4] == "2010" && s[4..6] == "01" && s[6..9] == "031";
    CleanDateNinthDigit(s);
    DigitsValueFour('2', '0', '1', '0');
    DigitsValueTwo('0', '1');
    DigitsValueThree('0', '3', '1');
  }

  /** A ninth `.` makes the day slice unreadable, even though 2010-01-03 exists. */
  lemma NinthDotExample()
    ensures CleanDate("20100103" + ".") == "INVALID"
  {
    CleanDateBadNinth("20100103" + ".");
  }

  /** A ninth file separator U+001C is not whitespace to `int()`, so the date is
      `"INVALID"` although `str.isspace` accepts that character. */
  lemma NinthSeparatorExample()
    ensures CleanDate("20100101" + "\U{1c}") == "INVALID"
  {
    CleanDateBadNinth("20100101" + "\U{1c}");
  }

  /** Already dashed dates do not match the pattern and pass through. */
  lemma DashedExample()
    ensures CleanDate("1972-12-18") == "1972-12-18"
  {
    assert !IsAsciiDigit("1972-12-18"[4]);
  }

  /** One row of a mission type's table: the whole row as an insertion-ordered
      record, plus the columns `create_map` reads from it. `callsign` is `None`
      where the CALLSIGN cell is not text. */
  datatype Mission = Mission(record: seq<KmlDescription.Field>, validAircraftRoot: string,
                             callsign: Option<string>, lon: string, lat: string, msndate: string)

  /** One entry of `mtypes`: a mission type and its missions, in table order. */
  datatype MissionType = MissionType(mtype: string, operations: seq<Mission>)

  /** The name of the folder that holds the whole map. */
  const MapTitle: string := "Vietnam War Air Missions" + " - " + "THOR dataset"

  /** The pin label: the aircraft, then two spaces and the call sign when there is one. */
  function PointName(operation: Mission): (r: string)
    ensures |operation.validAircraftRoot| <= |r|
    ensures r[..|operation.validAircraftRoot|] == operation.validAircraftRoot
    ensures operation.callsign.None? <==> r == operation.validAircraftRoot
    ensures operation.callsign.Some? ==> r[|operation.validAircraftRoot|..] == "  " + operation.callsign.value
  {
    match operation.callsign
    case Some(callsign) => operation.validAircraftRoot + "  " + callsign
    case None => operation.validAircraftRoot
  }

  /** The placemark call `create_map` makes for one mission. */
  function MissionCall(operation: Mission): Call
  {
    AddPlacemark(PointName(operation), KmlDescription.Description(operation.record),
                 operation.lon, operation.lat, "0", operation.msndate)
  }

  function MissionCalls(operations: seq<Mission>): seq<Call>
  {
    if operations == [] then []
    else MissionCalls(operations[..|operations| - 1]) + [MissionCall(operations[|operations| - 1])]
  }

  /** One mission type: its own folder holding one placemark per mission. */
  function TypeCalls(t: MissionType): seq<Call>
  {
    [OpenFolder(t.mtype)] + MissionCalls(t.operations) + [CloseFolder]
  }

  function AllTypeCalls(mtypes: seq<MissionType>): seq<Call>
  {
    if mtypes == [] then [] else AllTypeCalls(mtypes[..|mtypes| - 1]) + TypeCalls(mtypes[|mtypes| - 1])
  }

  /** Every call `create_map` makes, in order: the header, the outer folder around
      all mission types, the end of the file. */
  function CreateMapCalls(mtypes: seq<MissionType>): seq<Call>
  {
    [CreateHeader] + ([OpenFolder(MapTitle)] + AllTypeCalls(mtypes) + [CloseFolder]) + [CloseFile]
  }

  lemma MissionCallsPush(operations: seq<Mission>, operation: Mission)
    ensures MissionCalls(operations + [operation]) == MissionCalls(operations) + [MissionCall(operation)]
  {
    assert (operations + [operation])[..|operations|] == operations;
  }

  lemma AllTypeCallsPush(mtypes: seq<MissionType>, t: MissionType)
    ensures AllTypeCalls(mtypes + [t]) == AllTypeCalls(mtypes) + TypeCalls(t)
  {
    assert (mtypes + [t])[..|mtypes|] == mtypes;
  }

  lemma {:induction false} MissionCallsFlat(operations: seq<Mission>)
    ensures |MissionCalls(operations)| == |operations|
    ensures forall k :: 0 <= k < |operations| ==> MissionCalls(operations)[k] == MissionCall(operations[k])
    decreases |operations|
  {
    if operations != [] {
      MissionCallsFlat(operations[..|operations| - 1]);
    }
  }

  lemma {:induction false} AllTypeCallsBalanced(mtypes: seq<MissionType>)
    ensures Balanced(AllTypeCalls(mtypes))
    decreases |mtypes|
  {
    if mtypes == [] {
      FlatBalanced([]);
    } else {
      var t := mtypes[|mtypes| - 1];
      AllTypeCallsBalanced(mtypes[..|mtypes| - 1]);
      MissionCallsFlat(t.operations);
      FlatBalanced(MissionCalls(t.operations));
      Nested(t.mtype, MissionCalls(t.operations));
      BalancedAppend(AllTypeCalls(mtypes[..|mtypes| - 1]), TypeCalls(t));
    }
  }

  /** `create_map` closes every folder it opens, never closes one it has not
      opened, and ends with no folder open. */
  lemma CreateMapBalanced(mtypes: seq<MissionType>)
    ensures Balanced(CreateMapCalls(mtypes))
    ensures Depth(CreateMapCalls(mtypes)) == 0
  {
    var inner := [OpenFolder(MapTitle)] + AllTypeCalls(mtypes) + [CloseFolder];
    AllTypeCallsBalanced(mtypes);
    Nested(MapTitle, AllTypeCalls(mtypes));
    FlatBalanced([CreateHeader]);
    FlatBalanced([CloseFile]);
    BalancedAppend([CreateHeader], inner);
    BalancedAppend([CreateHeader] + inner, [CloseFile]);
  }

  /** The calls of `create_map` seen as three parts: header, outer folder, end. */
  lemma CreateMapFragments(mtypes: seq<MissionType>)
    ensures Fragments(CreateMapCalls(mtypes))
         == [KmlHeader] + ([Fragment(OpenFolder(MapTitle))] + Fragments(AllTypeCalls(mtypes)) + [FolderClosing]) + [EndTags]
  {
    var all := AllTypeCalls(mtypes);
    FragmentsAround(CreateHeader, [OpenFolder(MapTitle)] + all + [CloseFolder], CloseFile);
    FragmentsAround(OpenFolder(MapTitle), all, CloseFolder);
  }

  /** The written map is one KML document: the header first, then the outer
      folder, then the end tags. */
  lemma CreateMapDocument(mtypes: seq<MissionType>)
    ensures var doc := Concat(Fragments(CreateMapCalls(mtypes)));
      && |doc| >= |KmlHeader| + |EndTags|
      && doc[..|KmlHeader|] == KmlHeader
      && doc[|doc| - |EndTags|..] == EndTags
  {
    var middle := [Fragment(OpenFolder(MapTitle))] + Fragments(AllTypeCalls(mtypes)) + [FolderClosing];
    CreateMapFragments(mtypes);
    ConcatAround(KmlHeader, middle, EndTags);
    PrefixSuffix(KmlHeader, Concat(middle), EndTags);
  }

  lemma TypeFragments(t: MissionType)
    ensures Fragments(TypeCalls(t))
         == [Fragment(OpenFolder(t.mtype))] + Fragments(MissionCalls(t.operations)) + [FolderClosing]
    ensures Depth(TypeCalls(t)) == Depth(MissionCalls(t.operations))
  {
    FragmentsAround(OpenFolder(t.mtype), MissionCalls(t.operations), CloseFolder);
  }

  lemma MissionFragmentsStep(operations: seq<Mission>, j: int)
    requires 0 <= j < |operations|
    ensures Fragments(MissionCalls(operations[..j + 1]))
         == Fragments(MissionCalls(operations[..j])) + [Fragment(MissionCall(operations[j]))]
    ensures Depth(MissionCalls(operations[..j + 1])) == Depth(MissionCalls(operations[..j]))
  {
    assert operations[..j + 1] == operations[..j] + [operations[j]];
    MissionCallsPush(operations[..j], operations[j]);
    FragmentsPush(MissionCalls(operations[..j]), MissionCall(operations[j]));
  }

  lemma TypesFragmentsStep(mtypes: seq<MissionType>, i: int)
    requires 0 <= i < |mtypes|
    ensures Fragments(AllTypeCalls(mtypes[..i + 1])) == Fragments(AllTypeCalls(mtypes[..i])) + Fragments(TypeCalls(mtypes[i]))
    ensures Depth(AllTypeCalls(mtypes[..i + 1])) == Depth(AllTypeCalls(mtypes[..i])) + Depth(TypeCalls(mtypes[i]))
  {
    assert mtypes[..i + 1] == mtypes[..i] + [mtypes[i]];
    AllTypeCallsPush(mtypes[..i], mtypes[i]);
    FragmentsAppend(AllTypeCalls(mtypes[..i]), TypeCalls(mtypes[i]));
  }

  /** `create_map`, with the text `write_kml_doc_file` would send to `outputfile`
      returned rather than written. */
  method CreateMap(outputfile: string, mtypes: seq<MissionType>) returns (kmlmap: KmlOutputParser, written: string)
    ensures fresh(kmlmap) && kmlmap.kmlfilepath == outputfile
    ensures kmlmap.kmldoc == Fragments(CreateMapCalls(mtypes))
    ensures kmlmap.depth == 0
    ensures written == kmlmap.Document()
  {
    kmlmap := new KmlOutputParser(outputfile);
    kmlmap.CreateKmlHeader();
    kmlmap.OpenFolder(MapTitle);
    AddMissionTypes(kmlmap, mtypes);
    kmlmap.CloseFolder();
    kmlmap.CloseKmlFile();
    AppendFrame(KmlHeader, Fragment(OpenFolder(MapTitle)), Fragments(AllTypeCalls(mtypes)), FolderClosing, EndTags);
    CreateMapFragments(mtypes);
    AllTypeCallsBalanced(mtypes);
    written := kmlmap.WriteKmlDocFile();
  }

  /** The outer loop: one folder per mission type, in the order of `mtypes`. */
  method AddMissionTypes(kmlmap: KmlOutputParser, mtypes: seq<MissionType>)
    modifies kmlmap
    ensures kmlmap.kmldoc == old(kmlmap.kmldoc) + Fragments(AllTypeCalls(mtypes))
    ensures kmlmap.depth == old(kmlmap.depth) + Depth(AllTypeCalls(mtypes))
  {
    TakeAll(mtypes);
    for i := 0 to |mtypes|
      invariant kmlmap.kmldoc == old(kmlmap.kmldoc) + Fragments(AllTypeCalls(mtypes[..i]))
      invariant kmlmap.depth == old(kmlmap.depth) + Depth(AllTypeCalls(mtypes[..i]))
    {
      AddMissionType(kmlmap, mtypes[i]);
      TypesFragmentsStep(mtypes, i);
      AppendAssoc(old(kmlmap.kmldoc), Fragments(AllTypeCalls(mtypes[..i])), Fragments(TypeCalls(mtypes[i])));
    }
  }

  /** The body of the loop over mission types: a folder of placemarks. */
  method AddMissionType(kmlmap: KmlOutputParser, t: MissionType)
    modifies kmlmap
    ensures kmlmap.kmldoc == old(kmlmap.kmldoc) + Fragments(TypeCalls(t))
    ensures kmlmap.depth == old(kmlmap.depth) + Depth(TypeCalls(t))
  {
    var mtype := t.mtype;
    var operations := t.operations;
    ghost var before := kmlmap.kmldoc;
    kmlmap.OpenFolder(mtype);
    assert kmlmap.kmldoc == before + [Fragment(OpenFolder(mtype))];
    AddMissionPlacemarks(kmlmap, operations);
    kmlmap.CloseFolder();
    AppendAround(before, Fragment(OpenFolder(mtype)), Fragments(MissionCalls(operations)), FolderClosing);
    TypeFragments(t);
  }

  /** The inner loop: one placemark per mission, in table order. */
  method AddMissionPlacemarks(kmlmap: KmlOutputParser, operations: seq<Mission>)
    modifies kmlmap
    ensures kmlmap.kmldoc == old(kmlmap.kmldoc) + Fragments(MissionCalls(operations))
    ensures kmlmap.depth == old(kmlmap.depth) + Depth(MissionCalls(operations))
  {
    TakeAll(operations);
    for j := 0 to |operations|
      invariant kmlmap.kmldoc == old(kmlmap.kmldoc) + Fragments(MissionCalls(operations[..j]))
      invariant kmlmap.depth == old(kmlmap.depth) + Depth(MissionCalls(operations[..j]))
    {
      AddMission(kmlmap, operations[j]);
      MissionFragmentsStep(operations, j);
      AppendAssoc(old(kmlmap.kmldoc), Fragments(MissionCalls(operations[..j])), [Fragment(MissionCall(operations[j]))]);
    }
  }

  /** The body of the loop over missions: one placemark, named after the
      aircraft and its callsign when there is one, dated by the mission. */
  method AddMission(kmlmap: KmlOutputParser, operation: Mission)
    modifies kmlmap
    ensures kmlmap.kmldoc == old(kmlmap.kmldoc) + [Fragment(MissionCall(operation))]
    ensures kmlmap.depth == old(kmlmap.depth)
  {
    var desc := KmlDescription.FormatKmlPlacemarkDescription(operation.record);
    var pointname;
    if operation.callsign.Some? {
      pointname := operation.validAircraftRoot + "  " + operation.callsign.value;
    } else {
      pointname := operation.validAircraftRoot;
    }
    kmlmap.AddKmlPlacemark(pointname, desc, operation.lon, operation.lat, altitude := "0", timestamp := operation.msndate);
  }
}
