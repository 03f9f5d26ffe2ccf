/** The streaming handler of the schema validator: it follows the reader's
    events with the two path stacks of `PathTracker` and copies the parts of
    the document that lie under configured paths into per-report outputs. A
    report's output is modelled as the sequence of writer calls it receives
    (the pretty-printed text is left to the JSON writer). */
module SchemaValidator {
  import opened Wrappers
  import opened ObjectPaths
  import opened PathTracker
  import opened Strings

  /** One call on a report's JSON writer. */
  datatype Token =
    | StartObj
    | EndObj
    | StartArr
    | EndArr
    | KeyName(name: string)
    | Value(v: Scalar)

  /** A report: the file it is written to and the path whose contents it
      collects. */
  datatype ItemReporter = ItemReporter(fileName: string, path: seq<string>)

  const ProviderReferencePath: seq<string> := ["provider_references", ArrayMarker, "location"]
  const TocInNetworkPath: seq<string> := ["reporting_structure", ArrayMarker, "in_network_files"]
  const TocAllowedAmountPath: seq<string> := ["reporting_structure", ArrayMarker, "allowed_amount_file"]
  const AdditionalInfoPath: seq<string> :=
    ["in_network", ArrayMarker, "negotiated_rates", ArrayMarker, "negotiated_prices", ArrayMarker, "additional_information"]
  const NegotiatedTypePath: seq<string> :=
    ["in_network", ArrayMarker, "negotiated_rates", ArrayMarker, "negotiated_prices", ArrayMarker, "negotiated_type"]
  const InNetworkProviderGroupsPath: seq<string> :=
    ["in_network", ArrayMarker, "negotiated_rates", ArrayMarker, "provider_groups"]
  const LastUpdatedPath: seq<string> := ["last_updated_on"]

  /** The reports configured for a schema name, in the order they are tried;
      an unknown schema has none. Every path is non-empty and names a member
      (never ends with the array marker), so each can be armed by a key. */
  function ReportsFor(schemaName: string): (r: seq<ItemReporter>)
    ensures forall i :: 0 <= i < |r| ==> 0 < |r[i].path| && r[i].path[|r[i].path| - 1] != ArrayMarker
    ensures schemaName !in {"in-network-rates", "allowed-amounts", "table-of-contents"} ==> r == []
    ensures schemaName == "allowed-amounts" ==> r == [ItemReporter("lastUpdated.json", LastUpdatedPath)]
  {
    if schemaName == "in-network-rates" then
      [ ItemReporter("additionalInfo.json", AdditionalInfoPath),
        ItemReporter("negotiatedType.json", NegotiatedTypePath),
        ItemReporter("providerGroups.json", InNetworkProviderGroupsPath),
        ItemReporter("providerReferences.json", ProviderReferencePath),
        ItemReporter("lastUpdated.json", LastUpdatedPath) ]
    else if schemaName == "allowed-amounts" then
      [ItemReporter("lastUpdated.json", LastUpdatedPath)]
    else if schemaName == "table-of-contents" then
      [ ItemReporter("allowedAmountFiles.json", TocAllowedAmountPath),
        ItemReporter("inNetworkFiles.json", TocInNetworkPath) ]
    else []
  }

  /** A report may be armed by the key just read: its path names a member and
      the location followed by the key is on the way to it. */
  predicate Armable(report: ItemReporter, objectPath: seq<string>, key: string)
    requires 0 < |report.path|
  {
    report.path[|report.path| - 1] != ArrayMarker && AlmostThere(objectPath, key, report.path)
  }

  predicate PathsOk(reports: seq<ItemReporter>)
  {
    forall i :: 0 <= i < |reports| ==> 0 < |reports[i].path|
  }

  /** The first report, in configuration order, that the key arms. */
  function FirstArmable(reports: seq<ItemReporter>, objectPath: seq<string>, key: string): (r: Option<nat>)
    requires PathsOk(reports)
    ensures r.Some? ==> r.value < |reports| && Armable(reports[r.value], objectPath, key)
    ensures r.Some? ==> forall j :: 0 <= j < r.value ==> !Armable(reports[j], objectPath, key)
    ensures r.None? ==> forall j :: 0 <= j < |reports| ==> !Armable(reports[j], objectPath, key)
  {
    if reports == [] then None
    else if Armable(reports[0], objectPath, key) then Some(0)
    else match FirstArmable(reports[1..], objectPath, key)
      case None => None
      case Some(i) => Some(i + 1)
  }
  /** The first armable report is the only one with nothing armable before
      it; no report is armable exactly when none is found. */
  lemma FirstArmableIsFirst(reports: seq<ItemReporter>, objectPath: seq<string>, key: string, r: Option<nat>)
    requires PathsOk(reports)
    requires r.Some? ==> r.value < |reports| && Armable(reports[r.value], objectPath, key)
    requires r.Some? ==> forall j :: 0 <= j < r.value ==> !Armable(reports[j], objectPath, key)
    requires r.None? ==> forall j :: 0 <= j < |reports| ==> !Armable(reports[j], objectPath, key)
    ensures FirstArmable(reports, objectPath, key) == r
  {
  }


  /** The outputs after a writer call: only the armed report's output grows,
      by exactly that call. */
  function Emitted(sinks: seq<seq<Token>>, current: Option<nat>, t: Token): (r: seq<seq<Token>>)
    requires current.Some? ==> current.value < |sinks|
    ensures |r| == |sinks|
    ensures forall i :: 0 <= i < |sinks| ==> r[i] == if current == Some(i) then sinks[i] + [t] else sinks[i]
    ensures current.None? ==> r == sinks
  {
    if current.Some? then sinks[current.value := sinks[current.value] + [t]] else sinks
  }

  /** The armed report after a location change: kept while the location is
      still on the way to its path, otherwise none. */
  function Rechecked(reports: seq<ItemReporter>, current: Option<nat>, objectPath: seq<string>, key: string)
    : (r: Option<nat>)
    requires current.Some? ==> current.value < |reports|
    ensures r.Some? ==> r == current && AlmostThere(objectPath, key, reports[r.value].path)
    ensures r.None? ==> current.None? || !AlmostThere(objectPath, key, reports[current.value].path)
  {
    if current.Some? && AlmostThere(objectPath, key, reports[current.value].path) then current else None
  }

  /** Opening an object under the pending key keeps an armed report armed. */
  lemma StartObjectKeepsOnTheWay(objectPath: seq<string>, lastKey: string, target: seq<string>)
    requires AlmostThere(objectPath, lastKey, target)
    ensures AlmostThere(objectPath + [lastKey], lastKey, target)
  {
    var p := objectPath + [lastKey];
    if |target| == |objectPath| + 1 {
      assert p == target;
      assert p[..|target|] == target;
    } else {
      assert p[..|target|] == objectPath[..|target|];
    }
  }

  /** Opening an array under the pending key keeps an armed report armed. */
  lemma StartArrayKeepsOnTheWay(objectPath: seq<string>, lastKey: string, target: seq<string>)
    requires AlmostThere(objectPath, lastKey, target)
    ensures AlmostThere(objectPath + [lastKey, ArrayMarker], "", target)
  {
    var p := objectPath + [lastKey, ArrayMarker];
    if |target| == |objectPath| + 1 {
      assert p[..|target|] == objectPath + [lastKey] == target;
    } else {
      assert p[..|target|] == objectPath[..|target|];
    }
  }

  class MessageHandler {
    const schemaName: string
    const reports: seq<ItemReporter>
    var objectPath: seq<string>
    var objectPathWithArrayIndices: seq<Frame>
    var lastKey: string
    /** The armed report, as an index into `reports`. */
    var current: Option<nat>
    /** What each report has been sent so far, in the order of `reports`. */
    var sinks: seq<seq<Token>>

    function Loc(): Location
      reads this
    {
      Location(objectPath, objectPathWithArrayIndices, lastKey)
    }

    /** The stacks are in step, every report has an output and a non-empty
        path, and the armed report's path is on the way to the location. */
    predicate Valid()
      reads this
    {
      PathTracker.Valid(Loc())
      && PathsOk(reports)
      && |sinks| == |reports|
      && (current.Some? ==> current.value < |reports| && AlmostThere(objectPath, lastKey, reports[current.value].path))
    }

    /** Each report's output starts as an open object; nothing is armed. */
    constructor(name: string)
      ensures Valid()
      ensures schemaName == name && reports == ReportsFor(name)
      ensures Loc() == Start && current == None
      ensures sinks == seq(|reports|, i => [StartObj])
    {
      schemaName := name;
      reports := ReportsFor(name);
      objectPath := [];
      objectPathWithArrayIndices := [];
      lastKey := "";
      current := None;
      sinks := seq(|ReportsFor(name)|, i => [StartObj]);
    }

    /** A member name. A report that stays on its path receives the bare
        key; otherwise it is disarmed and the first report the key arms
        receives the full location with indices, such as
        `provider_references.0.location`. */
    method Key(k: string)
      modifies this
      requires Valid()
      ensures Valid()
      ensures Loc() == OnKey(old(Loc()), k)
      ensures old(current).Some? && AlmostThere(objectPath, k, reports[old(current).value].path) ==>
                current == old(current) && sinks == Emitted(old(sinks), current, KeyName(k))
      ensures !(old(current).Some? && AlmostThere(objectPath, k, reports[old(current).value].path)) ==>
                current == FirstArmable(reports, objectPath, k)
                && sinks == Emitted(old(sinks), current, KeyName(IndexedPathToString(objectPathWithArrayIndices, k)))
    {
      lastKey := k;
      if current.Some? {
        if AlmostThere(objectPath, lastKey, reports[current.value].path) {
          sinks := Emitted(sinks, current, KeyName(lastKey));
        } else {
          current := None;
        }
      }
      if current.None? {
        var i := 0;
        while i < |reports|
          invariant 0 <= i <= |reports|
          invariant current.None? && sinks == old(sinks)
          invariant forall j :: 0 <= j < i ==> !Armable(reports[j], objectPath, lastKey)
        {
          if Armable(reports[i], objectPath, lastKey) {
            FirstArmableIsFirst(reports, objectPath, lastKey, Some(i));
            current := Some(i);
            sinks := Emitted(sinks, current, KeyName(IndexedPathToString(objectPathWithArrayIndices, lastKey)));
            break;
          }
          i := i + 1;
        }
        if current.None? {
          FirstArmableIsFirst(reports, objectPath, lastKey, None);
        }
      }
    }

    /** Forwards a writer call to the armed report, then disarms it if the
        location has left its path. */
    method EmitAndRecheck(t: Token)
      modifies this
      requires PathTracker.Valid(Loc()) && PathsOk(reports) && |sinks| == |reports|
      requires current.Some? ==> current.value < |reports|
      ensures Valid()
      ensures Loc() == old(Loc())
      ensures sinks == Emitted(old(sinks), old(current), t)
      ensures current == Rechecked(reports, old(current), objectPath, lastKey)
    {
      sinks := Emitted(sinks, current, t);
      current := Rechecked(reports, current, objectPath, lastKey);
    }

    /** Any scalar (null, boolean, number or string). */
    method Scalar(v: PathTracker.Scalar)
      modifies this
      requires Valid()
      ensures Valid()
      ensures Loc() == OnScalar(old(Loc()))
      ensures sinks == Emitted(old(sinks), old(current), Value(v))
      ensures current == Rechecked(reports, old(current), objectPath, lastKey)
    {
      var l := OnScalar(Loc());
      objectPathWithArrayIndices := l.indexed;
      lastKey := l.lastKey;
      EmitAndRecheck(Value(v));
    }

    method StartObject()
      modifies this
      requires Valid()
      ensures Valid()
      ensures Loc() == OnStartObject(old(Loc()))
      ensures current == old(current) && sinks == Emitted(old(sinks), current, StartObj)
    {
      if |lastKey| > 0 {
        if current.Some? {
          StartObjectKeepsOnTheWay(objectPath, lastKey, reports[current.value].path);
        }
        objectPath := objectPath + [lastKey];
        objectPathWithArrayIndices := objectPathWithArrayIndices + [(lastKey, -1)];
      }
      sinks := Emitted(sinks, current, StartObj);
    }

    method EndObject()
      modifies this
      requires Valid()
      ensures Valid()
      ensures Loc() == OnEndObject(old(Loc()))
      ensures sinks == Emitted(old(sinks), old(current), EndObj)
      ensures current == Rechecked(reports, old(current), objectPath, lastKey)
    {
      var n := |objectPath|;
      if n > 0 && objectPath[n - 1] != ArrayMarker {
        objectPath := objectPath[..n - 1];
        objectPathWithArrayIndices := objectPathWithArrayIndices[..n - 1];
      } else if n > 0 && objectPath[n - 1] == ArrayMarker {
        objectPathWithArrayIndices := Bump(objectPathWithArrayIndices);
      }
      lastKey := "";
      EmitAndRecheck(EndObj);
    }

    method StartArray()
      modifies this
      requires Valid()
      ensures Valid()
      ensures Loc() == OnStartArray(old(Loc()))
      ensures current == old(current) && sinks == Emitted(old(sinks), current, StartArr)
    {
      if current.Some? {
        StartArrayKeepsOnTheWay(objectPath, lastKey, reports[current.value].path);
      }
      objectPath := objectPath + [lastKey, ArrayMarker];
      objectPathWithArrayIndices := objectPathWithArrayIndices + [(lastKey, -1), (ArrayMarker, 0)];
      lastKey := "";
      sinks := Emitted(sinks, current, StartArr);
    }

    method EndArray()
      modifies this
      requires Valid() && 2 <= |objectPath|
      ensures Valid()
      ensures Loc() == OnEndArray(old(Loc()))
      ensures sinks == Emitted(old(sinks), old(current), EndArr)
      ensures current == Rechecked(reports, old(current), objectPath, lastKey)
    {
      var n := |objectPath|;
      objectPath := objectPath[..n - 2];
      objectPathWithArrayIndices := objectPathWithArrayIndices[..n - 2];
      lastKey := "";
      EmitAndRecheck(EndArr);
    }

    /** Closes the open object of every report's output. */
    method CleanupWriter()
      modifies this
      requires Valid()
      ensures Valid()
      ensures Loc() == old(Loc()) && current == old(current)
      ensures |sinks| == |old(sinks)|
      ensures forall i :: 0 <= i < |sinks| ==> sinks[i] == old(sinks)[i] + [EndObj]
    {
      var i := 0;
      while i < |sinks|
        invariant 0 <= i <= |sinks| == |old(sinks)|
        invariant Valid() && Loc() == old(Loc()) && current == old(current)
        invariant forall j :: 0 <= j < i ==> sinks[j] == old(sinks)[j] + [EndObj]
        invariant forall j :: i <= j < |sinks| ==> sinks[j] == old(sinks)[j]
      {
        sinks := sinks[i := sinks[i] + [EndObj]];
        i := i + 1;
      }
    }
  }

  lemma InNetworkArming()
    ensures FirstArmable(ReportsFor("in-network-rates"), [], "provider_references") == None
    ensures FirstArmable(ReportsFor("in-network-rates"), ["provider_references", ArrayMarker], "location") == Some(3)
  {
    var rs := ReportsFor("in-network-rates");
    var op := ["provider_references", ArrayMarker];
    assert !AlmostThere([], "provider_references", rs[4].path);
    MismatchRejects(op, "location", rs[0].path, 0);
    MismatchRejects(op, "location", rs[1].path, 0);
    MismatchRejects(op, "location", rs[2].path, 0);
    assert OnTheWay(op, "location", rs[3].path);
  }

  /** The key a provider reference's location is reported under names the
      element's index. */
  lemma ProviderReferenceKey(index: int)
    requires 0 <= index
    ensures IndexedPathToString([("provider_references", -1), (ArrayMarker, index)], "location")
            == "provider_references." + IntToDecimal(index) + ".location"
  {
    var name := "provider_references";
    var digits := IntToDecimal(index);
    var p := [(name, -1), (ArrayMarker, index)];
    IndexedPathIsDottedJoin(p, "location");
    assert FramePieces(p) + ["location"] == [name, digits, "location"];
    assert [name, digits, "location"][1..] == [digits, "location"];
    assert [digits, "location"][1..] == ["location"];
    assert JoinWith([digits, "location"], ".") == digits + "." + "location";
    assert name + "." + (digits + "." + "location") == name + "." + digits + ".location";
  }

  /** One element `{"location": v}` of the provider-references array, read
      while nothing is armed: the report is armed by the key, receives the
      indexed key and the value, and is disarmed again; the index advances. */
  method ReadLocationElement(h: MessageHandler, v: string, index: int)
    modifies h
    requires 0 <= index && h.Valid() && h.reports == ReportsFor("in-network-rates") && h.current == None
    requires h.Loc() == Location(["provider_references", ArrayMarker],
                                 [("provider_references", -1), (ArrayMarker, index)], "")
    ensures h.Valid() && h.current == None
    ensures h.Loc() == Location(["provider_references", ArrayMarker],
                                [("provider_references", -1), (ArrayMarker, index + 1)], "")
    ensures h.sinks == old(h.sinks)[3 := old(h.sinks)[3]
                         + [KeyName(IndexedPathToString(old(h.objectPathWithArrayIndices), "location")),
                            Value(SString(v))]]
  {
    var s0 := h.sinks;
    var key := KeyName(IndexedPathToString(h.objectPathWithArrayIndices, "location"));
    ReadLocationKey(h, index);
    ReadLocationValue(h, v, index);
    assert s0[3] + [key] + [Value(SString(v))] == s0[3] + [key, Value(SString(v))];
  }

  /** The element's opening brace and its key: the key arms the
      provider-references report, which receives the key with the element's
      index in it. */
  method ReadLocationKey(h: MessageHandler, index: int)
    modifies h
    requires 0 <= index && h.Valid() && h.reports == ReportsFor("in-network-rates") && h.current == None
    requires h.Loc() == Location(["provider_references", ArrayMarker],
                                 [("provider_references", -1), (ArrayMarker, index)], "")
    ensures h.Valid() && h.current == Some(3)
    ensures h.Loc() == Location(["provider_references", ArrayMarker],
                                [("provider_references", -1), (ArrayMarker, index)], "location")
    ensures h.sinks == old(h.sinks)[3 := old(h.sinks)[3]
                         + [KeyName(IndexedPathToString(old(h.objectPathWithArrayIndices), "location"))]]
  {
    var s0 := h.sinks;
    InNetworkArming();
    h.StartObject();
    assert h.sinks == s0;
    h.Key("location");
  }

  /** The element's value and closing brace: the value goes to the armed
      report, which is disarmed straight after; closing the element advances
      the index. */
  method ReadLocationValue(h: MessageHandler, v: string, index: int)
    modifies h
    requires 0 <= index && h.Valid() && h.reports == ReportsFor("in-network-rates") && h.current == Some(3)
    requires h.Loc() == Location(["provider_references", ArrayMarker],
                                 [("provider_references", -1), (ArrayMarker, index)], "location")
    ensures h.Valid() && h.current == None
    ensures h.Loc() == Location(["provider_references", ArrayMarker],
                                [("provider_references", -1), (ArrayMarker, index + 1)], "")
    ensures h.sinks == old(h.sinks)[3 := old(h.sinks)[3] + [Value(SString(v))]]
  {
    var op := ["provider_references", ArrayMarker];
    h.Scalar(SString(v));
    assert !AlmostThere(op, "", ProviderReferencePath);
    h.EndObject();
    assert h.objectPathWithArrayIndices[..1] == [("provider_references", -1)];
  }

  /** The handler for in-network rates after `{"provider_references": [`:
      inside the array, nothing armed and nothing reported. */
  method OpenProviderReferences() returns (h: MessageHandler)
    ensures fresh(h) && h.Valid() && h.reports == ReportsFor("in-network-rates") && h.current == None
    ensures h.Loc() == Location(["provider_references", ArrayMarker],
                                [("provider_references", -1), (ArrayMarker, 0)], "")
    ensures h.sinks == seq(5, i => [StartObj])
  {
    InNetworkArming();
    h := new MessageHandler("in-network-rates");
    var s0 := h.sinks;
    h.StartObject();
    h.Key("provider_references");
    assert h.current == None && h.sinks == s0;
    h.StartArray();
    assert h.objectPath == ["provider_references", ArrayMarker];
    assert h.objectPathWithArrayIndices == [("provider_references", -1), (ArrayMarker, 0)];
  }

  /** `{"provider_references": [{"location": "x"}, {"location": "y"}]}`
      validated as in-network rates: only the provider-references report
      receives anything, namely each location under its indexed path. */
  method ProviderReferencesReport() returns (out: seq<seq<Token>>)
    ensures out == [ [StartObj, EndObj], [StartObj, EndObj], [StartObj, EndObj],
                     [ StartObj,
                       KeyName("provider_references.0.location"), Value(SString("x")),
                       KeyName("provider_references.1.location"), Value(SString("y")),
                       EndObj ],
                     [StartObj, EndObj] ]
  {
    ProviderReferenceKey(0);
    ProviderReferenceKey(1);
    assert IntToDecimal(0) == "0" && IntToDecimal(1) == "1";
    assert "provider_references." + "0" + ".location" == "provider_references.0.location";
    assert "provider_references." + "1" + ".location" == "provider_references.1.location";
    var h := OpenProviderReferences();
    var s0 := h.sinks;
    assert s0[3] == [StartObj];
    assert h.objectPathWithArrayIndices == [("provider_references", -1), (ArrayMarker, 0)];
    ReadLocationElement(h, "x", 0);
    var s1 := h.sinks;
    assert s1[3] == [StartObj, KeyName("provider_references.0.location"), Value(SString("x"))];
    assert h.objectPathWithArrayIndices == [("provider_references", -1), (ArrayMarker, 1)];
    ReadLocationElement(h, "y", 1);
    var middle := h.sinks;
    var reported := [StartObj, KeyName("provider_references.0.location"), Value(SString("x")),
                     KeyName("provider_references.1.location"), Value(SString("y"))];
    assert middle[3] == reported;
    assert reported + [EndObj] == [StartObj, KeyName("provider_references.0.location"), Value(SString("x")),
                                   KeyName("provider_references.1.location"), Value(SString("y")), EndObj];
    assert middle[0] == middle[1] == middle[2] == middle[4] == [StartObj];
    CloseProviderReferences(h);
    out := h.sinks;
    assert |out| == 5;
    assert out[3] == reported + [EndObj];
    assert out[0] == out[1] == out[2] == out[4] == [StartObj, EndObj];
    assert out == [out[0], out[1], out[2], out[3], out[4]];
  }

  /** `]}` and the end of the document with nothing armed: every report is
      closed and receives nothing else. */
  method CloseProviderReferences(h: MessageHandler)
    modifies h
    requires h.Valid() && h.reports == ReportsFor("in-network-rates") && h.current == None
    requires h.objectPath == ["provider_references", ArrayMarker]
    ensures |h.sinks| == |old(h.sinks)|
    ensures forall i :: 0 <= i < |h.sinks| ==> h.sinks[i] == old(h.sinks)[i] + [EndObj]
  {
    h.EndArray();
    h.EndObject();
    h.CleanupWriter();
  }

  /** `{"last_updated_on": "2022-01-01"}` validated as allowed amounts: the
      top-level member is reported under its bare name. */
  method LastUpdatedReport() returns (out: seq<seq<Token>>)
    ensures out == [[StartObj, KeyName("last_updated_on"), Value(SString("2022-01-01")), EndObj]]
  {
    var h := new MessageHandler("allowed-amounts");
    h.StartObject();
    h.Key("last_updated_on");
    assert h.current == Some(0);
    assert |h.sinks| == 1 && h.sinks[0] == [StartObj, KeyName("last_updated_on")];
    h.Scalar(SString("2022-01-01"));
    assert h.current == None;
    h.EndObject();
    assert |h.sinks| == 1 && h.sinks[0] == [StartObj, KeyName("last_updated_on"), Value(SString("2022-01-01"))];
    h.CleanupWriter();
    out := h.sinks;
    assert out[0] == [StartObj, KeyName("last_updated_on"), Value(SString("2022-01-01")), EndObj];
  }
}
