/** The location the streaming handler keeps while the reader delivers
    events: the stack of names (`objectPath`), the stack of indexed frames
    (`objectPathWithArrayIndices`) and the pending key (`lastKey`), with the
    change each event makes to them. The handler class applies exactly these
    transitions; here they are values, so that whole event sequences can be
    reasoned about. */
module PathTracker {
  import opened Wrappers
  import opened ObjectPaths

  /** A scalar delivered by the reader. The four integer callbacks (int,
      unsigned, 64-bit and unsigned 64-bit) behave alike and are one case. */
  datatype Scalar = SNull | SBool(b: bool) | SInt(i: int) | SDouble(bits: bv64) | SString(s: string)

  /** One reader event. */
  datatype Event =
    | KeyEvent(key: string)
    | ScalarEvent(value: Scalar)
    | StartObjectEvent
    | EndObjectEvent
    | StartArrayEvent
    | EndArrayEvent

  datatype Location = Location(objectPath: seq<string>, indexed: seq<Frame>, lastKey: string)

  /** The two stacks have the same length and the same names. */
  predicate Synced(l: Location)
  {
    |l.objectPath| == |l.indexed|
    && forall i :: 0 <= i < |l.indexed| ==> l.indexed[i].0 == l.objectPath[i]
  }

  /** Frames named by a key carry -1; array-marker frames count from 0 (or
      from -1 when a member is itself called "[]"). */
  predicate IndicesOk(l: Location)
  {
    forall i :: 0 <= i < |l.indexed| ==>
      -1 <= l.indexed[i].1 && (l.indexed[i].0 != ArrayMarker ==> l.indexed[i].1 == -1)
  }

  predicate Valid(l: Location) { Synced(l) && IndicesOk(l) }

  const Start: Location := Location([], [], "")

  /** The innermost frame is an array marker. */
  predicate InArray(l: Location)
  {
    0 < |l.objectPath| && l.objectPath[|l.objectPath| - 1] == ArrayMarker
  }

  /** One more element seen in the innermost array. */
  function Bump(frames: seq<Frame>): (r: seq<Frame>)
    requires 0 < |frames|
    ensures |r| == |frames| && r[..|r| - 1] == frames[..|frames| - 1]
    ensures r[|r| - 1] == (frames[|frames| - 1].0, frames[|frames| - 1].1 + 1)
  {
    frames[..|frames| - 1] + [(frames[|frames| - 1].0, frames[|frames| - 1].1 + 1)]
  }

  /** A key only becomes the pending key. */
  function OnKey(l: Location, key: string): (r: Location)
    requires Valid(l)
    ensures Valid(r) && r.lastKey == key
  {
    l.(lastKey := key)
  }

  /** A scalar counts as an element only when it sits directly in an array
      (no pending key); the pending key is cleared. */
  function OnScalar(l: Location): (r: Location)
    requires Valid(l)
    ensures Valid(r) && r.lastKey == "" && r.objectPath == l.objectPath
    ensures InArray(l) && l.lastKey == "" ==> r.indexed == Bump(l.indexed)
    ensures !(InArray(l) && l.lastKey == "") ==> r.indexed == l.indexed
  {
    var frames := if InArray(l) && l.lastKey == "" then Bump(l.indexed) else l.indexed;
    Location(l.objectPath, frames, "")
  }

  /** An object opened under a non-empty key pushes a frame for that key; the
      pending key is NOT cleared. */
  function OnStartObject(l: Location): (r: Location)
    requires Valid(l)
    ensures Valid(r) && r.lastKey == l.lastKey
    ensures l.lastKey != "" ==> r.objectPath == l.objectPath + [l.lastKey]
                                && r.indexed == l.indexed + [(l.lastKey, -1)]
    ensures l.lastKey == "" ==> r == l
  {
    if |l.lastKey| > 0 then Location(l.objectPath + [l.lastKey], l.indexed + [(l.lastKey, -1)], l.lastKey)
    else l
  }

  /** Closing an object pops a named frame, or, inside an array, counts the
      object as an element instead; the pending key is cleared. */
  function OnEndObject(l: Location): (r: Location)
    requires Valid(l)
    ensures Valid(r) && r.lastKey == ""
    ensures InArray(l) ==> r.objectPath == l.objectPath && r.indexed == Bump(l.indexed)
    ensures !InArray(l) && 0 < |l.objectPath| ==>
              r.objectPath == l.objectPath[..|l.objectPath| - 1] && r.indexed == l.indexed[..|l.indexed| - 1]
    ensures l.objectPath == [] ==> r == l.(lastKey := "")
  {
    var n := |l.objectPath|;
    if n > 0 && l.objectPath[n - 1] != ArrayMarker then
      Location(l.objectPath[..n - 1], l.indexed[..n - 1], "")
    else if n > 0 then
      Location(l.objectPath, Bump(l.indexed), "")
    else
      l.(lastKey := "")
  }

  /** Opening an array pushes a frame for the pending key (possibly empty)
      and an array-marker frame starting at 0; the pending key is cleared. */
  function OnStartArray(l: Location): (r: Location)
    requires Valid(l)
    ensures Valid(r) && r.lastKey == "" && InArray(r)
    ensures r.objectPath == l.objectPath + [l.lastKey, ArrayMarker]
    ensures r.indexed == l.indexed + [(l.lastKey, -1), (ArrayMarker, 0)]
  {
    Location(l.objectPath + [l.lastKey, ArrayMarker], l.indexed + [(l.lastKey, -1), (ArrayMarker, 0)], "")
  }

  /** Closing an array pops two frames and does not count the array as an
      element of an enclosing array; the pending key is cleared. */
  function OnEndArray(l: Location): (r: Location)
    requires Valid(l) && 2 <= |l.objectPath|
    ensures Valid(r) && r.lastKey == ""
    ensures r.objectPath == l.objectPath[..|l.objectPath| - 2] && r.indexed == l.indexed[..|l.indexed| - 2]
  {
    var n := |l.objectPath|;
    Location(l.objectPath[..n - 2], l.indexed[..n - 2], "")
  }

  /** An array closed right after it was opened leaves both stacks as they
      were. */
  lemma EndArrayUndoesStartArray(l: Location)
    requires Valid(l)
    ensures OnEndArray(OnStartArray(l)) == l.(lastKey := "")
  {
    var m := OnStartArray(l);
    assert m.objectPath[..|m.objectPath| - 2] == l.objectPath;
    assert m.indexed[..|m.indexed| - 2] == l.indexed;
  }

  // ---------------------------------------------------------------------
  // Event sequences
  // ---------------------------------------------------------------------

  /** One event; `None` when an array close finds fewer than two frames
      (a broken stack, which the reader never causes for a well-formed
      document). */
  function Apply(l: Location, e: Event): (r: Option<Location>)
    requires Valid(l)
    ensures r.Some? ==> Valid(r.value)
    ensures r.None? <==> e.EndArrayEvent? && |l.objectPath| < 2
  {
    match e
    case KeyEvent(k) => Some(OnKey(l, k))
    case ScalarEvent(_) => Some(OnScalar(l))
    case StartObjectEvent => Some(OnStartObject(l))
    case EndObjectEvent => Some(OnEndObject(l))
    case StartArrayEvent => Some(OnStartArray(l))
    case EndArrayEvent => if |l.objectPath| < 2 then None else Some(OnEndArray(l))
  }

  function Run(l: Location, es: seq<Event>): (r: Option<Location>)
    requires Valid(l)
    ensures r.Some? ==> Valid(r.value)
    decreases |es|
  {
    if es == [] then Some(l)
    else match Apply(l, es[0])
      case None => None
      case Some(m) => Run(m, es[1..])
  }

  /** Running two sequences one after the other is running their
      concatenation. */
  lemma {:induction false} RunAppend(l: Location, a: seq<Event>, b: seq<Event>)
    requires Valid(l)
    ensures Run(l, a + b) == match Run(l, a) case None => None case Some(m) => Run(m, b)
    decreases |a|
  {
    if a == [] {
      assert a + b == b;
    } else {
      assert (a + b)[0] == a[0];
      assert (a + b)[1..] == a[1..] + b;
      match Apply(l, a[0])
      case None =>
      case Some(m) => RunAppend(m, a[1..], b);
    }
  }

  // ---------------------------------------------------------------------
  // Documents and the events the reader delivers for them
  // ---------------------------------------------------------------------

  datatype Doc = Atom(v: Scalar) | Obj(fields: seq<Field>) | Arr(items: seq<Doc>)
  datatype Field = Field(key: string, value: Doc)

  function Events(d: Doc): seq<Event>
  {
    match d
    case Atom(v) => [ScalarEvent(v)]
    case Obj(fs) => [StartObjectEvent] + FieldsEvents(fs) + [EndObjectEvent]
    case Arr(items) => [StartArrayEvent] + ItemsEvents(items) + [EndArrayEvent]
  }

  function FieldsEvents(fs: seq<Field>): seq<Event>
  {
    if fs == [] then [] else [KeyEvent(fs[0].key)] + Events(fs[0].value) + FieldsEvents(fs[1..])
  }

  function ItemsEvents(items: seq<Doc>): seq<Event>
  {
    if items == [] then [] else Events(items[0]) + ItemsEvents(items[1..])
  }

  /** No member is called "" or "[]": the two names for which opening and
      closing a member object do not pair up. */
  predicate GoodKeys(d: Doc)
  {
    match d
    case Atom(_) => true
    case Obj(fs) => GoodFields(fs)
    case Arr(items) => GoodItems(items)
  }

  predicate GoodFields(fs: seq<Field>)
  {
    fs == [] || (fs[0].key != "" && fs[0].key != ArrayMarker && GoodKeys(fs[0].value) && GoodFields(fs[1..]))
  }

  predicate GoodItems(items: seq<Doc>)
  {
    items == [] || (GoodKeys(items[0]) && GoodItems(items[1..]))
  }

  /** Number of items that count as array elements: every item except a
      nested array (closing an array does not advance the enclosing index). */
  function Counted(items: seq<Doc>): nat
  {
    if items == [] then 0 else (if items[0].Arr? then 0 else 1) + Counted(items[1..])
  }

  /** The innermost frame's index advanced by `n`. */
  function BumpBy(frames: seq<Frame>, n: nat): (r: seq<Frame>)
    requires 0 < |frames|
    ensures |r| == |frames|
  {
    frames[..|frames| - 1] + [(frames[|frames| - 1].0, frames[|frames| - 1].1 + n)]
  }

  /** Advancing by one and then by `n` is advancing by `1 + n`; advancing
      by nothing changes nothing. */
  lemma BumpByAdds(frames: seq<Frame>, first: nat, n: nat)
    requires 0 < |frames|
    ensures first == 1 ==> Bump(frames) == BumpBy(frames, first)
    ensures BumpBy(frames, 0) == frames
    ensures BumpBy(BumpBy(frames, first), n) == BumpBy(frames, first + n)
  {
    var k := |frames| - 1;
    assert BumpBy(frames, first)[..k] == frames[..k];
    assert frames[..k] + [frames[k]] == frames;
  }

  /** A member (its key, then its value) leaves both stacks as they were and
      clears the pending key. */
  lemma {:induction false} FieldKeepsStacks(l: Location, k: string, v: Doc)
    requires Valid(l) && k != "" && k != ArrayMarker && GoodKeys(v)
    ensures Run(l, [KeyEvent(k)] + Events(v)) == Some(l.(lastKey := ""))
    decreases v, 3
  {
    RunAppend(l, [KeyEvent(k)], Events(v));
    assert Run(l, [KeyEvent(k)]) == Some(OnKey(l, k)) by {
      assert [KeyEvent(k)][1..] == [];
    }
    KeyedValue(OnKey(l, k), v);
  }

  /** A value read under a pending key that is neither "" nor "[]" leaves
      both stacks as they were and clears the pending key. */
  lemma {:induction false} KeyedValue(l: Location, v: Doc)
    requires Valid(l) && l.lastKey != "" && l.lastKey != ArrayMarker && GoodKeys(v)
    ensures Run(l, Events(v)) == Some(l.(lastKey := ""))
    decreases v, 2
  {
    match v
    case Atom(x) =>
      assert Run(l, Events(v)) == Some(OnScalar(l)) by { assert Events(v)[1..] == []; }
    case Obj(fs) => KeyedObject(l, fs);
    case Arr(items) => ArrayKeepsStacks(l, items);
  }

  /** An object under such a key pushes that key's frame, reads its members
      and pops the frame again. */
  lemma {:induction false} KeyedObject(l: Location, fs: seq<Field>)
    requires Valid(l) && l.lastKey != "" && l.lastKey != ArrayMarker && GoodFields(fs)
    ensures Run(l, Events(Obj(fs))) == Some(l.(lastKey := ""))
    decreases fs, 1
  {
    var l2 := OnStartObject(l);
    RunAppend(l, [StartObjectEvent] + FieldsEvents(fs), [EndObjectEvent]);
    RunAppend(l, [StartObjectEvent], FieldsEvents(fs));
    assert Run(l, [StartObjectEvent]) == Some(l2) by { assert [StartObjectEvent][1..] == []; }
    FieldsKeepStacks(l2, fs);
    var l3 := l2.(lastKey := if fs == [] then l2.lastKey else "");
    assert Run(l3, [EndObjectEvent]) == Some(OnEndObject(l3)) by { assert [EndObjectEvent][1..] == []; }
    assert l3.objectPath[..|l3.objectPath| - 1] == l.objectPath;
    assert l3.indexed[..|l3.indexed| - 1] == l.indexed;
    assert OnEndObject(l3) == l.(lastKey := "");
  }

  /** An array, whatever the pending key, pushes two frames, reads its items
      and pops both frames again: the location is as before with no pending
      key. */
  lemma {:induction false} ArrayKeepsStacks(l: Location, items: seq<Doc>)
    requires Valid(l) && GoodItems(items)
    ensures Run(l, Events(Arr(items))) == Some(l.(lastKey := ""))
    decreases items, 1
  {
    var l2 := OnStartArray(l);
    RunAppend(l, [StartArrayEvent] + ItemsEvents(items), [EndArrayEvent]);
    RunAppend(l, [StartArrayEvent], ItemsEvents(items));
    assert Run(l, [StartArrayEvent]) == Some(l2) by { assert [StartArrayEvent][1..] == []; }
    ItemsAdvanceIndex(l2, items);
    var l3 := l2.(indexed := BumpBy(l2.indexed, Counted(items)));
    assert Run(l3, [EndArrayEvent]) == Some(OnEndArray(l3)) by { assert [EndArrayEvent][1..] == []; }
    assert l3.objectPath[..|l3.objectPath| - 2] == l.objectPath;
    assert l3.indexed[..|l3.indexed| - 2] == l.indexed;
  }

  /** The members of an object leave both stacks as they were; the pending
      key is cleared unless there are no members at all. */
  lemma {:induction false} FieldsKeepStacks(l: Location, fs: seq<Field>)
    requires Valid(l) && GoodFields(fs)
    ensures Run(l, FieldsEvents(fs)) == Some(l.(lastKey := if fs == [] then l.lastKey else ""))
    decreases fs, 0
  {
    if fs != [] {
      var first := [KeyEvent(fs[0].key)] + Events(fs[0].value);
      assert FieldsEvents(fs) == first + FieldsEvents(fs[1..]);
      RunAppend(l, first, FieldsEvents(fs[1..]));
      FieldKeepsStacks(l, fs[0].key, fs[0].value);
      FieldsKeepStacks(l.(lastKey := ""), fs[1..]);
    }
  }

  /** The items of an array advance its index once per item that is not
      itself an array, and leave everything else as it was. */
  lemma {:induction false} ItemsAdvanceIndex(l: Location, items: seq<Doc>)
    requires Valid(l) && InArray(l) && l.lastKey == "" && GoodItems(items)
    ensures Run(l, ItemsEvents(items)) == Some(l.(indexed := BumpBy(l.indexed, Counted(items))))
    decreases items, 0
  {
    if items == [] {
      BumpByAdds(l.indexed, 0, 0);
      assert l.(indexed := l.indexed) == l;
    } else {
      var first := if items[0].Arr? then 0 else 1;
      var rest := Counted(items[1..]);
      var m := l.(indexed := BumpBy(l.indexed, first));
      BumpByAdds(l.indexed, first, rest);
      ElementEffect(l, items[0]);
      assert Run(l, Events(items[0])) == Some(m);
      assert ItemsEvents(items) == Events(items[0]) + ItemsEvents(items[1..]);
      RunAppend(l, Events(items[0]), ItemsEvents(items[1..]));
      ItemsAdvanceIndex(m, items[1..]);
      assert Counted(items) == first + rest;
      assert BumpBy(m.indexed, rest) == BumpBy(l.indexed, Counted(items));
    }
  }

  /** One array element: a scalar or an object advances the index, a nested
      array does not; both stacks are otherwise unchanged. */
  lemma {:induction false} ElementEffect(l: Location, d: Doc)
    requires Valid(l) && InArray(l) && l.lastKey == "" && GoodKeys(d)
    ensures Run(l, Events(d)) == Some(l.(indexed := if d.Arr? then l.indexed else Bump(l.indexed)))
    decreases d, 2
  {
    match d
    case Atom(x) =>
      assert Run(l, Events(d)) == Some(OnScalar(l)) by { assert Events(d)[1..] == []; }
    case Obj(fs) => ElementObject(l, fs);
    case Arr(items) => ArrayKeepsStacks(l, items);
  }

  /** An object read as an array element pushes nothing and, when closed,
      counts as one element. */
  lemma {:induction false} ElementObject(l: Location, fs: seq<Field>)
    requires Valid(l) && InArray(l) && l.lastKey == "" && GoodFields(fs)
    ensures Run(l, Events(Obj(fs))) == Some(l.(indexed := Bump(l.indexed)))
    decreases fs, 1
  {
    RunAppend(l, [StartObjectEvent] + FieldsEvents(fs), [EndObjectEvent]);
    RunAppend(l, [StartObjectEvent], FieldsEvents(fs));
    assert Run(l, [StartObjectEvent]) == Some(l) by { assert [StartObjectEvent][1..] == []; }
    FieldsKeepStacks(l, fs);
    assert l.(lastKey := if fs == [] then l.lastKey else "") == l;
    assert Run(l, [EndObjectEvent]) == Some(OnEndObject(l)) by { assert [EndObjectEvent][1..] == []; }
    assert OnEndObject(l) == l.(indexed := Bump(l.indexed));
  }

  /** A whole document whose member names are neither "" nor "[]" takes the
      handler from the empty location back to the empty location, and no
      array close ever finds its frames missing. */
  lemma DocumentReturnsToStart(d: Doc)
    requires GoodKeys(d)
    ensures Run(Start, Events(d)) == Some(Start)
  {
    match d
    case Atom(x) =>
      assert Events(d)[1..] == [];
    case Obj(fs) =>
      RunAppend(Start, [StartObjectEvent] + FieldsEvents(fs), [EndObjectEvent]);
      RunAppend(Start, [StartObjectEvent], FieldsEvents(fs));
      assert Run(Start, [StartObjectEvent]) == Some(Start) by { assert [StartObjectEvent][1..] == []; }
      FieldsKeepStacks(Start, fs);
      assert Run(Start, [EndObjectEvent]) == Some(Start) by { assert [EndObjectEvent][1..] == []; }
    case Arr(items) =>
      ArrayKeepsStacks(Start, items);
  }

  /** What an object under the empty key does: inside an array element
      `{"x": {"": {}}}` the frame for "x" is popped early and the element
      index advances twice for a single element. */
  lemma EmptyKeyObjectAdvancesIndexTwice()
    ensures
      var element := Obj([Field("x", Obj([Field("", Obj([]))]))]);
      Run(Start, [StartArrayEvent] + Events(element))
        == Some(Location(["", ArrayMarker], [("", -1), (ArrayMarker, 2)], ""))
  {
    var t1 := [StartObjectEvent, KeyEvent("x"), StartObjectEvent, KeyEvent(""),
               StartObjectEvent, EndObjectEvent, EndObjectEvent, EndObjectEvent];
    EmptyKeyElementEvents(t1);
    EmptyKeyElementRun(t1);
  }

  lemma EmptyKeyElementRun(t1: seq<Event>)
    requires t1 == [StartObjectEvent, KeyEvent("x"), StartObjectEvent, KeyEvent(""),
                    StartObjectEvent, EndObjectEvent, EndObjectEvent, EndObjectEvent]
    ensures Run(Start, [StartArrayEvent] + t1)
            == Some(Location(["", ArrayMarker], [("", -1), (ArrayMarker, 2)], ""))
  {
    var inArray := Location(["", ArrayMarker], [("", -1), (ArrayMarker, 0)], "");
    var done := Location(["", ArrayMarker], [("", -1), (ArrayMarker, 2)], "");
    var t3 := t1[2..];
    EmptyKeyInnerEvents(t3);
    var t2 := t1[1..];
    assert t2[1..] == t3;
    assert Run(inArray, t2) == Some(done);
    assert Run(inArray, t1) == Some(done);
    var t0 := [StartArrayEvent] + t1;
    assert t0[1..] == t1;
    assert OnStartArray(Start) == inArray;
  }

  lemma EmptyKeyElementEvents(t1: seq<Event>)
    requires t1 == [StartObjectEvent, KeyEvent("x"), StartObjectEvent, KeyEvent(""),
                    StartObjectEvent, EndObjectEvent, EndObjectEvent, EndObjectEvent]
    ensures Events(Obj([Field("x", Obj([Field("", Obj([]))]))])) == t1
  {
    var inner := Obj([Field("", Obj([]))]);
    assert Events(Obj([])) == [StartObjectEvent, EndObjectEvent];
    assert FieldsEvents([Field("", Obj([]))]) == [KeyEvent(""), StartObjectEvent, EndObjectEvent];
    assert Events(inner) == [StartObjectEvent, KeyEvent(""), StartObjectEvent, EndObjectEvent, EndObjectEvent];
  }

  lemma EmptyKeyInnerEvents(t3: seq<Event>)
    requires t3 == [StartObjectEvent, KeyEvent(""), StartObjectEvent, EndObjectEvent, EndObjectEvent, EndObjectEvent]
    ensures Run(Location(["", ArrayMarker], [("", -1), (ArrayMarker, 0)], "x"), t3)
            == Some(Location(["", ArrayMarker], [("", -1), (ArrayMarker, 2)], ""))
  {
    var inArray := Location(["", ArrayMarker], [("", -1), (ArrayMarker, 0)], "");
    var inX := Location(["", ArrayMarker, "x"], [("", -1), (ArrayMarker, 0), ("x", -1)], "x");
    var t4 := t3[1..];
    EmptyKeyInside(t4);
    assert OnStartObject(inArray.(lastKey := "x")) == inX by {
      assert inArray.objectPath + ["x"] == inX.objectPath;
      assert inArray.indexed + [("x", -1)] == inX.indexed;
    }
  }

  /** Inside "x": the empty key, the object under it and its close, which
      pops the frame of "x". */
  lemma EmptyKeyInside(t4: seq<Event>)
    requires t4 == [KeyEvent(""), StartObjectEvent, EndObjectEvent, EndObjectEvent, EndObjectEvent]
    ensures Run(Location(["", ArrayMarker, "x"], [("", -1), (ArrayMarker, 0), ("x", -1)], "x"), t4)
            == Some(Location(["", ArrayMarker], [("", -1), (ArrayMarker, 2)], ""))
  {
    var inArray := Location(["", ArrayMarker], [("", -1), (ArrayMarker, 0)], "");
    var inX := Location(["", ArrayMarker, "x"], [("", -1), (ArrayMarker, 0), ("x", -1)], "");
    var done := Location(["", ArrayMarker], [("", -1), (ArrayMarker, 2)], "");
    var t7 := t4[3..];
    EmptyKeyClosing(t7);
    var t6 := t4[2..];
    assert inX.objectPath[..2] == inArray.objectPath && inX.indexed[..2] == inArray.indexed;
    assert Run(inX, t6) == Some(done) by { assert t6[1..] == t7; }
    var t5 := t4[1..];
    assert Run(inX, t5) == Some(done) by { assert t5[1..] == t6; }
  }

  /** The last two closing braces each count an element of the array. */
  lemma EmptyKeyClosing(t7: seq<Event>)
    requires t7 == [EndObjectEvent, EndObjectEvent]
    ensures Run(Location(["", ArrayMarker], [("", -1), (ArrayMarker, 0)], ""), t7)
            == Some(Location(["", ArrayMarker], [("", -1), (ArrayMarker, 2)], ""))
  {
    var inArray := Location(["", ArrayMarker], [("", -1), (ArrayMarker, 0)], "");
    var once := inArray.(indexed := [("", -1), (ArrayMarker, 1)]);
    var done := Location(["", ArrayMarker], [("", -1), (ArrayMarker, 2)], "");
    var t8 := [EndObjectEvent];
    assert Bump(once.indexed) == done.indexed;
    assert Run(once, t8) == Some(done) by { assert t8[1..] == []; }
    assert Bump(inArray.indexed) == once.indexed;
    assert t7[1..] == t8;
  }
}
