/** Whole documents through the streaming handler: which report receives
    which writer calls. The handler's state (location, armed report and
    outputs) is a value here, advanced one reader event at a time exactly as
    the callbacks of `MessageHandler` advance it, and a reference definition
    (`Collect`) says what every report ends up with. */
module ReportRouting {
  import opened Wrappers
  import opened ObjectPaths
  import opened PathTracker
  import opened SchemaValidator

  // ---------------------------------------------------------------------
  // The handler's state as a value, one event at a time
  // ---------------------------------------------------------------------

  datatype HandlerState = HandlerState(loc: Location, current: Option<nat>, sinks: seq<seq<Token>>)

  /** What `MessageHandler.Valid` demands, for a state value. */
  predicate StateOk(reports: seq<ItemReporter>, s: HandlerState)
  {
    PathTracker.Valid(s.loc)
    && PathsOk(reports)
    && |s.sinks| == |reports|
    && (s.current.Some? ==> s.current.value < |reports|
                            && AlmostThere(s.loc.objectPath, s.loc.lastKey, reports[s.current.value].path))
  }

  function StateOf(h: MessageHandler): HandlerState
    reads h
  {
    HandlerState(h.Loc(), h.current, h.sinks)
  }

  /** The effect of one reader event, as the callback for it has it: the
      location changes as `PathTracker` says, the writer call goes to the
      armed report, a key searches for a report to arm when the armed one
      (if any) no longer matches, and every closing event or scalar
      rechecks the armed report. An array close with fewer than two frames
      is the one event the handler cannot take. */
  function Step(reports: seq<ItemReporter>, s: HandlerState, e: Event): (r: Option<HandlerState>)
    requires StateOk(reports, s)
    ensures r.Some? ==> StateOk(reports, r.value) && Apply(s.loc, e) == Some(r.value.loc)
    ensures r.None? <==> e.EndArrayEvent? && |s.loc.objectPath| < 2
  {
    var l := s.loc;
    match e
    case KeyEvent(k) =>
      if s.current.Some? && AlmostThere(l.objectPath, k, reports[s.current.value].path) then
        Some(HandlerState(OnKey(l, k), s.current, Emitted(s.sinks, s.current, KeyName(k))))
      else
        var c := FirstArmable(reports, l.objectPath, k);
        Some(HandlerState(OnKey(l, k), c, Emitted(s.sinks, c, KeyName(IndexedPathToString(l.indexed, k)))))
    case ScalarEvent(v) =>
      var m := OnScalar(l);
      Some(HandlerState(m, Rechecked(reports, s.current, m.objectPath, m.lastKey), Emitted(s.sinks, s.current, Value(v))))
    case StartObjectEvent =>
      OpeningKeepsArmed(reports, s);
      Some(HandlerState(OnStartObject(l), s.current, Emitted(s.sinks, s.current, StartObj)))
    case EndObjectEvent =>
      var m := OnEndObject(l);
      Some(HandlerState(m, Rechecked(reports, s.current, m.objectPath, m.lastKey), Emitted(s.sinks, s.current, EndObj)))
    case StartArrayEvent =>
      OpeningKeepsArmed(reports, s);
      Some(HandlerState(OnStartArray(l), s.current, Emitted(s.sinks, s.current, StartArr)))
    case EndArrayEvent =>
      if |l.objectPath| < 2 then None
      else
        var m := OnEndArray(l);
        Some(HandlerState(m, Rechecked(reports, s.current, m.objectPath, m.lastKey), Emitted(s.sinks, s.current, EndArr)))
  }

  /** Opening an object or an array never disarms the armed report. */
  lemma OpeningKeepsArmed(reports: seq<ItemReporter>, s: HandlerState)
    requires StateOk(reports, s)
    ensures s.current.Some? ==>
              var path := reports[s.current.value].path;
              AlmostThere(OnStartObject(s.loc).objectPath, OnStartObject(s.loc).lastKey, path)
              && AlmostThere(OnStartArray(s.loc).objectPath, OnStartArray(s.loc).lastKey, path)
  {
    if s.current.Some? {
      var path := reports[s.current.value].path;
      StartObjectKeepsOnTheWay(s.loc.objectPath, s.loc.lastKey, path);
      StartArrayKeepsOnTheWay(s.loc.objectPath, s.loc.lastKey, path);
    }
  }

  /** A sequence of events; the location part is exactly `PathTracker.Run`. */
  function RunHandler(reports: seq<ItemReporter>, s: HandlerState, es: seq<Event>): (r: Option<HandlerState>)
    requires StateOk(reports, s)
    ensures r.Some? ==> StateOk(reports, r.value)
    ensures r.Some? <==> Run(s.loc, es).Some?
    ensures r.Some? ==> Run(s.loc, es) == Some(r.value.loc)
    decreases |es|
  {
    if es == [] then Some(s)
    else match Step(reports, s, es[0])
      case None => None
      case Some(m) => RunHandler(reports, m, es[1..])
  }

  /** The callback for one event, called on the handler object, does what
      `Step` says. */
  method Handle(h: MessageHandler, e: Event)
    modifies h
    requires h.Valid() && Step(h.reports, StateOf(h), e).Some?
    ensures h.Valid()
    ensures Step(h.reports, old(StateOf(h)), e) == Some(StateOf(h))
  {
    match e
    case KeyEvent(k) => h.Key(k);
    case ScalarEvent(v) => h.Scalar(v);
    case StartObjectEvent => h.StartObject();
    case EndObjectEvent => h.EndObject();
    case StartArrayEvent => h.StartArray();
    case EndArrayEvent => h.EndArray();
  }

  /** The reader's loop: every event of the sequence in turn. */
  method HandleAll(h: MessageHandler, es: seq<Event>)
    modifies h
    requires h.Valid() && RunHandler(h.reports, StateOf(h), es).Some?
    ensures h.Valid()
    ensures RunHandler(h.reports, old(StateOf(h)), es) == Some(StateOf(h))
  {
    var i := 0;
    while i < |es|
      invariant 0 <= i <= |es| && h.Valid()
      invariant RunHandler(h.reports, StateOf(h), es[i..]) == RunHandler(h.reports, old(StateOf(h)), es)
    {
      assert es[i..][0] == es[i] && es[i..][1..] == es[i + 1..];
      Handle(h, es[i]);
      i := i + 1;
    }
    assert es[i..] == [];
  }

  lemma RunHandlerOne(reports: seq<ItemReporter>, s: HandlerState, e: Event)
    requires StateOk(reports, s)
    ensures RunHandler(reports, s, [e]) == Step(reports, s, e)
  {
    assert [e][1..] == [];
  }

  /** Running two sequences one after the other is running their
      concatenation. */
  lemma {:induction false} RunHandlerAppend(reports: seq<ItemReporter>, s: HandlerState, a: seq<Event>, b: seq<Event>)
    requires StateOk(reports, s)
    ensures RunHandler(reports, s, a + b)
            == match RunHandler(reports, s, a) case None => None case Some(m) => RunHandler(reports, m, b)
    decreases |a|
  {
    if a == [] {
      assert a + b == b;
    } else {
      assert (a + b)[0] == a[0];
      assert (a + b)[1..] == a[1..] + b;
      match Step(reports, s, a[0])
      case None =>
      case Some(m) => RunHandlerAppend(reports, m, a[1..], b);
    }
  }
  /** A run that reaches `m` on `a` continues on `b` from `m`. */
  lemma RunThen(reports: seq<ItemReporter>, s: HandlerState, a: seq<Event>, b: seq<Event>, m: HandlerState)
    requires StateOk(reports, s) && RunHandler(reports, s, a) == Some(m)
    ensures StateOk(reports, m)
    ensures RunHandler(reports, s, a + b) == RunHandler(reports, m, b)
  {
    RunHandlerAppend(reports, s, a, b);
  }

  /** The location a run ends at is the one `PathTracker.Run` gives. */
  lemma RunLocation(reports: seq<ItemReporter>, s: HandlerState, es: seq<Event>, r: HandlerState)
    requires StateOk(reports, s) && RunHandler(reports, s, es) == Some(r)
    ensures Run(s.loc, es) == Some(r.loc)
  {
  }

  /** An opening event, the events of the contents, and a closing event. */
  lemma Bracketed(reports: seq<ItemReporter>, s: HandlerState, open: Event, mid: seq<Event>, close: Event,
                  s1: HandlerState, s2: HandlerState)
    requires StateOk(reports, s) && Step(reports, s, open) == Some(s1)
    requires StateOk(reports, s1) && RunHandler(reports, s1, mid) == Some(s2)
    ensures StateOk(reports, s2)
    ensures RunHandler(reports, s, [open] + mid + [close]) == Step(reports, s2, close)
  {
    RunHandlerOne(reports, s, open);
    RunThen(reports, s, [open], mid, s1);
    RunThen(reports, s, [open] + mid, [close], s2);
    RunHandlerOne(reports, s2, close);
  }


  // ---------------------------------------------------------------------
  // What each report receives
  // ---------------------------------------------------------------------

  /** The writer calls that copy a value: what an armed report receives
      while the value is read. */
  function Tokens(d: Doc): seq<Token>
    decreases d
  {
    match d
    case Atom(v) => [Value(v)]
    case Obj(fs) => [StartObj] + FieldTokens(fs) + [EndObj]
    case Arr(items) => [StartArr] + ItemTokens(items) + [EndArr]
  }

  function FieldTokens(fs: seq<Field>): seq<Token>
    decreases fs
  {
    if fs == [] then [] else [KeyName(fs[0].key)] + Tokens(fs[0].value) + FieldTokens(fs[1..])
  }

  function ItemTokens(items: seq<Doc>): seq<Token>
    decreases items
  {
    if items == [] then [] else Tokens(items[0]) + ItemTokens(items[1..])
  }

  /** Report `i`'s output extended by `ts`; the others unchanged. */
  function Append(sinks: seq<seq<Token>>, i: nat, ts: seq<Token>): (r: seq<seq<Token>>)
    requires i < |sinks|
    ensures |r| == |sinks|
  {
    sinks[i := sinks[i] + ts]
  }

  lemma AppendAppend(sinks: seq<seq<Token>>, i: nat, a: seq<Token>, b: seq<Token>)
    requires i < |sinks|
    ensures Append(Append(sinks, i, a), i, b) == Append(sinks, i, a + b)
  {
    assert sinks[i] + a + b == sinks[i] + (a + b);
  }

  lemma BracketTokens(sinks: seq<seq<Token>>, i: nat, open: Token, mid: seq<Token>, close: Token)
    requires i < |sinks|
    ensures Append(Append(Append(sinks, i, [open]), i, mid), i, [close]) == Append(sinks, i, [open] + mid + [close])
  {
    AppendAppend(sinks, i, [open], mid);
    AppendAppend(sinks, i, [open] + mid, [close]);
  }

  /** The report sets the routing theorem is about: every path names a
      member, with a name that is neither "" nor the array marker. */
  predicate ReportsOk(reports: seq<ItemReporter>)
  {
    PathsOk(reports)
    && forall i :: 0 <= i < |reports| ==>
         reports[i].path[|reports[i].path| - 1] != "" && reports[i].path[|reports[i].path| - 1] != ArrayMarker
  }

  /** The first report, in configuration order, whose path is `p`. */
  function FirstAt(reports: seq<ItemReporter>, p: seq<string>): (r: Option<nat>)
    ensures r.Some? ==> r.value < |reports| && reports[r.value].path == p
    ensures r.Some? ==> forall j :: 0 <= j < r.value ==> reports[j].path != p
    ensures r.None? ==> forall j :: 0 <= j < |reports| ==> reports[j].path != p
  {
    if reports == [] then None
    else if reports[0].path == p then Some(0)
    else match FirstAt(reports[1..], p)
      case None => None
      case Some(i) => Some(i + 1)
  }

  /** No report's path is `objectPath` or a prefix of it: the location is
      not inside anything a report collects. */
  predicate ClearPath(reports: seq<ItemReporter>, objectPath: seq<string>)
  {
    forall i :: 0 <= i < |reports| ==> !Within(reports[i].path, objectPath)
  }

  /** `path` is the location's names or a prefix of them: the location is
      inside the value a report with that path collects. */
  predicate Within(path: seq<string>, objectPath: seq<string>)
  {
    |path| <= |objectPath| && objectPath[..|path|] == path
  }

  /** A value is read under a key (neither "" nor the array marker) or as an
      element directly in an array. */
  predicate Reading(l: Location)
  {
    PathTracker.Valid(l)
    && ((l.lastKey != "" && l.lastKey != ArrayMarker) || (InArray(l) && l.lastKey == ""))
  }

  /** The location once that value has been read: the key is cleared, and an
      element that is not an array advances the index. */
  function After(l: Location, d: Doc): (r: Location)
    requires PathTracker.Valid(l) && (l.lastKey != "" || InArray(l))
    ensures PathTracker.Valid(r) && r.objectPath == l.objectPath && r.lastKey == ""
  {
    if l.lastKey != "" then l.(lastKey := "")
    else l.(indexed := if d.Arr? then l.indexed else Bump(l.indexed))
  }

  /** The outputs after value `d` has been read at `l` with nothing armed.
      Each member whose location (the names leading to it, then its key) is
      exactly a report's path goes to the first such report: the member's
      location with indices (`objectPathToString`), then the member's value
      as writer calls. Members elsewhere are searched in turn, and nothing
      else is written anywhere. */
  function Collect(reports: seq<ItemReporter>, l: Location, d: Doc, sinks: seq<seq<Token>>): (r: seq<seq<Token>>)
    requires PathTracker.Valid(l) && |sinks| == |reports|
    ensures |r| == |sinks|
    decreases d
  {
    match d
    case Atom(_) => sinks
    case Obj(fs) => CollectFields(reports, OnStartObject(l), fs, sinks)
    case Arr(items) => CollectItems(reports, OnStartArray(l), items, sinks)
  }

  function CollectFields(reports: seq<ItemReporter>, l: Location, fs: seq<Field>, sinks: seq<seq<Token>>)
    : (r: seq<seq<Token>>)
    requires PathTracker.Valid(l) && |sinks| == |reports|
    ensures |r| == |sinks|
    decreases fs
  {
    if fs == [] then sinks
    else
      var k := fs[0].key;
      var found := match FirstAt(reports, l.objectPath + [k])
        case Some(i) => Append(sinks, i, [KeyName(IndexedPathToString(l.indexed, k))] + Tokens(fs[0].value))
        case None => Collect(reports, l.(lastKey := k), fs[0].value, sinks);
      CollectFields(reports, l.(lastKey := ""), fs[1..], found)
  }

  function CollectItems(reports: seq<ItemReporter>, l: Location, items: seq<Doc>, sinks: seq<seq<Token>>)
    : (r: seq<seq<Token>>)
    requires PathTracker.Valid(l) && InArray(l) && |sinks| == |reports|
    ensures |r| == |sinks|
    decreases items
  {
    if items == [] then sinks
    else CollectItems(reports, After(l, items[0]), items[1..], Collect(reports, l, items[0], sinks))
  }

  // ---------------------------------------------------------------------
  // Paths and arming
  // ---------------------------------------------------------------------

  /** A value read under a key or as an array element leaves the location
      as `After` says. */
  lemma ValueRun(l: Location, d: Doc)
    requires Reading(l) && GoodKeys(d)
    ensures Run(l, Events(d)) == Some(After(l, d))
  {
    if l.lastKey != "" {
      KeyedValue(l, d);
    } else {
      ElementEffect(l, d);
    }
  }

  /** Inside its value, a report stays on its path whatever the key. */
  lemma WithinOnTheWay(path: seq<string>, objectPath: seq<string>, key: string)
    requires Within(path, objectPath)
    ensures AlmostThere(objectPath, key, path)
  {
  }

  /** Outside every report's value, a key arms exactly the first report
      whose path is the location's names followed by the key. */
  lemma ArmsExactly(reports: seq<ItemReporter>, objectPath: seq<string>, key: string)
    requires ReportsOk(reports) && ClearPath(reports, objectPath)
    ensures FirstArmable(reports, objectPath, key) == FirstAt(reports, objectPath + [key])
  {
    var p := objectPath + [key];
    forall j | 0 <= j < |reports|
      ensures Armable(reports[j], objectPath, key) <==> reports[j].path == p
    {
      var path := reports[j].path;
      if reports[j].path == p {
        assert path[..|objectPath|] == objectPath;
        assert OnTheWay(objectPath, key, path);
      }
      if Armable(reports[j], objectPath, key) {
        assert OnTheWay(objectPath, key, path);
        assert path == path[..|objectPath|] + [path[|objectPath|]];
      }
    }
    FirstArmableIsFirst(reports, objectPath, key, FirstAt(reports, p));
  }

  /** Entering a member no report claims keeps the location clear. */
  lemma ClearUnderKey(reports: seq<ItemReporter>, objectPath: seq<string>, key: string)
    requires ClearPath(reports, objectPath) && FirstAt(reports, objectPath + [key]).None?
    ensures ClearPath(reports, objectPath + [key])
  {
    var q := objectPath + [key];
    forall i | 0 <= i < |reports|
      ensures !Within(reports[i].path, q)
    {
      var path := reports[i].path;
      if |path| <= |objectPath| {
        assert q[..|path|] == objectPath[..|path|];
      } else if |path| == |q| {
        assert q[..|path|] == q;
      }
    }
  }

  /** Opening an array under an unclaimed key (or under no key) keeps the
      location clear: no report path ends in "" or the array marker. */
  lemma ClearUnderArray(reports: seq<ItemReporter>, objectPath: seq<string>, key: string)
    requires ReportsOk(reports) && ClearPath(reports, objectPath)
    requires key != "" ==> FirstAt(reports, objectPath + [key]).None?
    ensures ClearPath(reports, objectPath + [key, ArrayMarker])
  {
    var q := objectPath + [key, ArrayMarker];
    forall i | 0 <= i < |reports|
      ensures !Within(reports[i].path, q)
    {
      var path := reports[i].path;
      if |path| <= |objectPath| {
        assert q[..|path|] == objectPath[..|path|];
      } else if |path| == |objectPath| + 1 {
        assert q[..|path|] == objectPath + [key];
        assert (objectPath + [key])[|objectPath|] == key;
      } else if |path| == |q| {
        assert q[..|path|] == q;
        assert q[|q| - 1] == ArrayMarker;
      }
    }
  }

  // ---------------------------------------------------------------------
  // An armed report inside its value receives everything
  // ---------------------------------------------------------------------

  /** A value read inside an armed report's value is copied to that report
      and to no other, and the report stays armed. */
  lemma {:induction false} InsideValue(reports: seq<ItemReporter>, i: nat, l: Location, d: Doc, sinks: seq<seq<Token>>)
    requires StateOk(reports, HandlerState(l, Some(i), sinks))
    requires Reading(l) && GoodKeys(d) && Within(reports[i].path, l.objectPath)
    ensures RunHandler(reports, HandlerState(l, Some(i), sinks), Events(d))
            == Some(HandlerState(After(l, d), Some(i), Append(sinks, i, Tokens(d))))
    decreases d, 2
  {
    match d
    case Atom(v) =>
      RunHandlerOne(reports, HandlerState(l, Some(i), sinks), ScalarEvent(v));
      WithinOnTheWay(reports[i].path, l.objectPath, "");
    case Obj(fs) => InsideObject(reports, i, l, fs, sinks);
    case Arr(items) => InsideArray(reports, i, l, items, sinks);
  }

  lemma {:induction false} InsideObject(reports: seq<ItemReporter>, i: nat, l: Location, fs: seq<Field>, sinks: seq<seq<Token>>)
    requires StateOk(reports, HandlerState(l, Some(i), sinks))
    requires Reading(l) && GoodFields(fs) && Within(reports[i].path, l.objectPath)
    ensures RunHandler(reports, HandlerState(l, Some(i), sinks), Events(Obj(fs)))
            == Some(HandlerState(After(l, Obj(fs)), Some(i), Append(sinks, i, Tokens(Obj(fs)))))
    decreases fs, 1
  {
    var path := reports[i].path;
    var s := HandlerState(l, Some(i), sinks);
    var l1 := OnStartObject(l);
    var s1 := HandlerState(l1, Some(i), Append(sinks, i, [StartObj]));
    assert Step(reports, s, StartObjectEvent) == Some(s1);
    assert l1.objectPath[..|path|] == path;
    InsideFields(reports, i, l1, fs, s1.sinks);
    var l2 := l1.(lastKey := if fs == [] then l1.lastKey else "");
    var s2 := HandlerState(l2, Some(i), Append(s1.sinks, i, FieldTokens(fs)));
    assert Events(Obj(fs)) == [StartObjectEvent] + FieldsEvents(fs) + [EndObjectEvent];
    Bracketed(reports, s, StartObjectEvent, FieldsEvents(fs), EndObjectEvent, s1, s2);
    WithinOnTheWay(path, l.objectPath, "");
    ObjectCloses(l, fs, l2);
    var s3 := HandlerState(After(l, Obj(fs)), Some(i), Append(s2.sinks, i, [EndObj]));
    assert Step(reports, s2, EndObjectEvent) == Some(s3);
    BracketTokens(sinks, i, StartObj, FieldTokens(fs), EndObj);
    assert Tokens(Obj(fs)) == [StartObj] + FieldTokens(fs) + [EndObj];
  }

  lemma {:induction false} InsideArray(reports: seq<ItemReporter>, i: nat, l: Location, items: seq<Doc>, sinks: seq<seq<Token>>)
    requires StateOk(reports, HandlerState(l, Some(i), sinks))
    requires Reading(l) && GoodItems(items) && Within(reports[i].path, l.objectPath)
    ensures RunHandler(reports, HandlerState(l, Some(i), sinks), Events(Arr(items)))
            == Some(HandlerState(After(l, Arr(items)), Some(i), Append(sinks, i, Tokens(Arr(items)))))
    decreases items, 1
  {
    var path := reports[i].path;
    var s := HandlerState(l, Some(i), sinks);
    var l1 := OnStartArray(l);
    var s1 := HandlerState(l1, Some(i), Append(sinks, i, [StartArr]));
    assert l1.objectPath[..|path|] == path;
    InsideItems(reports, i, l1, items, s1.sinks);
    var l2 := l1.(indexed := BumpBy(l1.indexed, Counted(items)));
    var s2 := HandlerState(l2, Some(i), Append(s1.sinks, i, ItemTokens(items)));
    assert Events(Arr(items)) == [StartArrayEvent] + ItemsEvents(items) + [EndArrayEvent];
    Bracketed(reports, s, StartArrayEvent, ItemsEvents(items), EndArrayEvent, s1, s2);
    WithinOnTheWay(path, l.objectPath, "");
    ArrayCloses(l, items);
    var s3 := HandlerState(After(l, Arr(items)), Some(i), Append(s2.sinks, i, [EndArr]));
    assert Step(reports, s2, EndArrayEvent) == Some(s3);
    BracketTokens(sinks, i, StartArr, ItemTokens(items), EndArr);
    assert Tokens(Arr(items)) == [StartArr] + ItemTokens(items) + [EndArr];
  }

  /** The members inside an armed report's value: each key goes to the
      report as it is, followed by the member's value. */
  lemma {:induction false} InsideFields(reports: seq<ItemReporter>, i: nat, l: Location, fs: seq<Field>, sinks: seq<seq<Token>>)
    requires StateOk(reports, HandlerState(l, Some(i), sinks))
    requires GoodFields(fs) && Within(reports[i].path, l.objectPath)
    ensures RunHandler(reports, HandlerState(l, Some(i), sinks), FieldsEvents(fs))
            == Some(HandlerState(l.(lastKey := if fs == [] then l.lastKey else ""), Some(i),
                                 Append(sinks, i, FieldTokens(fs))))
    decreases fs, 0
  {
    var s := HandlerState(l, Some(i), sinks);
    if fs == [] {
      assert sinks[i] + [] == sinks[i];
      assert Append(sinks, i, []) == sinks;
      assert l.(lastKey := l.lastKey) == l;
    } else {
      var k := fs[0].key;
      var v := fs[0].value;
      var lk := l.(lastKey := k);
      WithinOnTheWay(reports[i].path, l.objectPath, k);
      var s1 := HandlerState(lk, Some(i), Append(sinks, i, [KeyName(k)]));
      RunHandlerOne(reports, s, KeyEvent(k));
      assert Step(reports, s, KeyEvent(k)) == Some(s1);
      InsideValue(reports, i, lk, v, s1.sinks);
      var l2 := l.(lastKey := "");
      var sinks2 := Append(s1.sinks, i, Tokens(v));
      InsideFields(reports, i, l2, fs[1..], sinks2);
      assert FieldsEvents(fs) == [KeyEvent(k)] + Events(v) + FieldsEvents(fs[1..]);
      RunHandlerAppend(reports, s, [KeyEvent(k)] + Events(v), FieldsEvents(fs[1..]));
      RunHandlerAppend(reports, s, [KeyEvent(k)], Events(v));
      AppendAppend(sinks, i, [KeyName(k)], Tokens(v));
      AppendAppend(sinks, i, [KeyName(k)] + Tokens(v), FieldTokens(fs[1..]));
    }
  }

  /** The items inside an armed report's value, each copied in turn; the
      index advances as `PathTracker` counts. */
  lemma {:induction false} InsideItems(reports: seq<ItemReporter>, i: nat, l: Location, items: seq<Doc>, sinks: seq<seq<Token>>)
    requires StateOk(reports, HandlerState(l, Some(i), sinks))
    requires InArray(l) && l.lastKey == "" && GoodItems(items) && Within(reports[i].path, l.objectPath)
    ensures RunHandler(reports, HandlerState(l, Some(i), sinks), ItemsEvents(items))
            == Some(HandlerState(l.(indexed := BumpBy(l.indexed, Counted(items))), Some(i),
                                 Append(sinks, i, ItemTokens(items))))
    decreases items, 0
  {
    var s := HandlerState(l, Some(i), sinks);
    if items == [] {
      BumpByAdds(l.indexed, 0, 0);
      assert l.(indexed := l.indexed) == l;
      assert sinks[i] + [] == sinks[i];
      assert Append(sinks, i, []) == sinks;
    } else {
      var m := After(l, items[0]);
      var sinks1 := Append(sinks, i, Tokens(items[0]));
      InsideValue(reports, i, l, items[0], sinks);
      RunThen(reports, s, Events(items[0]), ItemsEvents(items[1..]), HandlerState(m, Some(i), sinks1));
      IndexUnfold(l, items);
      InsideItems(reports, i, m, items[1..], sinks1);
      EventsUnfold(items);
      TokensUnfold(items);
      AppendAppend(sinks, i, Tokens(items[0]), ItemTokens(items[1..]));
    }
  }

  // ---------------------------------------------------------------------
  // A report armed by its own member
  // ---------------------------------------------------------------------

  /** Back at the parent with no pending key, a report on a member's path
      no longer matches. */
  lemma LeavingMember(objectPath: seq<string>, key: string)
    requires key != ""
    ensures !AlmostThere(objectPath, "", objectPath + [key])
  {
    assert (objectPath + [key])[|objectPath|] == key;
  }

  /** The member a key has just armed: its value goes to the report, and the
      recheck after the value disarms it (the location is back at the
      parent, with no pending key). */
  lemma MemberValue(reports: seq<ItemReporter>, i: nat, l: Location, d: Doc, sinks: seq<seq<Token>>)
    requires StateOk(reports, HandlerState(l, Some(i), sinks))
    requires l.lastKey != "" && l.lastKey != ArrayMarker && GoodKeys(d)
    requires reports[i].path == l.objectPath + [l.lastKey]
    ensures RunHandler(reports, HandlerState(l, Some(i), sinks), Events(d))
            == Some(HandlerState(l.(lastKey := ""), None, Append(sinks, i, Tokens(d))))
  {
    var path := reports[i].path;
    match d
    case Atom(v) =>
      RunHandlerOne(reports, HandlerState(l, Some(i), sinks), ScalarEvent(v));
      LeavingMember(l.objectPath, l.lastKey);
    case Obj(fs) => MemberObject(reports, i, l, fs, sinks);
    case Arr(items) => MemberArray(reports, i, l, items, sinks);
  }

  lemma MemberObject(reports: seq<ItemReporter>, i: nat, l: Location, fs: seq<Field>, sinks: seq<seq<Token>>)
    requires StateOk(reports, HandlerState(l, Some(i), sinks))
    requires l.lastKey != "" && l.lastKey != ArrayMarker && GoodFields(fs)
    requires reports[i].path == l.objectPath + [l.lastKey]
    ensures RunHandler(reports, HandlerState(l, Some(i), sinks), Events(Obj(fs)))
            == Some(HandlerState(l.(lastKey := ""), None, Append(sinks, i, Tokens(Obj(fs)))))
  {
    var s := HandlerState(l, Some(i), sinks);
    var l1 := OnStartObject(l);
    var s1 := HandlerState(l1, Some(i), Append(sinks, i, [StartObj]));
    assert Step(reports, s, StartObjectEvent) == Some(s1);
    assert l1.objectPath == reports[i].path;
    assert Within(reports[i].path, l1.objectPath) by {
      assert l1.objectPath[..|reports[i].path|] == l1.objectPath;
    }
    InsideFields(reports, i, l1, fs, s1.sinks);
    var l2 := l1.(lastKey := if fs == [] then l1.lastKey else "");
    var s2 := HandlerState(l2, Some(i), Append(s1.sinks, i, FieldTokens(fs)));
    assert Events(Obj(fs)) == [StartObjectEvent] + FieldsEvents(fs) + [EndObjectEvent];
    Bracketed(reports, s, StartObjectEvent, FieldsEvents(fs), EndObjectEvent, s1, s2);
    MemberObjectCloses(l, l2);
    LeavingMember(l.objectPath, l.lastKey);
    var s3 := HandlerState(l.(lastKey := ""), None, Append(s2.sinks, i, [EndObj]));
    assert Step(reports, s2, EndObjectEvent) == Some(s3);
    BracketTokens(sinks, i, StartObj, FieldTokens(fs), EndObj);
    assert Tokens(Obj(fs)) == [StartObj] + FieldTokens(fs) + [EndObj];
  }

  /** Closing the object a value opened leaves the location as `After`
      says, whatever the pending key inside. */
  lemma ObjectCloses(l: Location, fs: seq<Field>, l2: Location)
    requires Reading(l)
    requires PathTracker.Valid(l2) && l2.objectPath == OnStartObject(l).objectPath
    requires l2.indexed == OnStartObject(l).indexed
    ensures OnEndObject(l2) == After(l, Obj(fs))
  {
    if l.lastKey != "" {
      MemberObjectCloses(l, l2);
    }
  }

  /** Closing the object a member opened returns to the member's parent. */
  lemma MemberObjectCloses(l: Location, l2: Location)
    requires PathTracker.Valid(l) && l.lastKey != "" && l.lastKey != ArrayMarker
    requires PathTracker.Valid(l2) && l2.objectPath == OnStartObject(l).objectPath
    requires l2.indexed == OnStartObject(l).indexed
    ensures OnEndObject(l2) == l.(lastKey := "")
  {
    assert (l.objectPath + [l.lastKey])[..|l.objectPath|] == l.objectPath;
    assert (l.indexed + [(l.lastKey, -1)])[..|l.indexed|] == l.indexed;
  }

  /** Closing the array a value opened, once its items are read, returns to
      the location the value was read at, with no pending key. */
  lemma ArrayCloses(l: Location, items: seq<Doc>)
    requires PathTracker.Valid(l) && (l.lastKey != "" || InArray(l))
    ensures var l1 := OnStartArray(l);
            OnEndArray(l1.(indexed := BumpBy(l1.indexed, Counted(items)))) == l.(lastKey := "")
    ensures After(l, Arr(items)) == l.(lastKey := "")
  {
    var l1 := OnStartArray(l);
    var l2 := l1.(indexed := BumpBy(l1.indexed, Counted(items)));
    assert l2.objectPath[..|l.objectPath|] == l.objectPath;
    assert l2.indexed[..|l.indexed|] == l1.indexed[..|l.indexed|] == l.indexed;
  }

  lemma MemberArray(reports: seq<ItemReporter>, i: nat, l: Location, items: seq<Doc>, sinks: seq<seq<Token>>)
    requires StateOk(reports, HandlerState(l, Some(i), sinks))
    requires l.lastKey != "" && l.lastKey != ArrayMarker && GoodItems(items)
    requires reports[i].path == l.objectPath + [l.lastKey]
    ensures RunHandler(reports, HandlerState(l, Some(i), sinks), Events(Arr(items)))
            == Some(HandlerState(l.(lastKey := ""), None, Append(sinks, i, Tokens(Arr(items)))))
  {
    var path := reports[i].path;
    var s := HandlerState(l, Some(i), sinks);
    var l1 := OnStartArray(l);
    var s1 := HandlerState(l1, Some(i), Append(sinks, i, [StartArr]));
    assert l1.objectPath[..|path|] == path;
    InsideItems(reports, i, l1, items, s1.sinks);
    var l2 := l1.(indexed := BumpBy(l1.indexed, Counted(items)));
    var s2 := HandlerState(l2, Some(i), Append(s1.sinks, i, ItemTokens(items)));
    assert Events(Arr(items)) == [StartArrayEvent] + ItemsEvents(items) + [EndArrayEvent];
    Bracketed(reports, s, StartArrayEvent, ItemsEvents(items), EndArrayEvent, s1, s2);
    ArrayCloses(l, items);
    var s3 := HandlerState(l.(lastKey := ""), None, Append(s2.sinks, i, [EndArr]));
    assert Step(reports, s2, EndArrayEvent) == Some(s3);
    LeavingMember(l.objectPath, l.lastKey);
    BracketTokens(sinks, i, StartArr, ItemTokens(items), EndArr);
    assert Tokens(Arr(items)) == [StartArr] + ItemTokens(items) + [EndArr];
  }

  // ---------------------------------------------------------------------
  // Nothing armed: every key searches
  // ---------------------------------------------------------------------

  /** A value read with nothing armed, at a location no report's value
      encloses: the outputs grow exactly as `Collect` says, and nothing is
      armed afterwards. */
  lemma {:induction false} SearchValue(reports: seq<ItemReporter>, l: Location, d: Doc, sinks: seq<seq<Token>>)
    requires StateOk(reports, HandlerState(l, None, sinks)) && ReportsOk(reports)
    requires Reading(l) && GoodKeys(d) && ClearPath(reports, l.objectPath)
    requires l.lastKey != "" ==> FirstAt(reports, l.objectPath + [l.lastKey]).None?
    ensures RunHandler(reports, HandlerState(l, None, sinks), Events(d))
            == Some(HandlerState(After(l, d), None, Collect(reports, l, d, sinks)))
    decreases d, 2
  {
    match d
    case Atom(v) =>
      RunHandlerOne(reports, HandlerState(l, None, sinks), ScalarEvent(v));
    case Obj(fs) =>
      if l.lastKey != "" {
        ClearUnderKey(reports, l.objectPath, l.lastKey);
      }
      SearchObject(reports, l, fs, sinks);
      ValueRun(l, d);
    case Arr(items) =>
      ClearUnderArray(reports, l.objectPath, l.lastKey);
      SearchArray(reports, l, items, sinks);
      ValueRun(l, d);
  }

  lemma {:induction false} SearchObject(reports: seq<ItemReporter>, l: Location, fs: seq<Field>, sinks: seq<seq<Token>>)
    requires StateOk(reports, HandlerState(l, None, sinks)) && ReportsOk(reports)
    requires GoodFields(fs) && ClearPath(reports, OnStartObject(l).objectPath)
    ensures var r := RunHandler(reports, HandlerState(l, None, sinks), Events(Obj(fs)));
            r.Some? && r.value.current.None? && r.value.sinks == Collect(reports, l, Obj(fs), sinks)
    decreases fs, 1
  {
    var s := HandlerState(l, None, sinks);
    var l1 := OnStartObject(l);
    var s1 := HandlerState(l1, None, sinks);
    SearchFields(reports, l1, fs, sinks);
    var s2 := HandlerState(l1.(lastKey := if fs == [] then l1.lastKey else ""), None, CollectFields(reports, l1, fs, sinks));
    assert Events(Obj(fs)) == [StartObjectEvent] + FieldsEvents(fs) + [EndObjectEvent];
    Bracketed(reports, s, StartObjectEvent, FieldsEvents(fs), EndObjectEvent, s1, s2);
  }

  lemma {:induction false} SearchArray(reports: seq<ItemReporter>, l: Location, items: seq<Doc>, sinks: seq<seq<Token>>)
    requires StateOk(reports, HandlerState(l, None, sinks)) && ReportsOk(reports)
    requires GoodItems(items) && ClearPath(reports, OnStartArray(l).objectPath)
    ensures var r := RunHandler(reports, HandlerState(l, None, sinks), Events(Arr(items)));
            r.Some? && r.value.current.None? && r.value.sinks == Collect(reports, l, Arr(items), sinks)
    decreases items, 1
  {
    var s := HandlerState(l, None, sinks);
    var l1 := OnStartArray(l);
    var s1 := HandlerState(l1, None, sinks);
    SearchItems(reports, l1, items, sinks);
    var s2 := HandlerState(l1.(indexed := BumpBy(l1.indexed, Counted(items))), None, CollectItems(reports, l1, items, sinks));
    assert Events(Arr(items)) == [StartArrayEvent] + ItemsEvents(items) + [EndArrayEvent];
    Bracketed(reports, s, StartArrayEvent, ItemsEvents(items), EndArrayEvent, s1, s2);
  }

  /** The members of an object no report's value encloses: a key that
      completes a report's path arms the first such report, which receives
      the member's location with indices and then the member's value; any
      other member is searched in turn. */
  lemma {:induction false} SearchFields(reports: seq<ItemReporter>, l: Location, fs: seq<Field>, sinks: seq<seq<Token>>)
    requires StateOk(reports, HandlerState(l, None, sinks)) && ReportsOk(reports)
    requires GoodFields(fs) && ClearPath(reports, l.objectPath)
    ensures RunHandler(reports, HandlerState(l, None, sinks), FieldsEvents(fs))
            == Some(HandlerState(l.(lastKey := if fs == [] then l.lastKey else ""), None,
                                 CollectFields(reports, l, fs, sinks)))
    decreases fs, 0
  {
    var s := HandlerState(l, None, sinks);
    if fs == [] {
      assert l.(lastKey := l.lastKey) == l;
    } else {
      var k := fs[0].key;
      var v := fs[0].value;
      var lk := l.(lastKey := k);
      var name := IndexedPathToString(l.indexed, k);
      ArmsExactly(reports, l.objectPath, k);
      var found := FirstAt(reports, l.objectPath + [k]);
      var s1 := HandlerState(lk, found, Emitted(sinks, found, KeyName(name)));
      RunHandlerOne(reports, s, KeyEvent(k));
      assert Step(reports, s, KeyEvent(k)) == Some(s1);
      var sinks2;
      if found.Some? {
        var i := found.value;
        assert s1.sinks == Append(sinks, i, [KeyName(name)]);
        MemberValue(reports, i, lk, v, s1.sinks);
        AppendAppend(sinks, i, [KeyName(name)], Tokens(v));
        sinks2 := Append(sinks, i, [KeyName(name)] + Tokens(v));
      } else {
        SearchValue(reports, lk, v, sinks);
        sinks2 := Collect(reports, lk, v, sinks);
      }
      assert RunHandler(reports, s1, Events(v)) == Some(HandlerState(l.(lastKey := ""), None, sinks2));
      SearchFields(reports, l.(lastKey := ""), fs[1..], sinks2);
      assert FieldsEvents(fs) == [KeyEvent(k)] + Events(v) + FieldsEvents(fs[1..]);
      RunHandlerAppend(reports, s, [KeyEvent(k)] + Events(v), FieldsEvents(fs[1..]));
      RunHandlerAppend(reports, s, [KeyEvent(k)], Events(v));
    }
  }

  /** The items of an array no report's value encloses, each searched in
      turn. */
  lemma {:induction false} SearchItems(reports: seq<ItemReporter>, l: Location, items: seq<Doc>, sinks: seq<seq<Token>>)
    requires StateOk(reports, HandlerState(l, None, sinks)) && ReportsOk(reports)
    requires InArray(l) && l.lastKey == "" && GoodItems(items) && ClearPath(reports, l.objectPath)
    ensures RunHandler(reports, HandlerState(l, None, sinks), ItemsEvents(items))
            == Some(HandlerState(l.(indexed := BumpBy(l.indexed, Counted(items))), None,
                                 CollectItems(reports, l, items, sinks)))
    decreases items, 0
  {
    var s := HandlerState(l, None, sinks);
    if items == [] {
      BumpByAdds(l.indexed, 0, 0);
      assert l.(indexed := l.indexed) == l;
      assert ItemsEvents(items) == [] && CollectItems(reports, l, items, sinks) == sinks;
    } else {
      var m := After(l, items[0]);
      var sinks1 := Collect(reports, l, items[0], sinks);
      var s1 := HandlerState(m, None, sinks1);
      SearchValue(reports, l, items[0], sinks);
      RunThen(reports, s, Events(items[0]), ItemsEvents(items[1..]), s1);
      SearchItems(reports, m, items[1..], sinks1);
      ItemsUnfold(reports, l, items, sinks);
    }
  }

  /** The first item, then the rest: the events, the outputs and the final
      index of an array's items. */
  lemma ItemsUnfold(reports: seq<ItemReporter>, l: Location, items: seq<Doc>, sinks: seq<seq<Token>>)
    requires PathTracker.Valid(l) && InArray(l) && l.lastKey == "" && |sinks| == |reports| && items != []
    ensures ItemsEvents(items) == Events(items[0]) + ItemsEvents(items[1..])
    ensures CollectItems(reports, l, items, sinks)
            == CollectItems(reports, After(l, items[0]), items[1..], Collect(reports, l, items[0], sinks))
    ensures var m := After(l, items[0]);
            m.(indexed := BumpBy(m.indexed, Counted(items[1..]))) == l.(indexed := BumpBy(l.indexed, Counted(items)))
  {
    EventsUnfold(items);
    CollectUnfold(reports, l, items, sinks);
    IndexUnfold(l, items);
  }

  lemma EventsUnfold(items: seq<Doc>)
    requires items != []
    ensures ItemsEvents(items) == Events(items[0]) + ItemsEvents(items[1..])
  {
  }

  lemma TokensUnfold(items: seq<Doc>)
    requires items != []
    ensures ItemTokens(items) == Tokens(items[0]) + ItemTokens(items[1..])
  {
  }

  lemma CollectUnfold(reports: seq<ItemReporter>, l: Location, items: seq<Doc>, sinks: seq<seq<Token>>)
    requires PathTracker.Valid(l) && InArray(l) && l.lastKey == "" && |sinks| == |reports| && items != []
    ensures CollectItems(reports, l, items, sinks)
            == CollectItems(reports, After(l, items[0]), items[1..], Collect(reports, l, items[0], sinks))
  {
  }

  lemma IndexUnfold(l: Location, items: seq<Doc>)
    requires PathTracker.Valid(l) && InArray(l) && l.lastKey == "" && items != []
    ensures var m := After(l, items[0]);
            m.(indexed := BumpBy(m.indexed, Counted(items[1..]))) == l.(indexed := BumpBy(l.indexed, Counted(items)))
  {
    var first := if items[0].Arr? then 0 else 1;
    BumpByAdds(l.indexed, first, Counted(items[1..]));
    assert After(l, items[0]).indexed == BumpBy(l.indexed, first);
  }

  // ---------------------------------------------------------------------
  // Whole documents
  // ---------------------------------------------------------------------

  /** The routing theorem: a whole document (members not named "" or "[]")
      read from the start with nothing armed leaves the location back at the
      start, nothing armed, and every report's output extended exactly as
      `Collect` says. */
  lemma DocumentRouting(reports: seq<ItemReporter>, d: Doc, sinks: seq<seq<Token>>)
    requires ReportsOk(reports) && |sinks| == |reports| && GoodKeys(d)
    ensures RunHandler(reports, HandlerState(Start, None, sinks), Events(d))
            == Some(HandlerState(Start, None, Collect(reports, Start, d, sinks)))
  {
    var s := HandlerState(Start, None, sinks);
    assert ClearPath(reports, []);
    DocumentReturnsToStart(d);
    match d
    case Atom(v) =>
      RunHandlerOne(reports, s, ScalarEvent(v));
    case Obj(fs) =>
      SearchObject(reports, Start, fs, sinks);
    case Arr(items) =>
      ClearUnderArray(reports, [], "");
      SearchArray(reports, Start, items, sinks);
  }

  /** Every configured report set meets what the routing theorem asks. */
  lemma ConfiguredReportsOk(schemaName: string)
    ensures ReportsOk(ReportsFor(schemaName))
  {
  }

  /** The handler's life for one document: created for the schema, fed every
      event of the document, then closed. Each report's output is an object
      holding exactly what `Collect` routes to it. */
  method SplitDocument(schemaName: string, d: Doc) returns (outputs: seq<seq<Token>>)
    requires GoodKeys(d)
    ensures |outputs| == |ReportsFor(schemaName)|
    ensures forall i :: 0 <= i < |outputs| ==>
              outputs[i] == Collect(ReportsFor(schemaName), Start, d, seq(|ReportsFor(schemaName)|, _ => [StartObj]))[i] + [EndObj]
  {
    var h := new MessageHandler(schemaName);
    ConfiguredReportsOk(schemaName);
    DocumentRouting(h.reports, d, h.sinks);
    HandleAll(h, Events(d));
    h.CleanupWriter();
    outputs := h.sinks;
  }
}
