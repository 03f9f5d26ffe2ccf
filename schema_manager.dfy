/** The schema manager of the command-line tool: it checks out a tagged
    version of the schema repository and hands out schema files, cached per
    schema name, version and strictness; a strict schema has its objects
    closed against additional properties. */
module SchemaManagement {
  import opened Wrappers
  import opened Strings
  import opened JsonValues

  // ---------------------------------------------------------------------
  // makeSchemaStrict
  // ---------------------------------------------------------------------

  const AdditionalProperties: string := "additionalProperties"
  const Definitions: string := "definitions"

  /** The TypeError thrown when a property is set on null, and the one that
      strict-mode code throws when a property is set on a primitive. The
      second is simplified: the engine's own text also names the primitive
      value, which the model does not carry. */
  const SetOnNull: string := "TypeError: Cannot set properties of null (setting 'additionalProperties')"
  const SetOnPrimitive: string := "TypeError: Cannot create property 'additionalProperties' on a primitive"

  /** `value.additionalProperties = false` for one value, as the written
      document sees it: an object gains (or updates) the member, an array
      takes a named property that `JSON.stringify` never writes, and null or
      a primitive throws. */
  function MarkClosed(v: Json): (r: Result<Json>)
  {
    match v
    case JObject(ms) => Ok(JObject(SetMember(ms, AdditionalProperties, JBool(false))))
    case JArray(_) => Ok(v)
    case JNull => Err(SetOnNull)
    case _ => Err(SetOnPrimitive)
  }

  /** Closing succeeds exactly on objects and arrays; an object ends up with
      `additionalProperties` false and every other member as it was. */
  lemma MarkClosedEffect(v: Json, k: string)
    ensures MarkClosed(v).Ok? <==> v.JObject? || v.JArray?
    ensures v.JObject? ==>
              MarkClosed(v).value.JObject?
              && Get(MarkClosed(v).value.members, AdditionalProperties) == Some(JBool(false))
    ensures v.JObject? && k != AdditionalProperties ==> Get(MarkClosed(v).value.members, k) == Get(v.members, k)
  {
    if v.JObject? && k != AdditionalProperties {
      SetMemberKeepsOthers(v.members, AdditionalProperties, JBool(false), k);
    }
  }

  /** The loop over `Object.keys(schema.definitions)`: each value in turn,
      stopping at the first one that throws. */
  function CloseAll(vs: seq<Json>): (r: Result<seq<Json>>)
    ensures r.Ok? ==> |r.value| == |vs|
    decreases |vs|
  {
    if vs == [] then Ok([])
    else match CloseAll(vs[..|vs| - 1])
      case Err(e) => Err(e)
      case Ok(done) =>
        match MarkClosed(vs[|vs| - 1])
        case Err(e) => Err(e)
        case Ok(v) => Ok(done + [v])
  }

  /** The loop succeeds exactly when every value can be closed, and then
      holds each value closed, in order. */
  lemma {:induction false} CloseAllEach(vs: seq<Json>)
    ensures CloseAll(vs).Ok? <==> forall i :: 0 <= i < |vs| ==> MarkClosed(vs[i]).Ok?
    ensures CloseAll(vs).Ok? ==> forall i :: 0 <= i < |vs| ==> CloseAll(vs).value[i] == MarkClosed(vs[i]).value
    decreases |vs|
  {
    if vs != [] {
      var init := vs[..|vs| - 1];
      CloseAllEach(init);
      assert forall i :: 0 <= i < |init| ==> init[i] == vs[i];
    }
  }

  /** Where the loop succeeds, its `i`-th value is the `i`-th input closed. */
  lemma {:induction false} CloseAllAt(vs: seq<Json>, i: nat)
    requires CloseAll(vs).Ok? && i < |vs|
    ensures MarkClosed(vs[i]) == Ok(CloseAll(vs).value[i])
    decreases |vs|
  {
    var init := vs[..|vs| - 1];
    var done := CloseAll(init).value;
    assert CloseAll(vs).value == done + [MarkClosed(vs[|vs| - 1]).value];
    if i < |vs| - 1 {
      assert init[i] == vs[i];
      CloseAllAt(init, i);
    }
  }

  /** A value that throws ends the loop with its error, whatever follows. */
  lemma {:induction false} CloseAllStops(vs: seq<Json>, i: nat)
    requires i < |vs| && CloseAll(vs[..i]).Ok? && MarkClosed(vs[i]).Err?
    ensures CloseAll(vs) == Err(MarkClosed(vs[i]).reason)
    decreases |vs|
  {
    var init := vs[..|vs| - 1];
    if i == |vs| - 1 {
      assert init == vs[..i];
    } else {
      assert init[..i] == vs[..i] && init[i] == vs[i];
      CloseAllStops(init, i);
    }
  }

  function Values(ms: seq<Member>): (r: seq<Json>)
    ensures |r| == |ms| && forall i :: 0 <= i < |ms| ==> r[i] == ms[i].value
  {
    if ms == [] then [] else [ms[0].value] + Values(ms[1..])
  }

  /** The members with their values replaced, names and order kept. */
  function WithValues(ms: seq<Member>, vs: seq<Json>): (r: seq<Member>)
    requires |vs| == |ms|
    ensures |r| == |ms| && forall i :: 0 <= i < |ms| ==> r[i] == Member(ms[i].name, vs[i])
  {
    if ms == [] then [] else [Member(ms[0].name, vs[0])] + WithValues(ms[1..], vs[1..])
  }

  /** Replacing the values again by the same values changes nothing. */
  lemma {:induction false} ReplaceValuesAgain(ms: seq<Member>, vs: seq<Json>)
    requires |vs| == |ms|
    ensures Values(WithValues(ms, vs)) == vs
    ensures WithValues(WithValues(ms, vs), vs) == WithValues(ms, vs)
  {
    if ms != [] {
      ReplaceValuesAgain(ms[1..], vs[1..]);
    }
  }

  /** The document `makeSchemaStrict` leaves behind (or the error it throws):
      an object gets `additionalProperties` false, and so does every direct
      value of an object or array under `definitions`; null throws; any
      other value is left as it is. */
  function StrictSchema(schema: Json): Result<Json>
  {
    match schema
    case JNull => Err(SetOnNull)
    case JObject(ms) => StrictObject(ms)
    case _ => Ok(schema)
  }

  /** The object case: the top-level member first, then `definitions`. */
  function StrictObject(ms: seq<Member>): Result<Json>
  {
      var top := SetMember(ms, AdditionalProperties, JBool(false));
      match Get(top, Definitions)
      case Some(JObject(dms)) =>
        (match CloseAll(Values(dms))
         case Err(e) => Err(e)
         case Ok(vs) => Ok(JObject(SetMember(top, Definitions, JObject(WithValues(dms, vs))))))
      case Some(JArray(items)) =>
        (match CloseAll(items)
         case Err(e) => Err(e)
         case Ok(vs) => Ok(JObject(SetMember(top, Definitions, JArray(vs)))))
      case _ => Ok(JObject(top))
  }

  /** `makeSchemaStrict` on the parsed schema: set the top-level member,
      then, when `definitions` is an object (or array), close each of its
      values in turn. */
  method MakeSchemaStrict(schema: Json) returns (r: Result<Json>)
    ensures r == StrictSchema(schema)
  {
    if schema.JNull? {
      return Err(SetOnNull);
    }
    if !schema.JObject? {
      return Ok(schema);
    }
    var top := SetMember(schema.members, AdditionalProperties, JBool(false));
    var definitions := Get(top, Definitions);
    if definitions.Some? && definitions.value.JObject? {
      var dms := definitions.value.members;
      var closed := CloseEach(Values(dms));
      if closed.Err? {
        return Err(closed.reason);
      }
      r := Ok(JObject(SetMember(top, Definitions, JObject(WithValues(dms, closed.value)))));
    } else if definitions.Some? && definitions.value.JArray? {
      var closed := CloseEach(definitions.value.items);
      if closed.Err? {
        return Err(closed.reason);
      }
      r := Ok(JObject(SetMember(top, Definitions, JArray(closed.value))));
    } else {
      r := Ok(JObject(top));
    }
  }

  /** The `for` loop over the definitions' keys. */
  method CloseEach(vs: seq<Json>) returns (r: Result<seq<Json>>)
    ensures r == CloseAll(vs)
  {
    var done: seq<Json> := [];
    for i := 0 to |vs|
      invariant CloseAll(vs[..i]) == Ok(done)
    {
      assert vs[..i + 1][..i] == vs[..i];
      var c := MarkClosed(vs[i]);
      if c.Err? {
        CloseAllStops(vs, i);
        return Err(c.reason);
      }
      done := done + [c.value];
    }
    assert vs[..|vs|] == vs;
    r := Ok(done);
  }

  /** Only null makes the top level throw; a value that is neither null nor
      an object is left exactly as it is. */
  lemma StrictNonObject(schema: Json)
    requires !schema.JObject?
    ensures StrictSchema(schema).Err? <==> schema.JNull?
    ensures !schema.JNull? ==> StrictSchema(schema) == Ok(schema)
  {
  }

  /** On an object, the result is an object whose `additionalProperties` is
      false and whose members other than `additionalProperties` and
      `definitions` are those of the input. */
  lemma StrictClosesTop(ms: seq<Member>, k: string)
    requires StrictSchema(JObject(ms)).Ok?
    ensures StrictSchema(JObject(ms)).value.JObject?
    ensures Get(StrictSchema(JObject(ms)).value.members, AdditionalProperties) == Some(JBool(false))
    ensures k != AdditionalProperties && k != Definitions ==>
              Get(StrictSchema(JObject(ms)).value.members, k) == Get(ms, k)
  {
    var top := SetMember(ms, AdditionalProperties, JBool(false));
    assert AdditionalProperties[0] != Definitions[0];
    if k != AdditionalProperties {
      SetMemberKeepsOthers(ms, AdditionalProperties, JBool(false), k);
    }
    match Get(top, Definitions)
    case Some(JObject(dms)) =>
      var d := JObject(WithValues(dms, CloseAll(Values(dms)).value));
      ReplacedDefinitionsKeep(top, d, k);
    case Some(JArray(items)) =>
      var d := JArray(CloseAll(items).value);
      ReplacedDefinitionsKeep(top, d, k);
    case _ =>
  }

  /** Replacing `definitions` keeps `additionalProperties` and every other
      member. */
  lemma ReplacedDefinitionsKeep(top: seq<Member>, d: Json, k: string)
    requires AdditionalProperties != Definitions
    ensures Get(SetMember(top, Definitions, d), AdditionalProperties) == Get(top, AdditionalProperties)
    ensures k != Definitions ==> Get(SetMember(top, Definitions, d), k) == Get(top, k)
  {
    SetMemberKeepsOthers(top, Definitions, d, AdditionalProperties);
    if k != Definitions {
      SetMemberKeepsOthers(top, Definitions, d, k);
    }
  }

  /** The result's `definitions` as the code leaves it. */
  function ClosedDefinitions(ms: seq<Member>): Option<Json>
    requires StrictSchema(JObject(ms)).Ok?
  {
    Get(StrictSchema(JObject(ms)).value.members, Definitions)
  }

  /** An object under `definitions` keeps its names in order, and each of its
      values is closed (objects get `additionalProperties` false, nothing
      deeper changes); any other `definitions` value is left as it is. */
  lemma StrictClosesDefinitions(ms: seq<Member>)
    requires StrictSchema(JObject(ms)).Ok?
    ensures Get(ms, Definitions).Some? && Get(ms, Definitions).value.JObject? ==>
              var dms := Get(ms, Definitions).value.members;
              var out := ClosedDefinitions(ms);
              out.Some? && out.value.JObject? && Names(out.value.members) == Names(dms)
              && forall i :: 0 <= i < |dms| ==>
                   MarkClosed(dms[i].value).Ok? && out.value.members[i].value == MarkClosed(dms[i].value).value
    ensures Get(ms, Definitions).Some? && Get(ms, Definitions).value.JArray? ==>
              var items := Get(ms, Definitions).value.items;
              var out := ClosedDefinitions(ms);
              out.Some? && out.value.JArray? && |out.value.items| == |items|
              && forall i :: 0 <= i < |items| ==>
                   MarkClosed(items[i]).Ok? && out.value.items[i] == MarkClosed(items[i]).value
    ensures Get(ms, Definitions).None? || !(Get(ms, Definitions).value.JObject? || Get(ms, Definitions).value.JArray?) ==>
              ClosedDefinitions(ms) == Get(ms, Definitions)
  {
    assert AdditionalProperties[0] != Definitions[0];
    SetMemberKeepsOthers(ms, AdditionalProperties, JBool(false), Definitions);
    match Get(ms, Definitions)
    case Some(JObject(dms)) =>
      ClosedDefinitionsObject(ms, dms);
    case Some(JArray(items)) =>
      ClosedDefinitionsArray(ms, items);
    case _ =>
  }

  lemma ClosedDefinitionsObject(ms: seq<Member>, dms: seq<Member>)
    requires Get(SetMember(ms, AdditionalProperties, JBool(false)), Definitions) == Some(JObject(dms))
    requires StrictObject(ms).Ok?
    ensures StrictObject(ms).value.JObject?
    ensures var out := Get(StrictObject(ms).value.members, Definitions);
            out.Some? && out.value.JObject? && Names(out.value.members) == Names(dms)
            && forall i :: 0 <= i < |dms| ==>
                 MarkClosed(dms[i].value).Ok? && out.value.members[i].value == MarkClosed(dms[i].value).value
  {
    var top := SetMember(ms, AdditionalProperties, JBool(false));
    var vs := CloseAll(Values(dms)).value;
    assert StrictObject(ms) == Ok(JObject(SetMember(top, Definitions, JObject(WithValues(dms, vs)))));
    ClosedMembers(dms, vs);
  }

  /** Closing the values of an object keeps its names, in order, and closes
      each value. */
  lemma ClosedMembers(dms: seq<Member>, vs: seq<Json>)
    requires CloseAll(Values(dms)) == Ok(vs)
    ensures |vs| == |dms| && Names(WithValues(dms, vs)) == Names(dms)
    ensures forall i :: 0 <= i < |dms| ==> MarkClosed(dms[i].value) == Ok(vs[i])
  {
    var vals := Values(dms);
    assert |vs| == |vals|;
    forall i | 0 <= i < |dms|
      ensures MarkClosed(dms[i].value) == Ok(vs[i])
    {
      CloseAllAt(vals, i);
    }
    var out := WithValues(dms, vs);
    assert Names(out) == Names(dms);
  }

  lemma ClosedDefinitionsArray(ms: seq<Member>, items: seq<Json>)
    requires Get(SetMember(ms, AdditionalProperties, JBool(false)), Definitions) == Some(JArray(items))
    requires StrictObject(ms).Ok?
    ensures StrictObject(ms).value.JObject?
    ensures var out := Get(StrictObject(ms).value.members, Definitions);
            out.Some? && out.value.JArray? && |out.value.items| == |items|
            && forall i :: 0 <= i < |items| ==>
                 MarkClosed(items[i]).Ok? && out.value.items[i] == MarkClosed(items[i]).value
  {
    var top := SetMember(ms, AdditionalProperties, JBool(false));
    CloseAllEach(items);
    assert StrictObject(ms) == Ok(JObject(SetMember(top, Definitions, JArray(CloseAll(items).value))));
  }

  /** `makeSchemaStrict` throws exactly on null and on a `definitions` object
      or array holding null or a primitive. */
  lemma StrictFails(ms: seq<Member>)
    ensures StrictSchema(JObject(ms)).Err? <==>
              (Get(ms, Definitions).Some? && Get(ms, Definitions).value.JObject?
               && exists i :: 0 <= i < |Get(ms, Definitions).value.members|
                    && !MarkClosed(Get(ms, Definitions).value.members[i].value).Ok?)
              || (Get(ms, Definitions).Some? && Get(ms, Definitions).value.JArray?
                  && exists i :: 0 <= i < |Get(ms, Definitions).value.items|
                       && !MarkClosed(Get(ms, Definitions).value.items[i]).Ok?)
  {
    assert AdditionalProperties[0] != Definitions[0];
    SetMemberKeepsOthers(ms, AdditionalProperties, JBool(false), Definitions);
    match Get(ms, Definitions)
    case Some(JObject(dms)) =>
      StrictFailsObject(ms, dms);
    case Some(JArray(items)) =>
      StrictFailsArray(ms, items);
    case _ =>
  }

  lemma StrictFailsObject(ms: seq<Member>, dms: seq<Member>)
    requires Get(SetMember(ms, AdditionalProperties, JBool(false)), Definitions) == Some(JObject(dms))
    ensures StrictObject(ms).Err? <==> exists i :: 0 <= i < |dms| && !MarkClosed(dms[i].value).Ok?
  {
    CloseAllEach(Values(dms));
  }

  lemma StrictFailsArray(ms: seq<Member>, items: seq<Json>)
    requires Get(SetMember(ms, AdditionalProperties, JBool(false)), Definitions) == Some(JArray(items))
    ensures StrictObject(ms).Err? <==> exists i :: 0 <= i < |items| && !MarkClosed(items[i]).Ok?
  {
    CloseAllEach(items);
  }

  /** Setting a member to the value it already has changes nothing. */
  lemma {:induction false} SetMemberSame(ms: seq<Member>, name: string, v: Json)
    requires Get(ms, name) == Some(v)
    ensures SetMember(ms, name, v) == ms
  {
    if ms[0].name != name {
      SetMemberSame(ms[1..], name, v);
    }
  }

  lemma MarkClosedTwice(v: Json)
    requires MarkClosed(v).Ok?
    ensures MarkClosed(MarkClosed(v).value) == MarkClosed(v)
  {
    if v.JObject? {
      MarkClosedEffect(v, AdditionalProperties);
      SetMemberSame(MarkClosed(v).value.members, AdditionalProperties, JBool(false));
    }
  }

  /** Closing values that are already closed leaves them as they are. */
  lemma CloseAllTwice(vs: seq<Json>)
    requires CloseAll(vs).Ok?
    ensures CloseAll(CloseAll(vs).value) == CloseAll(vs)
  {
    var ws := CloseAll(vs).value;
    CloseAllEach(vs);
    CloseAllEach(ws);
    forall i | 0 <= i < |ws|
      ensures MarkClosed(ws[i]).Ok? && MarkClosed(ws[i]).value == ws[i]
    {
      MarkClosedTwice(vs[i]);
    }
    assert CloseAll(ws).value == ws;
  }

  /** A strict object whose `definitions` was an object: closing it again
      finds every definition closed already. */
  lemma StrictObjectTwiceDefinitionsObject(ms: seq<Member>, dms: seq<Member>)
    requires Get(SetMember(ms, AdditionalProperties, JBool(false)), Definitions) == Some(JObject(dms))
    requires StrictObject(ms).Ok?
    ensures StrictObject(ms).value.JObject?
    ensures StrictObject(StrictObject(ms).value.members) == StrictObject(ms)
  {
    var top := SetMember(ms, AdditionalProperties, JBool(false));
    var vs := CloseAll(Values(dms)).value;
    var out := WithValues(dms, vs);
    var rm := SetMember(top, Definitions, JObject(out));
    assert StrictObject(ms) == Ok(JObject(rm));
    assert AdditionalProperties[0] != Definitions[0];
    ReplacedDefinitionsKeep(top, JObject(out), AdditionalProperties);
    SetMemberSame(rm, AdditionalProperties, JBool(false));
    CloseAllTwice(Values(dms));
    ReplaceValuesAgain(dms, vs);
    SetMemberSame(rm, Definitions, JObject(out));
  }

  /** The same when `definitions` was an array. */
  lemma StrictObjectTwiceDefinitionsArray(ms: seq<Member>, items: seq<Json>)
    requires Get(SetMember(ms, AdditionalProperties, JBool(false)), Definitions) == Some(JArray(items))
    requires StrictObject(ms).Ok?
    ensures StrictObject(ms).value.JObject?
    ensures StrictObject(StrictObject(ms).value.members) == StrictObject(ms)
  {
    var top := SetMember(ms, AdditionalProperties, JBool(false));
    var vs := CloseAll(items).value;
    var rm := SetMember(top, Definitions, JArray(vs));
    assert StrictObject(ms) == Ok(JObject(rm));
    assert AdditionalProperties[0] != Definitions[0];
    ReplacedDefinitionsKeep(top, JArray(vs), AdditionalProperties);
    SetMemberSame(rm, AdditionalProperties, JBool(false));
    CloseAllTwice(items);
    SetMemberSame(rm, Definitions, JArray(vs));
  }

  /** The same when `definitions` is missing or neither object nor array. */
  lemma StrictObjectTwicePlain(ms: seq<Member>)
    requires var d := Get(SetMember(ms, AdditionalProperties, JBool(false)), Definitions);
             d.None? || !(d.value.JObject? || d.value.JArray?)
    ensures StrictObject(ms).Ok? && StrictObject(ms).value.JObject?
    ensures StrictObject(StrictObject(ms).value.members) == StrictObject(ms)
  {
    var top := SetMember(ms, AdditionalProperties, JBool(false));
    assert StrictObject(ms) == Ok(JObject(top));
    SetMemberSame(top, AdditionalProperties, JBool(false));
  }

  /** Making a strict schema strict again changes nothing. */
  lemma StrictIdempotent(schema: Json)
    requires StrictSchema(schema).Ok?
    ensures StrictSchema(StrictSchema(schema).value) == StrictSchema(schema)
  {
    if schema.JObject? {
      var ms := schema.members;
      var top := SetMember(ms, AdditionalProperties, JBool(false));
      match Get(top, Definitions)
      case Some(JObject(dms)) =>
        StrictObjectTwiceDefinitionsObject(ms, dms);
      case Some(JArray(items)) =>
        StrictObjectTwiceDefinitionsArray(ms, items);
      case _ =>
        StrictObjectTwicePlain(ms);
    }
  }

  // ---------------------------------------------------------------------
  // Tag listing
  // ---------------------------------------------------------------------

  function TrimAll(ps: seq<string>): (r: seq<string>)
    ensures |r| == |ps| && forall i :: 0 <= i < |ps| ==> r[i] == Trim(ps[i])
  {
    if ps == [] then [] else [Trim(ps[0])] + TrimAll(ps[1..])
  }

  /** `filter(t => t)`: the non-empty strings, in order. */
  function NonEmpty(ps: seq<string>): seq<string>
  {
    if ps == [] then [] else (if ps[0] == [] then [] else [ps[0]]) + NonEmpty(ps[1..])
  }

  lemma {:induction false} NonEmptyKeeps(ps: seq<string>)
    ensures forall t :: t in NonEmpty(ps) ==> t in ps && t != []
  {
    if ps != [] {
      NonEmptyKeeps(ps[1..]);
    }
  }

  /** The tags in the output of `git tag --list`: its lines, trimmed, without
      the empty ones, in order. */
  function ParseTags(stdout: string): seq<string>
  {
    NonEmpty(TrimAll(Split(stdout, '\n')))
  }

  /** Every tag read is non-empty and has no surrounding white space. */
  lemma ParseTagsClean(stdout: string)
    ensures forall t :: t in ParseTags(stdout) ==> t != [] && Trimmed(t)
  {
    var lines := TrimAll(Split(stdout, '\n'));
    NonEmptyKeeps(lines);
    forall t | t in lines
      ensures Trimmed(t)
    {
      var i :| 0 <= i < |lines| && lines[i] == t;
    }
  }

  /** What `git tag --list` prints: each tag on a line of its own. */
  function TagListing(tags: seq<string>): string
  {
    JoinWith(tags + [""], "\n")
  }

  predicate PlainTag(t: string)
  {
    t != [] && Trimmed(t) && '\n' !in t
  }

  lemma {:induction false} TrimAllTrimmed(ps: seq<string>)
    requires forall p :: p in ps ==> Trimmed(p)
    ensures TrimAll(ps) == ps
  {
    if ps != [] {
      TrimTrimmed(ps[0]);
      TrimAllTrimmed(ps[1..]);
    }
  }

  lemma {:induction false} NonEmptyDropsBlankLine(tags: seq<string>)
    requires forall t :: t in tags ==> t != []
    ensures NonEmpty(tags + [""]) == tags
  {
    if tags != [] {
      var lines := tags + [""];
      assert tags[0] in tags;
      assert lines[0] == tags[0] && lines[0] != [];
      assert lines[1..] == tags[1..] + [""];
      assert forall t :: t in tags[1..] ==> t in tags;
      NonEmptyDropsBlankLine(tags[1..]);
      assert NonEmpty(lines) == [tags[0]] + NonEmpty(tags[1..] + [""]);
      assert [tags[0]] + tags[1..] == tags;
    } else {
      assert [""][1..] == [];
    }
  }

  /** Reading back a listing gives the listed tags, in order. */
  lemma ParseTagListing(tags: seq<string>)
    requires forall t :: t in tags ==> PlainTag(t)
    ensures ParseTags(TagListing(tags)) == tags
  {
    var lines := tags + [""];
    assert forall p :: p in lines ==> '\n' !in p && Trimmed(p);
    SplitJoin(lines, '\n');
    TrimAllTrimmed(lines);
    NonEmptyDropsBlankLine(tags);
  }

  // ---------------------------------------------------------------------
  // Cache naming
  // ---------------------------------------------------------------------

  /** A template literal writes a missing version as "undefined". */
  function VersionText(version: Option<string>): string
  {
    if version.Some? then version.value else "undefined"
  }

  function Strictness(strict: bool): string
  {
    if strict then "strict" else "loose"
  }

  /** What follows the version: `-strict.json` or `-loose.json`. */
  function StrictnessSuffix(strict: bool): string
  {
    "-" + Strictness(strict) + ".json"
  }

  /** `<name>-<version>-<strict|loose>.json`. */
  function CacheFileName(schemaName: string, version: Option<string>, strict: bool): string
  {
    schemaName + "-" + VersionText(version) + StrictnessSuffix(strict)
  }

  /** The two suffixes differ ten characters from the end, whatever comes
      before them. */
  lemma SuffixTellsStrictness(v1: string, v2: string, s1: bool, s2: bool)
    requires v1 + StrictnessSuffix(s1) == v2 + StrictnessSuffix(s2)
    ensures s1 == s2
  {
    var m1 := v1 + StrictnessSuffix(s1);
    var m2 := v2 + StrictnessSuffix(s2);
    var t1 := StrictnessSuffix(s1);
    var t2 := StrictnessSuffix(s2);
    assert m1[|m1| - 10] == t1[|t1| - 10];
    assert m2[|m2| - 10] == t2[|t2| - 10];
    assert StrictnessSuffix(true)[2] == 't';
    assert StrictnessSuffix(false)[1] == 'l';
  }

  /** The cache name tells strict from loose whatever the schema and
      version, and for one schema it tells the versions apart: a cached
      schema is only ever handed out for the request it was made for. */
  lemma CacheFileNameDistinct(schemaName: string, v1: Option<string>, s1: bool, v2: Option<string>, s2: bool)
    requires CacheFileName(schemaName, v1, s1) == CacheFileName(schemaName, v2, s2)
    ensures s1 == s2 && VersionText(v1) == VersionText(v2)
  {
    var head := schemaName + "-";
    ConcatAssoc(head, VersionText(v1), StrictnessSuffix(s1));
    ConcatAssoc(head, VersionText(v2), StrictnessSuffix(s2));
    CancelPrefix(head, VersionText(v1) + StrictnessSuffix(s1), VersionText(v2) + StrictnessSuffix(s2));
    SuffixTellsStrictness(VersionText(v1), VersionText(v2), s1, s2);
    CancelSuffix(VersionText(v1), VersionText(v2), StrictnessSuffix(s1));
  }

  /** Where a file of a directory lives (separator-joined; `path.join`'s
      normalisation is not modelled). */
  function PathIn(directory: string, name: string): string
  {
    directory + "/" + name
  }

  /** `schemas/<name>/<name>.json` in the repository. */
  function RepoSchemaPath(repoDirectory: string, schemaName: string): string
  {
    PathIn(PathIn(PathIn(repoDirectory, "schemas"), schemaName), schemaName + ".json")
  }

  /** The git commands the manager runs. */
  datatype GitCommand =
    | ListTags(repoDirectory: string)
    | Checkout(repoDirectory: string, version: string)

  /** The command line as the shell sees it. */
  function CommandLine(c: GitCommand): string
  {
    match c
    case ListTags(repo) => "git -C \"" + repo + "\" tag --list --sort=taggerdate"
    case Checkout(repo, version) => "git -C \"" + repo + "\" checkout " + version
  }

  /** The one message `useVersion` prints: the version asked for is not a
      tag, and these are the tags. */
  datatype Notice = UnknownVersion(version: string, available: seq<string>)

  function NoticeText(n: Notice): string
  {
    "Could not find a schema version named \"" + n.version + "\". Available versions are:\n"
    + JoinWith(n.available, "\n")
  }

  /** Simplified error texts: the runtime's own messages also name the path
      (for a missing file) and the offending position (for bad JSON); the
      model keeps only which kind of error is thrown. */
  const FileNotFound: string := "ENOENT: no such file or directory"
  const NotJson: string := "SyntaxError: not valid JSON"

  // ---------------------------------------------------------------------
  // SchemaManager
  // ---------------------------------------------------------------------

  /** The manager, with the file system it reads and writes as a map from
      path to text, and the commands it runs and lines it prints as logs. */
  class SchemaManager {
    /** The checked-out tag; `None` until one has been chosen. */
    var version: Option<string>
    const repoDirectory: string
    /** The temporary directory that holds the cached schemas. */
    const storageDirectory: string
    var files: map<string, string>
    var commands: seq<GitCommand>
    var console: seq<Notice>

    constructor(repoDirectory: string, storageDirectory: string, files: map<string, string>)
      ensures this.repoDirectory == repoDirectory && this.storageDirectory == storageDirectory
      ensures this.files == files && version == None && commands == [] && console == []
    {
      this.repoDirectory := repoDirectory;
      this.storageDirectory := storageDirectory;
      this.files := files;
      version := None;
      commands := [];
      console := [];
    }

    /** `useVersion`: nothing to do for the current version; otherwise list
        the tags (`tagOutput` is what git prints) and check out the version
        when it is one of them, or print the tags when it is not. */
    method UseVersion(v: string, tagOutput: string) returns (found: bool)
      modifies this
      ensures files == old(files)
      ensures old(version) == Some(v) ==>
                found && version == old(version) && commands == old(commands) && console == old(console)
      ensures old(version) != Some(v) ==>
                found == (v in ParseTags(tagOutput))
                && version == (if found then Some(v) else old(version))
                && commands == old(commands) + [ListTags(repoDirectory)]
                                + (if found then [Checkout(repoDirectory, v)] else [])
                && console == old(console) + (if found then [] else [UnknownVersion(v, ParseTags(tagOutput))])
    {
      if version == Some(v) {
        return true;
      }
      var listed := commands + [ListTags(repoDirectory)];
      var tags := ParseTags(tagOutput);
      if v in tags {
        commands := listed + [Checkout(repoDirectory, v)];
        version := Some(v);
        found := true;
      } else {
        commands := listed;
        console := console + [UnknownVersion(v, tags)];
        found := false;
      }
    }

    /** The cache path for a schema at the current version. */
    function CachePath(schemaName: string, strict: bool): string
      reads this
    {
      PathIn(storageDirectory, CacheFileName(schemaName, version, strict))
    }

    /** `useSchema`: hand out the cached file when there is one; otherwise
        read the schema from the repository and write it to the cache, made
        strict (through `parse` and `stringify`, the JSON library) when
        `strict` is set and verbatim when it is not. Reading a missing
        file, parsing text that is not JSON and closing a value that cannot
        be closed all throw, and nothing is written. */
    method UseSchema(schemaName: string, strict: bool, parse: string -> Option<Json>, stringify: Json -> string)
      returns (r: Result<string>)
      modifies this
      ensures version == old(version) && commands == old(commands) && console == old(console)
      ensures var cache := old(CachePath(schemaName, strict));
              var source := RepoSchemaPath(repoDirectory, schemaName);
              if cache in old(files) then r == Ok(cache) && files == old(files)
              else if source !in old(files) then r == Err(FileNotFound) && files == old(files)
              else if !strict then r == Ok(cache) && files == old(files)[cache := old(files)[source]]
              else match parse(old(files)[source])
                   case None => r == Err(NotJson) && files == old(files)
                   case Some(doc) =>
                     match StrictSchema(doc)
                     case Err(e) => r == Err(e) && files == old(files)
                     case Ok(s) => r == Ok(cache) && files == old(files)[cache := stringify(s)]
    {
      var schemaPath := CachePath(schemaName, strict);
      if schemaPath in files {
        return Ok(schemaPath);
      }
      var sourcePath := RepoSchemaPath(repoDirectory, schemaName);
      if sourcePath !in files {
        return Err(FileNotFound);
      }
      var schemaContents := files[sourcePath];
      if strict {
        var parsed := parse(schemaContents);
        if parsed.None? {
          return Err(NotJson);
        }
        var modified := MakeSchemaStrict(parsed.value);
        if modified.Err? {
          return Err(modified.reason);
        }
        schemaContents := stringify(modified.value);
      }
      files := files[schemaPath := schemaContents];
      r := Ok(schemaPath);
    }
  }

  /** Asking twice for the same schema writes it once: the second request is
      served from the cache and changes no file. */
  method UseSchemaTwice(m: SchemaManager, schemaName: string, strict: bool,
                        parse: string -> Option<Json>, stringify: Json -> string)
    returns (first: Result<string>, second: Result<string>)
    modifies m
    ensures first.Ok? ==> first.value in m.files
    ensures first.Ok? ==> second == first && m.files == old(m.files)[first.value := m.files[first.value]]
  {
    first := m.UseSchema(schemaName, strict, parse, stringify);
    ghost var afterFirst := m.files;
    second := m.UseSchema(schemaName, strict, parse, stringify);
    assert first.Ok? ==> m.files == afterFirst;
  }
}
