/** JSON values as both parts of the system see them: the error value that
    the schema validator hands to the error printer (a RapidJSON value whose
    objects keep their members in order) and a schema parsed by
    `JSON.parse`. */
module JsonValues {
  import opened Wrappers
  import opened Strings

  /** A JSON value. Integers of every width are `JNumber`; a floating-point
      number is `JDouble` and is only ever carried around, never computed
      with, so it keeps its IEEE-754 bit pattern. */
  datatype Json =
    | JNull
    | JBool(b: bool)
    | JNumber(n: int)
    | JDouble(bits: bv64)
    | JString(s: string)
    | JArray(items: seq<Json>)
    | JObject(members: seq<Member>)

  /** One object member, in document order. */
  datatype Member = Member(name: string, value: Json)

  function Names(ms: seq<Member>): (r: seq<string>)
    ensures |r| == |ms| && forall i :: 0 <= i < |ms| ==> r[i] == ms[i].name
  {
    if ms == [] then [] else [ms[0].name] + Names(ms[1..])
  }

  /** Position of the first member called `name` (RapidJSON's `FindMember`). */
  function FindMember(ms: seq<Member>, name: string): (r: Option<nat>)
    ensures r.Some? ==> r.value < |ms| && ms[r.value].name == name
    ensures r.Some? ==> forall j :: 0 <= j < r.value ==> ms[j].name != name
    ensures r.None? ==> forall j :: 0 <= j < |ms| ==> ms[j].name != name
  {
    if ms == [] then None
    else if ms[0].name == name then Some(0)
    else match FindMember(ms[1..], name)
      case None => None
      case Some(i) => Some(i + 1)
  }

  /** The value of the first member called `name`, if there is one. */
  function Get(ms: seq<Member>, name: string): (r: Option<Json>)
    ensures r.Some? <==> FindMember(ms, name).Some?
    ensures r.Some? ==> r.value == ms[FindMember(ms, name).value].value
  {
    if ms == [] then None
    else if ms[0].name == name then Some(ms[0].value)
    else Get(ms[1..], name)
  }

  /** JavaScript property assignment `obj[name] = v`: an existing property
      keeps its place and takes the new value, a new one goes last. */
  function SetMember(ms: seq<Member>, name: string, v: Json): (r: seq<Member>)
    ensures Get(r, name) == Some(v)
  {
    if ms == [] then [Member(name, v)]
    else if ms[0].name == name then [Member(name, v)] + ms[1..]
    else [ms[0]] + SetMember(ms[1..], name, v)
  }

  /** Every other property reads as before. */
  lemma {:induction false} SetMemberKeepsOthers(ms: seq<Member>, name: string, v: Json, k: string)
    requires k != name
    ensures Get(SetMember(ms, name, v), k) == Get(ms, k)
  {
    if ms != [] && ms[0].name != name {
      var r := SetMember(ms, name, v);
      assert r[1..] == SetMember(ms[1..], name, v);
      SetMemberKeepsOthers(ms[1..], name, v, k);
    }
  }

  /** The property order: unchanged when the name was present, the new name
      last otherwise. */
  lemma {:induction false} SetMemberNames(ms: seq<Member>, name: string, v: Json)
    ensures Names(SetMember(ms, name, v)) == if name in Names(ms) then Names(ms) else Names(ms) + [name]
  {
    if ms != [] {
      NamesCons(ms[0], ms[1..]);
      assert [ms[0]] + ms[1..] == ms;
      var tail := Names(ms[1..]);
      if ms[0].name == name {
        NamesCons(Member(name, v), ms[1..]);
        assert name in Names(ms) by { assert Names(ms)[0] == name; }
      } else {
        SetMemberNames(ms[1..], name, v);
        NamesCons(ms[0], SetMember(ms[1..], name, v));
        assert name in Names(ms) <==> name in tail;
        if name !in tail {
          ConcatAssoc([ms[0].name], tail, [name]);
        }
      }
    }
  }

  lemma NamesCons(m: Member, ms: seq<Member>)
    ensures Names([m] + ms) == [m.name] + Names(ms)
  {
    assert ([m] + ms)[1..] == ms;
  }

}
