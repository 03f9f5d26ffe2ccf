/** The error printer of the schema validator: it walks the error value the
    validator produces (rule name -> error record, or list of records; a
    record may carry child errors under "errors") and prints one block of
    lines per non-empty record, nested rules indented further and labelled
    with the enclosing rule. Output is a sequence of lines; each is written
    followed by a newline. */
module ErrorMessages {
  import opened Wrappers
  import opened Strings
  import opened JsonValues

  /** What the printer takes from the JSON library: the English message
      template of each validation error code, and the stream formatting of a
      double. */
  datatype Library = Library(template: int -> string, showDouble: bv64 -> string)

  // ---------------------------------------------------------------------
  // Rendering inserts
  // ---------------------------------------------------------------------

  /** `GetString`: strings as they are, integers in decimal, booleans as
      `true`/`false`, doubles as the stream prints them; null, arrays and
      objects give the empty string. */
  function GetString(lib: Library, v: Json): (s: string)
    ensures v.JNull? || v.JArray? || v.JObject? ==> s == ""
    ensures v.JBool? ==> s in {"true", "false"} && (s == "true" <==> v.b)
  {
    match v
    case JString(t) => t
    case JDouble(bits) => lib.showDouble(bits)
    case JNumber(n) => IntToDecimal(n)
    case JBool(b) => if b then "true" else "false"
    case _ => ""
  }

  /** A non-negative integer insert reads back as the same number. */
  lemma NumberInsertReadsBack(lib: Library, n: nat)
    ensures AllDigits(GetString(lib, JNumber(n)))
    ensures DecimalValue(GetString(lib, JNumber(n))) == n
  {
    DecimalRoundTrip(n);
  }

  function Renders(lib: Library, items: seq<Json>): (r: seq<string>)
    ensures |r| == |items| && forall i :: 0 <= i < |items| ==> r[i] == GetString(lib, items[i])
  {
    if items == [] then [] else [GetString(lib, items[0])] + Renders(lib, items[1..])
  }

  /** The text that replaces a placeholder: an array's items rendered and
      joined with ",", any other value rendered. */
  function InsertText(lib: Library, v: Json): string
  {
    if v.JArray? then JoinWith(Renders(lib, v.items), ",") else GetString(lib, v)
  }

  /** An array insert splits back, at its commas, into the rendered items,
      in order, as long as no item's rendering contains a comma. */
  lemma ArrayInsertSplitsBack(lib: Library, items: seq<Json>)
    requires 0 < |items|
    requires forall i :: 0 <= i < |items| ==> ',' !in GetString(lib, items[i])
    ensures Split(InsertText(lib, JArray(items)), ',') == Renders(lib, items)
  {
    var r := Renders(lib, items);
    forall p | p in r
      ensures ',' !in p
    {
      var i :| 0 <= i < |r| && r[i] == p;
    }
    SplitJoin(r, ',');
  }

  /** The message of a record: for every member in turn, the first
      occurrence of `%` followed by the member's name is replaced by the
      member's insert text. */
  function Substitute(lib: Library, message: string, ms: seq<Member>): string
    decreases |ms|
  {
    if ms == [] then message
    else Substitute(lib, ReplaceFirst(message, "%" + ms[0].name, InsertText(lib, ms[0].value)), ms[1..])
  }

  /** A template without placeholders is printed as it is, whatever the
      record's members. */
  lemma {:induction false} SubstituteWithoutPlaceholders(lib: Library, message: string, ms: seq<Member>)
    requires '%' !in message
    ensures Substitute(lib, message, ms) == message
  {
    if ms != [] {
      NotFound(message, "%" + ms[0].name);
      SubstituteWithoutPlaceholders(lib, message, ms[1..]);
    }
  }

  /** Only the first occurrence of a placeholder is replaced. */
  lemma FirstPlaceholderReplaced(lib: Library, pre: string, name: string, post: string, v: Json)
    requires '%' !in pre
    ensures Substitute(lib, pre + "%" + name + post, [Member(name, v)]) == pre + InsertText(lib, v) + post
  {
    var pat := "%" + name;
    var s := pre + pat + post;
    assert pre + "%" + name + post == s;
    FoundAfter(pre, pat, post);
    var r := ReplaceFirst(s, pat, InsertText(lib, v));
    assert r == pre + InsertText(lib, v) + post by {
      assert s[..|pre|] == pre;
      assert s[|pre| + |pat|..] == post;
    }
  }

  /** Substituting the members of `a + b` is substituting those of `a`,
      then those of `b` into the result. */
  lemma {:induction false} SubstituteAppend(lib: Library, message: string, a: seq<Member>, b: seq<Member>)
    ensures Substitute(lib, message, a + b) == Substitute(lib, Substitute(lib, message, a), b)
    decreases |a|
  {
    if a == [] {
      assert a + b == b;
    } else {
      assert (a + b)[0] == a[0];
      assert (a + b)[1..] == a[1..] + b;
      SubstituteAppend(lib, ReplaceFirst(message, "%" + a[0].name, InsertText(lib, a[0].value)), a[1..], b);
    }
  }

  /** No `%` in the text is followed by the member's name. */
  predicate PlaceholderAbsent(message: string, name: string)
  {
    forall k :: 0 <= k < |message| && message[k] == '%' ==> !(name <= message[k + 1..])
  }

  /** A member whose placeholder the text does not hold leaves the text as
      it is. */
  lemma AbsentPlaceholderKept(lib: Library, message: string, name: string, v: Json)
    requires PlaceholderAbsent(message, name)
    ensures Substitute(lib, message, [Member(name, v)]) == message
  {
    var pat := "%" + name;
    forall k | 0 <= k
      ensures !OccursAt(message, pat, k)
    {
      if k + |pat| <= |message| {
        var w := message[k..k + |pat|];
        assert w[0] == message[k];
        assert w[1..] == message[k + 1..][..|name|];
        assert pat[1..] == name;
      }
    }
    assert [Member(name, v)][1..] == [];
  }

  // ---------------------------------------------------------------------
  // Well-formed error values
  // ---------------------------------------------------------------------

  predicate IsInt32(n: int) { -0x8000_0000 <= n < 0x8000_0000 }

  /** A non-empty record carries an `int` error code and string instance and
      schema references (the library asserts on anything else). */
  predicate HasRecordFields(ms: seq<Member>)
  {
    && (match Get(ms, "errorCode") case Some(JNumber(n)) => IsInt32(n) case _ => false)
    && (match Get(ms, "instanceRef") case Some(JString(_)) => true case _ => false)
    && (match Get(ms, "schemaRef") case Some(JString(_)) => true case _ => false)
  }

  /** An error value: an object whose members are rule names. */
  predicate ValidReport(v: Json)
    decreases v, 3
  {
    v.JObject? && ValidReportMembers(v.members)
  }

  predicate ValidReportMembers(ms: seq<Member>)
    decreases ms, 2
  {
    ms == [] || (ValidContent(ms[0].value) && ValidReportMembers(ms[1..]))
  }

  /** What a rule name maps to: an array (each item a record), an object (one
      record), or anything else (ignored). */
  predicate ValidContent(v: Json)
    decreases v, 2
  {
    match v
    case JArray(items) => ValidRecords(items)
    case JObject(_) => ValidRecord(v)
    case _ => true
  }

  predicate ValidRecords(items: seq<Json>)
    decreases items, 1
  {
    items == [] || (ValidRecord(items[0]) && ValidRecords(items[1..]))
  }

  /** A record: empty, or with its fields and well-formed child errors. */
  predicate ValidRecord(v: Json)
    decreases v, 1
  {
    && v.JObject?
    && (v.members == [] ||
        (HasRecordFields(v.members) &&
         match FindMember(v.members, "errors")
         case None => true
         case Some(i) => ValidChildren(v.members[i].value)))
  }

  /** Child errors: an array or an object of error values. */
  predicate ValidChildren(v: Json)
    decreases v, 0
  {
    match v
    case JArray(items) => ValidReportItems(items)
    case JObject(ms) => ValidReportValues(ms)
    case _ => true
  }

  predicate ValidReportItems(items: seq<Json>)
    decreases items, 0
  {
    items == [] || (ValidReport(items[0]) && ValidReportItems(items[1..]))
  }

  predicate ValidReportValues(ms: seq<Member>)
    decreases ms, 0
  {
    ms == [] || (ValidReport(ms[0].value) && ValidReportValues(ms[1..]))
  }

  // ---------------------------------------------------------------------
  // Printing
  // ---------------------------------------------------------------------

  /** Two spaces per nesting level. */
  function Indent(depth: nat): (r: string)
    ensures |r| == 2 * depth && forall i :: 0 <= i < |r| ==> r[i] == ' '
  {
    seq(2 * depth, _ => ' ')
  }

  /** Every line is blank or starts with the indentation of `depth`. */
  predicate IndentedBy(lines: seq<string>, depth: nat)
  {
    forall i :: 0 <= i < |lines| ==> lines[i] == "" || Indent(depth) <= lines[i]
  }

  /** Lines indented for a deeper level are indented for this one. */
  lemma IndentedDeeper(lines: seq<string>, depth: nat)
    requires IndentedBy(lines, depth + 1)
    ensures IndentedBy(lines, depth)
  {
    forall i | 0 <= i < |lines| && lines[i] != ""
      ensures Indent(depth) <= lines[i]
    {
      assert Indent(depth) == lines[i][..2 * depth];
    }
  }

  /** One line of a block: the indentation, then the text. */
  function Labelled(depth: nat, text: string): (line: string)
    ensures |line| == 2 * depth + |text| && Indent(depth) <= line
    ensures line[2 * depth..] == text
  {
    var line := Indent(depth) + text;
    assert line[..2 * depth] == Indent(depth);
    line
  }

  /** The lines of one record's block; the context line only when nested. */
  function Block(depth: nat, name: string, message: string, instance: string, schema: string, context: string)
    : (lines: seq<string>)
    ensures IndentedBy(lines, depth)
  {
    var a := Labelled(depth, "Error Name: " + name);
    var b := Labelled(depth, "Message: " + message);
    var c := Labelled(depth, "Instance: " + instance);
    var d := Labelled(depth, "Schema: " + schema);
    if depth > 0 then [a, b, c, d, Labelled(depth, "Context: " + context), ""] else [a, b, c, d, ""]
  }

  /** The block printed for one non-empty record: the message is the error
      code's template with the record's inserts substituted. */
  function RecordLines(lib: Library, name: string, ms: seq<Member>, depth: nat, context: string): (lines: seq<string>)
    requires HasRecordFields(ms)
    ensures IndentedBy(lines, depth)
  {
    var message := Substitute(lib, lib.template(Get(ms, "errorCode").value.n), ms);
    Block(depth, name, message, Get(ms, "instanceRef").value.s, Get(ms, "schemaRef").value.s, context)
  }

  /** `CreateErrorMessages`: the blocks for every rule of an error value, in
      member order. */
  function CreateErrorMessages(lib: Library, errors: Json, depth: nat, context: string): (lines: seq<string>)
    requires ValidReport(errors)
    ensures IndentedBy(lines, depth)
    decreases errors, 3
  {
    RuleErrors(lib, errors.members, depth, context)
  }

  function RuleErrors(lib: Library, ms: seq<Member>, depth: nat, context: string): (lines: seq<string>)
    requires ValidReportMembers(ms)
    ensures IndentedBy(lines, depth)
    decreases ms, 2
  {
    if ms == [] then []
    else ContentErrors(lib, ms[0].name, ms[0].value, depth, context) + RuleErrors(lib, ms[1..], depth, context)
  }

  /** One rule: an array gives a block per record, an object one block, any
      other value nothing. */
  function ContentErrors(lib: Library, name: string, content: Json, depth: nat, context: string): (lines: seq<string>)
    requires ValidContent(content)
    ensures IndentedBy(lines, depth)
    ensures !content.JArray? && !content.JObject? ==> lines == []
    decreases content, 2
  {
    match content
    case JArray(items) => RecordsErrors(lib, name, items, depth, context)
    case JObject(_) => HandleError(lib, name, content, depth, context)
    case _ => []
  }

  function RecordsErrors(lib: Library, name: string, items: seq<Json>, depth: nat, context: string): (lines: seq<string>)
    requires ValidRecords(items)
    ensures IndentedBy(lines, depth)
    decreases items, 1
  {
    if items == [] then []
    else HandleError(lib, name, items[0], depth, context) + RecordsErrors(lib, name, items[1..], depth, context)
  }

  /** `HandleError`: nothing for an empty record; otherwise the record's
      block, then its child errors one level deeper with this rule's name as
      their context. */
  function HandleError(lib: Library, name: string, error: Json, depth: nat, context: string): (lines: seq<string>)
    requires ValidRecord(error)
    ensures IndentedBy(lines, depth)
    ensures lines == [] <==> error.members == []
    decreases error, 1
  {
    if error.members == [] then []
    else
      var nested := NestedErrors(lib, name, error, depth + 1);
      IndentedDeeper(nested, depth);
      RecordLines(lib, name, error.members, depth, context) + nested
  }

  /** The child errors of a non-empty record, if it has an "errors" member. */
  function NestedErrors(lib: Library, parent: string, error: Json, depth: nat): (lines: seq<string>)
    requires ValidRecord(error) && error.members != []
    ensures IndentedBy(lines, depth)
    ensures FindMember(error.members, "errors").None? ==> lines == []
    decreases error, 0
  {
    match FindMember(error.members, "errors")
    case None => []
    case Some(i) => ChildErrors(lib, parent, error.members[i].value, depth)
  }

  /** Child errors: an array's items or an object's member values, each an
      error value printed with the parent rule as context. */
  function ChildErrors(lib: Library, parent: string, children: Json, depth: nat): (lines: seq<string>)
    requires ValidChildren(children)
    ensures IndentedBy(lines, depth)
    decreases children, 0
  {
    match children
    case JArray(items) => ChildItems(lib, parent, items, depth)
    case JObject(ms) => ChildValues(lib, parent, ms, depth)
    case _ => []
  }

  function ChildItems(lib: Library, parent: string, items: seq<Json>, depth: nat): (lines: seq<string>)
    requires ValidReportItems(items)
    ensures IndentedBy(lines, depth)
    decreases items, 0
  {
    if items == [] then []
    else CreateErrorMessages(lib, items[0], depth, parent) + ChildItems(lib, parent, items[1..], depth)
  }

  function ChildValues(lib: Library, parent: string, ms: seq<Member>, depth: nat): (lines: seq<string>)
    requires ValidReportValues(ms)
    ensures IndentedBy(lines, depth)
    decreases ms, 0
  {
    if ms == [] then []
    else CreateErrorMessages(lib, ms[0].value, depth, parent) + ChildValues(lib, parent, ms[1..], depth)
  }

  // ---------------------------------------------------------------------
  // Properties
  // ---------------------------------------------------------------------

  lemma BlockShape(depth: nat, name: string, message: string, instance: string, schema: string, context: string)
    ensures var lines := Block(depth, name, message, instance, schema, context);
      && 5 <= |lines|
      && lines[0] == Indent(depth) + "Error Name: " + name
      && lines[1] == Indent(depth) + "Message: " + message
      && (lines[4] == Indent(depth) + "Context: " + context <==> depth > 0)
  {
    assert (Indent(depth) + "Error Name: ") + name == Indent(depth) + ("Error Name: " + name);
    assert (Indent(depth) + "Message: ") + message == Indent(depth) + ("Message: " + message);
    assert (Indent(depth) + "Context: ") + context == Indent(depth) + ("Context: " + context);
  }

  /** A non-empty record's block names the rule first, then the message,
      and has a context line exactly when it is nested. */
  lemma RecordBlockShape(lib: Library, name: string, error: Json, depth: nat, context: string)
    requires ValidRecord(error) && error.members != []
    ensures var lines := HandleError(lib, name, error, depth, context);
      && 5 <= |lines|
      && lines[0] == Indent(depth) + "Error Name: " + name
      && lines[1] == Indent(depth) + "Message: "
                     + Substitute(lib, lib.template(Get(error.members, "errorCode").value.n), error.members)
      && (lines[4] == Indent(depth) + "Context: " + context <==> depth > 0)
  {
    var ms := error.members;
    var message := Substitute(lib, lib.template(Get(ms, "errorCode").value.n), ms);
    var block := Block(depth, name, message, Get(ms, "instanceRef").value.s, Get(ms, "schemaRef").value.s, context);
    BlockShape(depth, name, message, Get(ms, "instanceRef").value.s, Get(ms, "schemaRef").value.s, context);
    assert RecordLines(lib, name, ms, depth, context) == block;
    var lines := HandleError(lib, name, error, depth, context);
    assert lines == block + NestedErrors(lib, name, error, depth + 1);
    assert lines[0] == block[0] && lines[1] == block[1] && lines[4] == block[4];
  }

  /** The rules of an error value are printed in member order: printing the
      members of two values one after the other is printing their
      concatenation. */
  lemma {:induction false} RulesInOrder(lib: Library, a: seq<Member>, b: seq<Member>, depth: nat, context: string)
    requires ValidReport(JObject(a)) && ValidReport(JObject(b))
    ensures ValidReport(JObject(a + b))
    ensures CreateErrorMessages(lib, JObject(a + b), depth, context)
            == CreateErrorMessages(lib, JObject(a), depth, context) + CreateErrorMessages(lib, JObject(b), depth, context)
  {
    RuleErrorsAppend(lib, a, b, depth, context);
  }

  lemma {:induction false} RuleErrorsAppend(lib: Library, a: seq<Member>, b: seq<Member>, depth: nat, context: string)
    requires ValidReportMembers(a) && ValidReportMembers(b)
    ensures ValidReportMembers(a + b)
    ensures RuleErrors(lib, a + b, depth, context) == RuleErrors(lib, a, depth, context) + RuleErrors(lib, b, depth, context)
  {
    if a == [] {
      assert a + b == b;
    } else {
      assert (a + b)[0] == a[0];
      assert (a + b)[1..] == a[1..] + b;
      RuleErrorsAppend(lib, a[1..], b, depth, context);
    }
  }

  /** The records of one rule are printed in array order. */
  lemma {:induction false} RecordsErrorsAppend(lib: Library, name: string, a: seq<Json>, b: seq<Json>, depth: nat, context: string)
    requires ValidRecords(a) && ValidRecords(b)
    ensures ValidRecords(a + b)
    ensures RecordsErrors(lib, name, a + b, depth, context)
            == RecordsErrors(lib, name, a, depth, context) + RecordsErrors(lib, name, b, depth, context)
  {
    if a == [] {
      assert a + b == b;
    } else {
      HeadTailAppend(a, b);
      RecordsErrorsAppend(lib, name, a[1..], b, depth, context);
    }
  }

  /** Child errors given as an array are printed in array order. */
  lemma {:induction false} ChildItemsAppend(lib: Library, parent: string, a: seq<Json>, b: seq<Json>, depth: nat)
    requires ValidReportItems(a) && ValidReportItems(b)
    ensures ValidReportItems(a + b)
    ensures ChildItems(lib, parent, a + b, depth) == ChildItems(lib, parent, a, depth) + ChildItems(lib, parent, b, depth)
  {
    if a == [] {
      assert a + b == b;
    } else {
      assert (a + b)[0] == a[0];
      assert (a + b)[1..] == a[1..] + b;
      ChildItemsAppend(lib, parent, a[1..], b, depth);
    }
  }

  /** Child errors given as an object are printed in member order. */
  lemma {:induction false} ChildValuesAppend(lib: Library, parent: string, a: seq<Member>, b: seq<Member>, depth: nat)
    requires ValidReportValues(a) && ValidReportValues(b)
    ensures ValidReportValues(a + b)
    ensures ChildValues(lib, parent, a + b, depth) == ChildValues(lib, parent, a, depth) + ChildValues(lib, parent, b, depth)
  {
    if a == [] {
      assert a + b == b;
    } else {
      assert (a + b)[0] == a[0];
      assert (a + b)[1..] == a[1..] + b;
      ChildValuesAppend(lib, parent, a[1..], b, depth);
    }
  }

  /** The values of an object's members, in member order. */
  function MemberValues(ms: seq<Member>): (r: seq<Json>)
    ensures |r| == |ms| && forall i :: 0 <= i < |ms| ==> r[i] == ms[i].value
  {
    if ms == [] then [] else [ms[0].value] + MemberValues(ms[1..])
  }

  /** Child errors given as an object print exactly as the array of its
      member values would: the member names play no part. */
  lemma {:induction false} ObjectChildrenAsArray(lib: Library, parent: string, ms: seq<Member>, depth: nat)
    requires ValidReportValues(ms)
    ensures ValidReportItems(MemberValues(ms))
    ensures ChildErrors(lib, parent, JObject(ms), depth) == ChildErrors(lib, parent, JArray(MemberValues(ms)), depth)
  {
    ValuesAsItems(lib, parent, ms, depth);
  }

  lemma {:induction false} ValuesAsItems(lib: Library, parent: string, ms: seq<Member>, depth: nat)
    requires ValidReportValues(ms)
    ensures ValidReportItems(MemberValues(ms))
    ensures ChildValues(lib, parent, ms, depth) == ChildItems(lib, parent, MemberValues(ms), depth)
  {
    if ms != [] {
      var vs := MemberValues(ms);
      assert vs[0] == ms[0].value && vs[1..] == MemberValues(ms[1..]);
      ValuesAsItems(lib, parent, ms[1..], depth);
    }
  }

  // ---------------------------------------------------------------------
  // Example: a oneOf failure with two failing branches
  // ---------------------------------------------------------------------

  function Record(code: int, instance: string, schema: string): seq<Member>
  {
    [Member("errorCode", JNumber(code)), Member("instanceRef", JString(instance)), Member("schemaRef", JString(schema))]
  }

  lemma RecordFields(code: int, instance: string, schema: string)
    requires IsInt32(code)
    ensures var rec := Record(code, instance, schema);
      && Get(rec, "errorCode") == Some(JNumber(code))
      && Get(rec, "instanceRef") == Some(JString(instance))
      && Get(rec, "schemaRef") == Some(JString(schema))
      && HasRecordFields(rec)
      && FindMember(rec, "errors").None?
  {
    var rec := Record(code, instance, schema);
    assert rec[1..][1..] == [Member("schemaRef", JString(schema))];
    assert rec[1..][1..][1..] == [];
  }

  lemma LabelledAt(depth: nat, text: string, line: string)
    requires |line| == 2 * depth + |text| && line[2 * depth..] == text
    requires forall i :: 0 <= i < 2 * depth ==> line[i] == ' '
    ensures Labelled(depth, text) == line
  {
    var l := Labelled(depth, text);
    assert forall i :: 0 <= i < |l| ==> l[i] == line[i] by {
      forall i | 0 <= i < |l|
        ensures l[i] == line[i]
      {
        if i >= 2 * depth {
          assert l[i] == l[2 * depth..][i - 2 * depth];
          assert line[i] == line[2 * depth..][i - 2 * depth];
        } else {
          assert l[..2 * depth] == Indent(depth);
        }
      }
    }
  }

  lemma LabelledAtDepthZero(text: string)
    ensures Labelled(0, text) == text
  {
    LabelledAt(0, text, text);
  }

  lemma LabelledAtDepthOne(text: string)
    ensures Labelled(1, text) == "  " + text
  {
    LabelledAt(1, text, "  " + text);
  }

  lemma BlockAtDepthZero(name: string, message: string, instance: string, schema: string, context: string)
    ensures Block(0, name, message, instance, schema, context)
            == ["Error Name: " + name, "Message: " + message, "Instance: " + instance, "Schema: " + schema, ""]
  {
    LabelledAtDepthZero("Error Name: " + name);
    LabelledAtDepthZero("Message: " + message);
    LabelledAtDepthZero("Instance: " + instance);
    LabelledAtDepthZero("Schema: " + schema);
  }

  lemma BlockAtDepthOne(name: string, message: string, instance: string, schema: string, context: string)
    ensures Block(1, name, message, instance, schema, context)
            == [ "  Error Name: " + name, "  Message: " + message, "  Instance: " + instance,
                 "  Schema: " + schema, "  Context: " + context, "" ]
  {
    LabelledAtDepthOne("Error Name: " + name);
    LabelledAtDepthOne("Message: " + message);
    LabelledAtDepthOne("Instance: " + instance);
    LabelledAtDepthOne("Schema: " + schema);
    LabelledAtDepthOne("Context: " + context);
    assert "  " + ("Error Name: " + name) == "  Error Name: " + name;
    assert "  " + ("Message: " + message) == "  Message: " + message;
    assert "  " + ("Instance: " + instance) == "  Instance: " + instance;
    assert "  " + ("Schema: " + schema) == "  Schema: " + schema;
    assert "  " + ("Context: " + context) == "  Context: " + context;
  }

  /** A childless record whose template has no placeholders prints as the
      block of its fields. */
  lemma PlainRecord(lib: Library, name: string, code: int, instance: string, schema: string, depth: nat, context: string)
    requires IsInt32(code) && '%' !in lib.template(code)
    ensures ValidRecord(JObject(Record(code, instance, schema)))
    ensures HandleError(lib, name, JObject(Record(code, instance, schema)), depth, context)
            == Block(depth, name, lib.template(code), instance, schema, context)
  {
    var rec := Record(code, instance, schema);
    RecordFields(code, instance, schema);
    SubstituteWithoutPlaceholders(lib, lib.template(code), rec);
    assert NestedErrors(lib, name, JObject(rec), depth + 1) == [];
  }

  /** A nested `type` failure prints its block one level in, with the parent
      rule as context. */
  lemma BranchExample(lib: Library, schema: string)
    requires '%' !in lib.template(20)
    ensures var branch := JObject([Member("type", JObject(Record(20, "#", schema)))]);
      ValidReport(branch)
      && CreateErrorMessages(lib, branch, 1, "oneOf")
         == [ "  Error Name: type", "  Message: " + lib.template(20), "  Instance: #",
              "  Schema: " + schema, "  Context: oneOf", "" ]
  {
    var rec := Record(20, "#", schema);
    PlainRecord(lib, "type", 20, "#", schema, 1, "oneOf");
    SingleRule(lib, "type", JObject(rec), 1, "oneOf");
    BranchBlock(lib.template(20), schema);
  }

  /** An error value with a single rule whose content is a record prints as
      that record. */
  lemma SingleRule(lib: Library, name: string, record: Json, depth: nat, context: string)
    requires ValidRecord(record)
    ensures ValidReport(JObject([Member(name, record)]))
    ensures CreateErrorMessages(lib, JObject([Member(name, record)]), depth, context)
            == HandleError(lib, name, record, depth, context)
  {
    var rules := [Member(name, record)];
    assert rules[1..] == [];
    assert ValidContent(rules[0].value);
    assert RuleErrors(lib, rules, depth, context) == HandleError(lib, name, record, depth, context) + [];
  }

  lemma BranchBlock(message: string, schema: string)
    ensures Block(1, "type", message, "#", schema, "oneOf")
            == [ "  Error Name: type", "  Message: " + message, "  Instance: #",
                 "  Schema: " + schema, "  Context: oneOf", "" ]
  {
    BlockAtDepthOne("type", message, "#", schema, "oneOf");
    assert "  Error Name: " + "type" == "  Error Name: type";
    assert "  Instance: " + "#" == "  Instance: #";
    assert "  Context: " + "oneOf" == "  Context: oneOf";
  }

  /** A record followed by an "errors" member: its fields are the record's
      and its children are found at position 3. */
  lemma ParentFields(code: int, instance: string, schema: string, children: Json)
    requires IsInt32(code)
    ensures var ms := Record(code, instance, schema) + [Member("errors", children)];
      && Get(ms, "errorCode") == Some(JNumber(code))
      && Get(ms, "instanceRef") == Some(JString(instance))
      && Get(ms, "schemaRef") == Some(JString(schema))
      && HasRecordFields(ms)
      && FindMember(ms, "errors") == Some(3)
  {
    var ms := Record(code, instance, schema) + [Member("errors", children)];
    assert ms[1..][1..] == [Member("schemaRef", JString(schema)), Member("errors", children)];
    assert ms[1..][1..][1..] == [Member("errors", children)];
    assert ms[3].name == "errors";
    assert ms[0].name != "errors" && ms[1].name != "errors" && ms[2].name != "errors";
  }

  /** Any non-empty record with an "errors" member prints as its block
      (the code's template with the record's inserts substituted) followed
      by its child errors, whether an array or an object of error values,
      one level deeper with the record's rule as their context. */
  lemma ParentRecord(lib: Library, name: string, error: Json, depth: nat, context: string)
    requires ValidRecord(error) && error.members != [] && FindMember(error.members, "errors").Some?
    ensures var ms := error.members;
      var children := ms[FindMember(ms, "errors").value].value;
      && ValidChildren(children)
      && HandleError(lib, name, error, depth, context)
         == Block(depth, name, Substitute(lib, lib.template(Get(ms, "errorCode").value.n), ms),
                  Get(ms, "instanceRef").value.s, Get(ms, "schemaRef").value.s, context)
            + ChildErrors(lib, name, children, depth + 1)
  {
  }

  /** Two child errors in an array print one after the other. */
  lemma TwoChildren(lib: Library, parent: string, first: Json, second: Json, depth: nat)
    requires ValidReport(first) && ValidReport(second)
    ensures ValidChildren(JArray([first, second]))
    ensures ChildErrors(lib, parent, JArray([first, second]), depth)
            == CreateErrorMessages(lib, first, depth, parent) + CreateErrorMessages(lib, second, depth, parent)
  {
    assert [first, second][1..] == [second];
    assert [second][1..] == [];
    assert ValidReportItems([second]);
    assert ChildItems(lib, parent, [second], depth) == CreateErrorMessages(lib, second, depth, parent) + [];
  }

  /** A record with two child errors prints as its block followed by each
      child's lines, one level deeper, with the record's rule as context. */
  lemma RecordWithTwoChildren(lib: Library, name: string, code: int, instance: string, schema: string,
                              first: Json, second: Json, depth: nat, inner: nat, context: string)
    requires IsInt32(code) && '%' !in lib.template(code) && inner == depth + 1
    requires ValidReport(first) && ValidReport(second)
    ensures var record := JObject(Record(code, instance, schema) + [Member("errors", JArray([first, second]))]);
      ValidRecord(record)
      && HandleError(lib, name, record, depth, context)
         == Block(depth, name, lib.template(code), instance, schema, context)
            + (CreateErrorMessages(lib, first, inner, name) + CreateErrorMessages(lib, second, inner, name))
  {
    var ms := Record(code, instance, schema) + [Member("errors", JArray([first, second]))];
    TwoChildren(lib, name, first, second, inner);
    ParentFields(code, instance, schema, JArray([first, second]));
    assert ms[3].value == JArray([first, second]);
    SubstituteWithoutPlaceholders(lib, lib.template(code), ms);
    ParentRecord(lib, name, JObject(ms), depth, context);
  }

  /** A report with one rule whose record has two child errors prints as
      the record's block followed by each child's lines, one level in. */
  lemma ParentPrinted(lib: Library, name: string, code: int, instance: string, schema: string,
                      first: Json, second: Json)
    requires IsInt32(code) && '%' !in lib.template(code)
    requires ValidReport(first) && ValidReport(second)
    ensures var errors := JObject([Member(name, JObject(Record(code, instance, schema) + [Member("errors", JArray([first, second]))]))]);
      ValidReport(errors)
      && CreateErrorMessages(lib, errors, 0, "")
         == Block(0, name, lib.template(code), instance, schema, "")
            + (CreateErrorMessages(lib, first, 1, name) + CreateErrorMessages(lib, second, 1, name))
  {
    var record := JObject(Record(code, instance, schema) + [Member("errors", JArray([first, second]))]);
    RecordWithTwoChildren(lib, name, code, instance, schema, first, second, 0, 1, "");
    SingleRule(lib, name, record, 0, "");
  }

  lemma OneOfBlock(message: string)
    ensures Block(0, "oneOf", message, "#", "#", "")
            == ["Error Name: oneOf", "Message: " + message, "Instance: #", "Schema: #", ""]
  {
    BlockAtDepthZero("oneOf", message, "#", "#", "");
    assert "Error Name: " + "oneOf" == "Error Name: oneOf";
    assert "Instance: " + "#" == "Instance: #";
    assert "Schema: " + "#" == "Schema: #";
  }

  /** `{"oneOf": {..., "errors": [{"type": {...}}, {"type": {...}}]}}`: the
      oneOf block at the left margin without a context line, then each
      branch's block indented by two spaces with context `oneOf`. */
  lemma OneOfExample(lib: Library, schema0: string, schema1: string)
    requires '%' !in lib.template(21) && '%' !in lib.template(20)
    ensures
      var branch0 := JObject([Member("type", JObject(Record(20, "#", schema0)))]);
      var branch1 := JObject([Member("type", JObject(Record(20, "#", schema1)))]);
      var errors := JObject([Member("oneOf", JObject(Record(21, "#", "#") + [Member("errors", JArray([branch0, branch1]))]))]);
      ValidReport(errors)
      && CreateErrorMessages(lib, errors, 0, "")
         == [ "Error Name: oneOf", "Message: " + lib.template(21), "Instance: #", "Schema: #", "" ]
            + ([ "  Error Name: type", "  Message: " + lib.template(20), "  Instance: #",
                 "  Schema: " + schema0, "  Context: oneOf", "" ]
               + [ "  Error Name: type", "  Message: " + lib.template(20), "  Instance: #",
                   "  Schema: " + schema1, "  Context: oneOf", "" ])
  {
    var branch0 := JObject([Member("type", JObject(Record(20, "#", schema0)))]);
    var branch1 := JObject([Member("type", JObject(Record(20, "#", schema1)))]);
    BranchExample(lib, schema0);
    BranchExample(lib, schema1);
    ParentPrinted(lib, "oneOf", 21, "#", "#", branch0, branch1);
    OneOfBlock(lib.template(21));
  }

  // ---------------------------------------------------------------------
  // Example: a multipleOf failure, with inserts
  // ---------------------------------------------------------------------

  /** The English template for a multipleOf failure,
      `Number '%actual' is not a multiple of the 'multipleOf' value '%expected'.`,
      kept in its three literal pieces around the two placeholders. */
  const NumberOpening := "Number '"
  const NotAMultiple := "' is not a multiple of" + " the 'multipleOf' value '"
  const Closing := "'."
  const MultipleOfTemplate := NumberOpening + "%actual" + NotAMultiple + "%expected" + Closing

  lemma NoPercentInPieces()
    ensures '%' !in NumberOpening && '%' !in NotAMultiple && '%' !in Closing
  {
  }

  /** A multipleOf record: the offending number and the divisor, then the
      code and references. */
  function MultipleOfRecord(code: int, instance: string, schema: string): seq<Member>
  {
    [Member("actual", JNumber(7)), Member("expected", JNumber(3))] + Record(code, instance, schema)
  }

  lemma MultipleOfFields(code: int, instance: string, schema: string)
    requires IsInt32(code)
    ensures var ms := MultipleOfRecord(code, instance, schema);
      && Get(ms, "errorCode") == Some(JNumber(code))
      && Get(ms, "instanceRef") == Some(JString(instance))
      && Get(ms, "schemaRef") == Some(JString(schema))
      && HasRecordFields(ms)
      && FindMember(ms, "errors").None?
  {
    var ms := MultipleOfRecord(code, instance, schema);
    RecordFields(code, instance, schema);
    assert ms[1..][1..] == Record(code, instance, schema);
  }

  /** The first member's placeholder, preceded by `%`-free text, is
      replaced first; the remaining members then work on the result. */
  lemma PlaceholderThenRest(lib: Library, pre: string, m: Member, post: string, rest: seq<Member>)
    requires '%' !in pre
    ensures Substitute(lib, pre + "%" + m.name + post, [m] + rest)
            == Substitute(lib, pre + InsertText(lib, m.value) + post, rest)
  {
    SubstituteAppend(lib, pre + "%" + m.name + post, [m], rest);
    FirstPlaceholderReplaced(lib, pre, m.name, post, m.value);
  }

  lemma Regroup(p: string, mid: string, name: string, post: string)
    ensures p + (mid + "%" + name + post) == p + mid + "%" + name + post
  {
    ConcatAssoc(p, mid + "%" + name, post);
    ConcatAssoc(p, mid + "%", name);
    ConcatAssoc(p, mid, "%");
  }

  /** A template with two placeholders around `%`-free text: the first
      member's insert replaces the first placeholder, the second member's the
      second, and later members whose inserts hold no `%` change nothing. */
  lemma TwoPlaceholders(lib: Library, pre: string, first: Member, mid: string, second: Member, post: string,
                        rest: seq<Member>)
    requires '%' !in pre && '%' !in mid && '%' !in post
    requires '%' !in InsertText(lib, first.value) && '%' !in InsertText(lib, second.value)
    ensures Substitute(lib, pre + "%" + first.name + mid + "%" + second.name + post, [first, second] + rest)
            == pre + InsertText(lib, first.value) + mid + InsertText(lib, second.value) + post
  {
    var x := InsertText(lib, first.value);
    var y := InsertText(lib, second.value);
    var post1 := mid + "%" + second.name + post;
    Regroup(pre + "%" + first.name, mid, second.name, post);
    assert [first, second] + rest == [first] + ([second] + rest);
    PlaceholderThenRest(lib, pre, first, post1, [second] + rest);
    var pre2 := pre + x + mid;
    Regroup(pre + x, mid, second.name, post);
    PlaceholderThenRest(lib, pre2, second, post, rest);
    assert '%' !in pre2 + y + post;
    SubstituteWithoutPlaceholders(lib, pre2 + y + post, rest);
  }

  /** Both placeholders are replaced by the rendered numbers; the other
      members leave the text alone. */
  lemma MultipleOfMessage(lib: Library, code: int, instance: string, schema: string)
    ensures Substitute(lib, MultipleOfTemplate, MultipleOfRecord(code, instance, schema))
            == NumberOpening + "7" + NotAMultiple + "3" + Closing
  {
    var actual := Member("actual", JNumber(7));
    var expected := Member("expected", JNumber(3));
    NoPercentInPieces();
    assert InsertText(lib, JNumber(7)) == "7" && InsertText(lib, JNumber(3)) == "3";
    assert "%actual" == "%" + "actual" && "%expected" == "%" + "expected";
    assert MultipleOfTemplate == NumberOpening + "%" + "actual" + NotAMultiple + "%" + "expected" + Closing;
    TwoPlaceholders(lib, NumberOpening, actual, NotAMultiple, expected, Closing, Record(code, instance, schema));
  }

  /** The whole block of a top-level multipleOf failure. */
  lemma MultipleOfExample(lib: Library, code: int, instance: string, schema: string)
    requires IsInt32(code) && lib.template(code) == MultipleOfTemplate
    ensures var error := JObject(MultipleOfRecord(code, instance, schema));
      ValidRecord(error)
      && HandleError(lib, "multipleOf", error, 0, "")
         == [ "Error Name: multipleOf", "Message: " + (NumberOpening + "7" + NotAMultiple + "3" + Closing),
              "Instance: " + instance, "Schema: " + schema, "" ]
  {
    var ms := MultipleOfRecord(code, instance, schema);
    MultipleOfFields(code, instance, schema);
    MultipleOfMessage(lib, code, instance, schema);
    var message := NumberOpening + "7" + NotAMultiple + "3" + Closing;
    assert NestedErrors(lib, "multipleOf", JObject(ms), 1) == [];
    MultipleOfBlock(message, instance, schema);
  }

  lemma MultipleOfBlock(message: string, instance: string, schema: string)
    ensures Block(0, "multipleOf", message, instance, schema, "")
            == ["Error Name: multipleOf", "Message: " + message, "Instance: " + instance, "Schema: " + schema, ""]
  {
    BlockAtDepthZero("multipleOf", message, instance, schema, "");
    assert "Error Name: " + "multipleOf" == "Error Name: multipleOf";
  }
}
