/**
 * The zod schema that generated records must satisfy: a closed union of five
 * record shapes (code, information, task, decision, error), wrapped in an object
 * whose `nodes` field holds the records, plus a refinement that reports any record
 * whose type lies outside the five names.
 */
module Schema {
  import opened Common
  import opened Strings
  import opened Json

  datatype Difficulty = Easy | Medium | Hard

  /** A record that passed validation: its type tag selects one data shape. */
  datatype Payload =
    | Code(explanation: string, code: string)
    | Information(content: string, references: seq<string>, tags: seq<string>)
    | Task(name: string, description: string, difficulty: Difficulty)
    | Decision(question: string, options: seq<string>)
    | Error(message: string, details: string)

  function DifficultyName(d: Difficulty): string
  {
    match d
    case Easy => "easy"
    case Medium => "medium"
    case Hard => "hard"
  }

  /** `z.enum(["easy", "medium", "hard"])`. */
  function ParseDifficulty(v: Json): (r: Option<Difficulty>)
    ensures r.Some? <==> v == JString("easy") || v == JString("medium") || v == JString("hard")
    ensures r.Some? ==> v == JString(DifficultyName(r.value))
  {
    match v
    case JString(s) =>
      if s == "easy" then Some(Easy)
      else if s == "medium" then Some(Medium)
      else if s == "hard" then Some(Hard)
      else None
    case _ => None
  }

  function TypeName(p: Payload): string
  {
    match p
    case Code(_, _) => "code"
    case Information(_, _, _) => "information"
    case Task(_, _, _) => "task"
    case Decision(_, _) => "decision"
    case Error(_, _) => "error"
  }

  /** The type names the refinement accepts. "prompt" is not one of them. */
  const GeneratableTypes: seq<string> := ["task", "decision", "error", "information", "code"]

  /** The data keys the schema declares for each type, in declaration order. */
  function SchemaKeys(typeName: string): seq<string>
  {
    if typeName == "code" then ["explanation", "code"]
    else if typeName == "information" then ["content", "references", "tags"]
    else if typeName == "task" then ["name", "description", "difficulty"]
    else if typeName == "decision" then ["question", "options"]
    else if typeName == "error" then ["message", "details"]
    else []
  }

  /**
   * The data object zod hands back for a valid record: exactly the declared keys,
   * since `z.object` strips keys it does not declare.
   */
  function ToData(p: Payload): Json
  {
    match p
    case Code(e, c) => JObject([("explanation", JString(e)), ("code", JString(c))])
    case Information(c, r, t) => JObject([("content", JString(c)), ("references", StringArray(r)), ("tags", StringArray(t))])
    case Task(n, d, k) => JObject([("name", JString(n)), ("description", JString(d)), ("difficulty", JString(DifficultyName(k)))])
    case Decision(q, o) => JObject([("question", JString(q)), ("options", StringArray(o))])
    case Error(m, d) => JObject([("message", JString(m)), ("details", JString(d))])
  }

  /** The canonical `{type, data}` record of a payload. */
  function ToRecord(p: Payload): Json
  {
    JObject([("type", JString(TypeName(p))), ("data", ToData(p))])
  }

  function StringField(fields: seq<(string, Json)>, key: string): Option<string>
  {
    match Lookup(fields, key)
    case Some(JString(s)) => Some(s)
    case _ => None
  }

  function StringArrayField(fields: seq<(string, Json)>, key: string): Option<seq<string>>
  {
    match Lookup(fields, key)
    case Some(v) => if IsStringArray(v) then Some(StringItems(v)) else None
    case None => None
  }

  /** The data shape registered for `typeName`, checked against the object `fields`. */
  function ValidateData(typeName: string, fields: seq<(string, Json)>): Option<Payload>
  {
    if typeName == "code" then
      match (StringField(fields, "explanation"), StringField(fields, "code"))
      case (Some(e), Some(c)) => Some(Code(e, c))
      case _ => None
    else if typeName == "information" then
      match (StringField(fields, "content"), StringArrayField(fields, "references"), StringArrayField(fields, "tags"))
      case (Some(c), Some(r), Some(t)) => Some(Information(c, r, t))
      case _ => None
    else if typeName == "task" then
      var k := match Lookup(fields, "difficulty") case Some(v) => ParseDifficulty(v) case None => None;
      match (StringField(fields, "name"), StringField(fields, "description"), k)
      case (Some(n), Some(d), Some(k)) => Some(Task(n, d, k))
      case _ => None
    else if typeName == "decision" then
      match (StringField(fields, "question"), StringArrayField(fields, "options"))
      case (Some(q), Some(o)) => Some(Decision(q, o))
      case _ => None
    else if typeName == "error" then
      match (StringField(fields, "message"), StringField(fields, "details"))
      case (Some(m), Some(d)) => Some(Error(m, d))
      case _ => None
    else None
  }

  /**
   * `z.union([validNodeSchema, errorNodeSchema])` on one record: the record and its
   * `data` must be objects, `type` a string naming one of the five shapes, and the
   * data must match that shape.
   */
  function ValidateRecord(r: Json): Option<Payload>
  {
    if !r.JObject? then None
    else
      match (Lookup(r.fields, "type"), Lookup(r.fields, "data"))
      case (Some(JString(t)), Some(JObject(d))) => ValidateData(t, d)
      case _ => None
  }

  /** A valid record's type is one of the five generatable names, and never "prompt". */
  lemma AcceptedTypeIsGeneratable(r: Json)
    requires ValidateRecord(r).Some?
    ensures Get(r, "type") == Some(JString(TypeName(ValidateRecord(r).value)))
    ensures TypeName(ValidateRecord(r).value) in GeneratableTypes
    ensures Get(r, "type") != Some(JString("prompt"))
  {
    var t := Lookup(r.fields, "type").value.s;
    var d := Lookup(r.fields, "data").value.fields;
    assert ValidateData(t, d).Some?;
  }

  /** Lookup in a two-field object literal. */
  lemma LookupPair(a: string, va: Json, b: string, vb: Json, key: string)
    ensures Lookup([(a, va), (b, vb)], key) == if key == b then Some(vb) else if key == a then Some(va) else None
  {
    var fs := [(a, va), (b, vb)];
    assert fs[..1] == [(a, va)];
    assert fs[..1][..0] == [];
    assert Lookup(fs[..1], key) == if key == a then Some(va) else None;
  }

  /** Lookup in a three-field object literal. */
  lemma LookupTriple(a: string, va: Json, b: string, vb: Json, c: string, vc: Json, key: string)
    ensures Lookup([(a, va), (b, vb), (c, vc)], key) ==
      if key == c then Some(vc) else if key == b then Some(vb) else if key == a then Some(va) else None
  {
    var fs := [(a, va), (b, vb), (c, vc)];
    assert fs[..2] == [(a, va), (b, vb)];
    LookupPair(a, va, b, vb, key);
  }

  /** What each declared key holds in the canonical data object of `p`. */
  lemma DataLookups(p: Payload, key: string)
    ensures Lookup(ToData(p).fields, key) ==
      match p
      case Code(e, c) => if key == "code" then Some(JString(c)) else if key == "explanation" then Some(JString(e)) else None
      case Information(c, r, t) =>
        if key == "tags" then Some(StringArray(t)) else if key == "references" then Some(StringArray(r))
        else if key == "content" then Some(JString(c)) else None
      case Task(n, d, k) =>
        if key == "difficulty" then Some(JString(DifficultyName(k))) else if key == "description" then Some(JString(d))
        else if key == "name" then Some(JString(n)) else None
      case Decision(q, o) => if key == "options" then Some(StringArray(o)) else if key == "question" then Some(JString(q)) else None
      case Error(m, d) => if key == "details" then Some(JString(d)) else if key == "message" then Some(JString(m)) else None
  {
    match p
    case Code(e, c) => LookupPair("explanation", JString(e), "code", JString(c), key);
    case Information(c, r, t) => LookupTriple("content", JString(c), "references", StringArray(r), "tags", StringArray(t), key);
    case Task(n, d, k) => LookupTriple("name", JString(n), "description", JString(d), "difficulty", JString(DifficultyName(k)), key);
    case Decision(q, o) => LookupPair("question", JString(q), "options", StringArray(o), key);
    case Error(m, d) => LookupPair("message", JString(m), "details", JString(d), key);
  }

  /** The canonical record of every payload validates to that payload. */
  lemma ValidateToRecord(p: Payload)
    ensures ValidateRecord(ToRecord(p)) == Some(p)
  {
    LookupPair("type", JString(TypeName(p)), "data", ToData(p), "type");
    LookupPair("type", JString(TypeName(p)), "data", ToData(p), "data");
    ValidateCanonical(p);
  }

  lemma ValidateCanonical(p: Payload)
    ensures ValidateData(TypeName(p), ToData(p).fields) == Some(p)
  {
    match p
    case Code(e, c) => CanonicalCode(e, c);
    case Information(c, r, t) => CanonicalInformation(c, r, t);
    case Task(n, d, k) => CanonicalTask(n, d, k);
    case Decision(q, o) => CanonicalDecision(q, o);
    case Error(m, d) => CanonicalError(m, d);
  }

  lemma CanonicalCode(e: string, c: string)
    ensures ValidateData("code", ToData(Code(e, c)).fields) == Some(Code(e, c))
  {
    LookupPair("explanation", JString(e), "code", JString(c), "explanation");
    LookupPair("explanation", JString(e), "code", JString(c), "code");
  }

  lemma CanonicalInformation(c: string, r: seq<string>, t: seq<string>)
    ensures ValidateData("information", ToData(Information(c, r, t)).fields) == Some(Information(c, r, t))
  {
    var fs := ToData(Information(c, r, t)).fields;
    LookupTriple("content", JString(c), "references", StringArray(r), "tags", StringArray(t), "content");
    LookupTriple("content", JString(c), "references", StringArray(r), "tags", StringArray(t), "references");
    LookupTriple("content", JString(c), "references", StringArray(r), "tags", StringArray(t), "tags");
    assert StringField(fs, "content") == Some(c);
    assert StringArrayField(fs, "references") == Some(r);
    assert StringArrayField(fs, "tags") == Some(t);
  }

  lemma CanonicalTask(n: string, d: string, k: Difficulty)
    ensures ValidateData("task", ToData(Task(n, d, k)).fields) == Some(Task(n, d, k))
  {
    var fs := ToData(Task(n, d, k)).fields;
    LookupTriple("name", JString(n), "description", JString(d), "difficulty", JString(DifficultyName(k)), "name");
    LookupTriple("name", JString(n), "description", JString(d), "difficulty", JString(DifficultyName(k)), "description");
    LookupTriple("name", JString(n), "description", JString(d), "difficulty", JString(DifficultyName(k)), "difficulty");
    assert StringField(fs, "name") == Some(n);
    assert StringField(fs, "description") == Some(d);
    assert ParseDifficulty(JString(DifficultyName(k))) == Some(k);
  }

  lemma CanonicalDecision(q: string, o: seq<string>)
    ensures ValidateData("decision", ToData(Decision(q, o)).fields) == Some(Decision(q, o))
  {
    var fs := ToData(Decision(q, o)).fields;
    LookupPair("question", JString(q), "options", StringArray(o), "question");
    LookupPair("question", JString(q), "options", StringArray(o), "options");
    assert StringArrayField(fs, "options") == Some(o);
  }

  lemma CanonicalError(m: string, d: string)
    ensures ValidateData("error", ToData(Error(m, d)).fields) == Some(Error(m, d))
  {
    LookupPair("message", JString(m), "details", JString(d), "message");
    LookupPair("message", JString(m), "details", JString(d), "details");
  }

  /** `d` and `cd` hold the same value (or both lack one) under every key declared for `t`. */
  predicate AgreeOnDeclared(t: string, d: seq<(string, Json)>, cd: seq<(string, Json)>)
  {
    forall i :: 0 <= i < |SchemaKeys(t)| ==> Lookup(d, SchemaKeys(t)[i]) == Lookup(cd, SchemaKeys(t)[i])
  }

  /** The record is an object naming `t` whose `data` is an object. */
  predicate WellShaped(r: Json, t: string)
  {
    && r.JObject?
    && Lookup(r.fields, "type") == Some(JString(t))
    && Lookup(r.fields, "data").Some? && Lookup(r.fields, "data").value.JObject?
  }

  /**
   * What validation keeps: a record is accepted as `p` exactly when it names p's
   * type and its data agrees with p's data on the declared keys. Whatever else
   * the data holds is stripped.
   */
  lemma ValidateIff(r: Json, p: Payload)
    ensures ValidateRecord(r) == Some(p) <==>
      WellShaped(r, TypeName(p)) && AgreeOnDeclared(TypeName(p), Lookup(r.fields, "data").value.fields, ToData(p).fields)
  {
    if ValidateRecord(r) == Some(p) {
      AcceptedIsWellShaped(r, p);
      ValidatedDeclared(p, Lookup(r.fields, "data").value.fields);
    }
    if WellShaped(r, TypeName(p)) && AgreeOnDeclared(TypeName(p), Lookup(r.fields, "data").value.fields, ToData(p).fields) {
      SameDeclared(TypeName(p), Lookup(r.fields, "data").value.fields, ToData(p).fields);
      ValidateCanonical(p);
    }
  }

  lemma AcceptedIsWellShaped(r: Json, p: Payload)
    requires ValidateRecord(r) == Some(p)
    ensures WellShaped(r, TypeName(p))
    ensures ValidateData(TypeName(p), Lookup(r.fields, "data").value.fields) == Some(p)
  {
    var t := Lookup(r.fields, "type").value.s;
    var d := Lookup(r.fields, "data").value.fields;
    assert ValidateData(t, d) == Some(p);
  }

  lemma SameDeclared(t: string, d: seq<(string, Json)>, cd: seq<(string, Json)>)
    requires AgreeOnDeclared(t, d, cd)
    ensures ValidateData(t, d) == ValidateData(t, cd)
  {
    var keys := SchemaKeys(t);
    if |keys| > 0 { assert Lookup(d, keys[0]) == Lookup(cd, keys[0]); }
    if |keys| > 1 { assert Lookup(d, keys[1]) == Lookup(cd, keys[1]); }
    if |keys| > 2 { assert Lookup(d, keys[2]) == Lookup(cd, keys[2]); }
  }

  lemma ValidatedDeclared(p: Payload, d: seq<(string, Json)>)
    requires ValidateData(TypeName(p), d) == Some(p)
    ensures AgreeOnDeclared(TypeName(p), d, ToData(p).fields)
  {
    var keys := SchemaKeys(TypeName(p));
    forall i | 0 <= i < |keys| ensures Lookup(d, keys[i]) == Lookup(ToData(p).fields, keys[i]) {
      DataLookups(p, keys[i]);
      match p
      case Information(c, r, t) =>
        if i == 1 { StringArrayUnique(Lookup(d, "references").value, r); }
        if i == 2 { StringArrayUnique(Lookup(d, "tags").value, t); }
      case Decision(q, o) =>
        if i == 1 { StringArrayUnique(Lookup(d, "options").value, o); }
      case Task(n, ds, k) =>
        if i == 2 { assert ParseDifficulty(Lookup(d, "difficulty").value) == Some(k); }
      case _ =>
    }
  }

  lemma StringArrayUnique(v: Json, ss: seq<string>)
    requires IsStringArray(v) && StringItems(v) == ss
    ensures v == StringArray(ss)
  {
    assert v.items == StringArray(ss).items;
  }

  /** One refinement issue: a custom issue at path ["nodes", index]. */
  datatype Issue = Issue(index: nat, message: string)

  function IssueMessage(typeName: string, index: nat): string
  {
    "Invalid node type '" + typeName + "' at index " + NatToString(index)
  }

  /**
   * The `superRefine` pass: one issue per record whose type is outside the five
   * names, in index order, and no other issue.
   */
  function TypeIssues(types: seq<string>): (r: seq<Issue>)
    ensures forall k :: 0 <= k < |r| ==>
              && r[k].index < |types| && types[r[k].index] !in GeneratableTypes
              && r[k].message == IssueMessage(types[r[k].index], r[k].index)
    ensures forall k, l :: 0 <= k < l < |r| ==> r[k].index < r[l].index
  {
    if |types| == 0 then []
    else
      var n := |types| - 1;
      var front := TypeIssues(types[..n]);
      assert forall i :: 0 <= i < n ==> types[..n][i] == types[i];
      front + (if types[n] in GeneratableTypes then [] else [Issue(n, IssueMessage(types[n], n))])
  }

  /** Every record whose type is outside the five names is reported. */
  lemma {:induction false} TypeIssuesComplete(types: seq<string>, i: nat)
    requires i < |types| && types[i] !in GeneratableTypes
    ensures exists k :: 0 <= k < |TypeIssues(types)| && TypeIssues(types)[k].index == i
  {
    var n := |types| - 1;
    var front := TypeIssues(types[..n]);
    var r := TypeIssues(types);
    assert r[..|front|] == front;
    if i < n {
      assert types[..n][i] == types[i];
      TypeIssuesComplete(types[..n], i);
      var k :| 0 <= k < |front| && front[k].index == i;
      assert r[k] == front[k];
    } else {
      assert r[|r| - 1].index == n;
    }
  }

  /** The refinement reports nothing exactly when every type is one of the five names. */
  lemma {:induction false} NoIssuesIff(types: seq<string>)
    ensures TypeIssues(types) == [] <==> forall i :: 0 <= i < |types| ==> types[i] in GeneratableTypes
  {
    if |types| > 0 {
      var n := |types| - 1;
      NoIssuesIff(types[..n]);
      assert forall i :: 0 <= i < n ==> types[..n][i] == types[i];
    }
  }

  /** Validation of every element; any invalid element fails the whole array. */
  function ValidateAll(items: seq<Json>): (r: Option<seq<Payload>>)
    ensures r.Some? <==> forall i :: 0 <= i < |items| ==> ValidateRecord(items[i]).Some?
    ensures r.Some? ==> |r.value| == |items| && forall i :: 0 <= i < |items| ==> ValidateRecord(items[i]) == Some(r.value[i])
  {
    if |items| == 0 then Some([])
    else
      match (ValidateRecord(items[0]), ValidateAll(items[1..]))
      case (Some(p), Some(ps)) =>
        assert forall i :: 1 <= i < |items| ==> items[i] == items[1..][i - 1];
        Some([p] + ps)
      case (None, _) => None
      case (_, None) =>
        assert forall i :: 1 <= i < |items| ==> items[i] == items[1..][i - 1];
        None
  }

  function TypeNames(ps: seq<Payload>): (r: seq<string>)
    ensures |r| == |ps| && forall i :: 0 <= i < |ps| ==> r[i] == TypeName(ps[i])
  {
    seq(|ps|, i requires 0 <= i < |ps| => TypeName(ps[i]))
  }

  /**
   * `nodeSchema.parse`: an object whose `nodes` field is an array of valid records,
   * after which the refinement runs over the parsed records' types.
   */
  function ParseResponse(v: Json): Option<seq<Payload>>
  {
    match Get(v, "nodes")
    case Some(JArray(items)) =>
      (match ValidateAll(items)
       case Some(ps) => if TypeIssues(TypeNames(ps)) == [] then Some(ps) else None
       case None => None)
    case _ => None
  }

  /** The refinement never fires on records the union accepted: parsing is decided by the union alone. */
  lemma ParseResponseIff(v: Json)
    ensures ParseResponse(v).Some? <==>
      (Get(v, "nodes").Some? && Get(v, "nodes").value.JArray?
       && forall i :: 0 <= i < |Get(v, "nodes").value.items| ==> ValidateRecord(Get(v, "nodes").value.items[i]).Some?)
    ensures ParseResponse(v).Some? ==>
      |ParseResponse(v).value| == |Get(v, "nodes").value.items|
      && forall i :: 0 <= i < |ParseResponse(v).value| ==> ValidateRecord(Get(v, "nodes").value.items[i]) == Some(ParseResponse(v).value[i])
  {
    if Get(v, "nodes").Some? && Get(v, "nodes").value.JArray? {
      var items := Get(v, "nodes").value.items;
      if ValidateAll(items).Some? {
        NoIssuesForParsed(ValidateAll(items).value);
      }
    }
  }

  /** Every parsed record carries one of the five names, so the refinement reports nothing. */
  lemma NoIssuesForParsed(ps: seq<Payload>)
    ensures TypeIssues(TypeNames(ps)) == []
  {
    var names := TypeNames(ps);
    forall i | 0 <= i < |names| ensures names[i] in GeneratableTypes {
      TypeNameGeneratable(ps[i]);
    }
    NoIssuesIff(names);
  }

  lemma TypeNameGeneratable(p: Payload)
    ensures TypeName(p) in GeneratableTypes
  {
    match p
    case Code(_, _) => assert GeneratableTypes[4] == "code";
    case Information(_, _, _) => assert GeneratableTypes[3] == "information";
    case Task(_, _, _) => assert GeneratableTypes[0] == "task";
    case Decision(_, _) => assert GeneratableTypes[1] == "decision";
    case Error(_, _) => assert GeneratableTypes[2] == "error";
  }

  /** The records `onFinish` sees: `object?.nodes`, or none when the stream did not validate. */
  function FinishedRecords(finished: Option<seq<Payload>>): seq<Payload>
  {
    match finished
    case Some(ps) => ps
    case None => []
  }
}
