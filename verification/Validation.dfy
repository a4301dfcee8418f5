/** The JSON Schema subset checker: what it accepts, everything it reports, and what it refuses to check. */
module Validation {
  import opened Wrappers

  /** A parsed document. Fields keep the order of the text. */
  datatype Json =
    | Null
    | Bool(b: bool)
    | Int(n: int)
    | Float(x: real)
    | Str(s: string)
    | Arr(items: seq<Json>)
    | Obj(fields: seq<Field>)

  datatype Field = Field(name: string, value: Json)

  datatype TypeSpec = OneType(name: string) | AnyOf(names: seq<string>)

  /** A value in a sub-schema's place: an object, or something the checker passes over. */
  datatype SubSchema = Sub(schema: Schema) | NotAnObject

  datatype Additional = Unstated | Forbidden | Permitted | Described(schema: Schema)

  datatype Property = Property(name: string, sub: SubSchema)

  /** The keywords the checker acts on, and the names of all the others. */
  datatype Schema = Schema(
    expected: Option<TypeSpec>,
    enumeration: Option<seq<Json>>,
    constant: Option<Json>,
    minLength: Option<int>,
    maxLength: Option<int>,
    pattern: Option<string>,
    minimum: Option<real>,
    maximum: Option<real>,
    exclusiveMinimum: Option<real>,
    exclusiveMaximum: Option<real>,
    minItems: Option<int>,
    maxItems: Option<int>,
    items: Option<SubSchema>,
    properties: seq<Property>,
    required: seq<string>,
    additional: Additional,
    others: set<string>)

  /** The supported keywords that constrain nothing. */
  const ANNOTATIONS: set<string> := {"$schema", "$comment", "title", "description"}

  /** `re.search(pattern, text) is not None`. */
  type Search = (string, string) -> bool

  datatype Step = Name(name: string) | Index(index: nat)

  type Path = seq<Step>

  datatype Complaint =
    | WrongType | NotInEnum | NotTheConst
    | TooShort | TooLong | NoMatch
    | BelowMinimum | AboveMaximum | NotAboveMinimum | NotBelowMaximum
    | TooFew | TooMany
    | Missing | NotAllowed

  datatype Problem = Problem(path: Path, complaint: Complaint)

  function FieldOf(fields: seq<Field>, name: string): Option<Json> {
    if fields == [] then None
    else if fields[0].name == name then Some(fields[0].value)
    else FieldOf(fields[1..], name)
  }

  predicate HasProperty(properties: seq<Property>, name: string) {
    exists p :: p in properties && p.name == name
  }

  // ------------------------------------------------------------------ equality and types

  predicate IsNumeric(v: Json) {
    v.Bool? || v.Int? || v.Float?
  }

  /** Booleans compare as 0 and 1, and an integer with a float by value. */
  function NumberOf(v: Json): real
    requires IsNumeric(v)
  {
    match v
    case Bool(b) => if b then 1.0 else 0.0
    case Int(n) => n as real
    case Float(x) => x
  }

  predicate PyEqual(a: Json, b: Json)
    decreases a
  {
    if IsNumeric(a) && IsNumeric(b) then
      NumberOf(a) == NumberOf(b)
    else
      match a
      case Null => b.Null?
      case Str(s) => b == Str(s)
      case Arr(items) => b.Arr? && |items| == |b.items| && forall i | 0 <= i < |items| :: PyEqual(items[i], b.items[i])
      case Obj(fields) =>
        && b.Obj? && |fields| == |b.fields|
        && forall i | 0 <= i < |fields| ::
             var other := FieldOf(b.fields, fields[i].name);
             other.Some? && PyEqual(fields[i].value, other.value)
      case _ => false
  }

  predicate TypeMatches(v: Json, expected: string) {
    match expected
    case "integer" => v.Int?
    case "number" => v.Int? || v.Float?
    case "boolean" => v.Bool?
    case "object" => v.Obj?
    case "array" => v.Arr?
    case "string" => v.Str?
    case "null" => v.Null?
    case _ => false
  }

  /** A value has exactly one of the six kinds; a boolean is no number, and 1.0 is no integer. */
  lemma EveryValueHasOneKind(v: Json, kind: string, other: string)
    requires kind in {"object", "array", "string", "boolean", "null", "number"}
    requires other in {"object", "array", "string", "boolean", "null", "number"}
    ensures TypeMatches(v, kind) && TypeMatches(v, other) ==> kind == other
    ensures exists k :: k in {"object", "array", "string", "boolean", "null", "number"} && TypeMatches(v, k)
    ensures TypeMatches(v, "integer") <==> TypeMatches(v, "number") && !v.Float?
    ensures match v
            case Null => TypeMatches(v, "null")
            case Bool(_) => TypeMatches(v, "boolean")
            case Int(_) => TypeMatches(v, "number")
            case Float(_) => TypeMatches(v, "number")
            case Str(_) => TypeMatches(v, "string")
            case Arr(_) => TypeMatches(v, "array")
            case Obj(_) => TypeMatches(v, "object")
    ensures forall name | TypeMatches(v, name) ::
      name in {"object", "array", "string", "boolean", "null", "number", "integer"}
  {
    match v {
      case Null => assert TypeMatches(v, "null");
      case Bool(_) => assert TypeMatches(v, "boolean");
      case Int(_) => assert TypeMatches(v, "number");
      case Float(_) => assert TypeMatches(v, "number");
      case Str(_) => assert TypeMatches(v, "string");
      case Arr(_) => assert TypeMatches(v, "array");
      case Obj(_) => assert TypeMatches(v, "object");
    }
  }

  function Options(spec: TypeSpec): seq<string> {
    match spec
    case OneType(name) => [name]
    case AnyOf(names) => names
  }

  predicate TypeOk(v: Json, expected: Option<TypeSpec>) {
    expected.Some? ==> exists name :: name in Options(expected.value) && TypeMatches(v, name)
  }

  // ------------------------------------------------------------------ what a valid document is

  predicate Within(value: real, low: Option<real>, high: Option<real>) {
    (low.Some? ==> value >= low.value) && (high.Some? ==> value <= high.value)
  }

  predicate StrictlyWithin(value: real, low: Option<real>, high: Option<real>) {
    (low.Some? ==> value > low.value) && (high.Some? ==> value < high.value)
  }

  predicate SizeWithin(size: nat, low: Option<int>, high: Option<int>) {
    (low.Some? ==> size >= low.value) && (high.Some? ==> size <= high.value)
  }

  /** The supported keywords applied to one node, with Python's equality and types: an integer is no float,
      and 1.0 is no integer. */
  predicate NodeValid(v: Json, s: Schema, search: Search) {
    && TypeOk(v, s.expected)
    && (s.enumeration.Some? ==> exists e :: e in s.enumeration.value && PyEqual(e, v))
    && (s.constant.Some? ==> PyEqual(v, s.constant.value))
    && (v.Str? ==> SizeWithin(|v.s|, s.minLength, s.maxLength) && (s.pattern.Some? ==> search(s.pattern.value, v.s)))
    && (v.Int? || v.Float? ==>
          Within(NumberOf(v), s.minimum, s.maximum)
            && StrictlyWithin(NumberOf(v), s.exclusiveMinimum, s.exclusiveMaximum))
    && (v.Arr? ==> SizeWithin(|v.items|, s.minItems, s.maxItems))
    && (v.Obj? ==>
          && (forall name | name in s.required :: FieldOf(v.fields, name).Some?)
          && (s.additional.Forbidden? ==> forall f | f in v.fields :: HasProperty(s.properties, f.name)))
  }

  /** A document is valid when its node is and everything below it is, item by item and property by property. */
  predicate Valid(v: Json, s: Schema, search: Search)
    decreases s
  {
    && NodeValid(v, s, search)
    && (v.Arr? && s.items.Some? && s.items.value.Sub? ==>
          forall i | 0 <= i < |v.items| :: Valid(v.items[i], s.items.value.schema, search))
    && (v.Obj? ==>
          forall i | 0 <= i < |s.properties| && s.properties[i].sub.Sub? ::
            FieldOf(v.fields, s.properties[i].name).Some? ==>
              Valid(FieldOf(v.fields, s.properties[i].name).value, s.properties[i].sub.schema, search))
  }

  // ------------------------------------------------------------------ what is reported

  function When(condition: bool, path: Path, complaint: Complaint): seq<Problem> {
    if condition then [Problem(path, complaint)] else []
  }

  function StringProblems(text: string, s: Schema, path: Path, search: Search): seq<Problem> {
    When(s.minLength.Some? && |text| < s.minLength.value, path, TooShort)
    + When(s.maxLength.Some? && |text| > s.maxLength.value, path, TooLong)
    + When(s.pattern.Some? && !search(s.pattern.value, text), path, NoMatch)
  }

  function BoundProblems(value: real, s: Schema, path: Path): seq<Problem> {
    When(s.minimum.Some? && value < s.minimum.value, path, BelowMinimum)
    + When(s.maximum.Some? && value > s.maximum.value, path, AboveMaximum)
  }

  function StrictBoundProblems(value: real, s: Schema, path: Path): seq<Problem> {
    When(s.exclusiveMinimum.Some? && value <= s.exclusiveMinimum.value, path, NotAboveMinimum)
    + When(s.exclusiveMaximum.Some? && value >= s.exclusiveMaximum.value, path, NotBelowMaximum)
  }

  function NumberProblems(value: real, s: Schema, path: Path): seq<Problem> {
    BoundProblems(value, s, path) + StrictBoundProblems(value, s, path)
  }

  function SizeProblems(size: nat, s: Schema, path: Path): seq<Problem> {
    When(s.minItems.Some? && size < s.minItems.value, path, TooFew)
    + When(s.maxItems.Some? && size > s.maxItems.value, path, TooMany)
  }

  function MissingProblems(fields: seq<Field>, required: seq<string>, path: Path): seq<Problem> {
    if required == [] then []
    else
      var last := required[|required| - 1];
      MissingProblems(fields, required[..|required| - 1], path)
        + When(FieldOf(fields, last).None?, path + [Name(last)], Missing)
  }

  function ExtraProblems(fields: seq<Field>, properties: seq<Property>, path: Path): seq<Problem> {
    if fields == [] then []
    else
      var last := fields[|fields| - 1].name;
      ExtraProblems(fields[..|fields| - 1], properties, path)
        + When(!HasProperty(properties, last), path + [Name(last)], NotAllowed)
  }

  /** What the keywords for a value's own kind report. */
  function KindProblems(v: Json, s: Schema, path: Path, search: Search): seq<Problem> {
    match v
    case Str(text) => StringProblems(text, s, path, search)
    case Int(_) => NumberProblems(NumberOf(v), s, path)
    case Float(_) => NumberProblems(NumberOf(v), s, path)
    case Arr(items) => SizeProblems(|items|, s, path)
    case Obj(fields) => NameProblems(fields, s, path)
    case _ => []
  }

  function NameProblems(fields: seq<Field>, s: Schema, path: Path): seq<Problem> {
    MissingProblems(fields, s.required, path)
    + (if s.additional.Forbidden? then ExtraProblems(fields, s.properties, path) else [])
  }

  /** The problems of one node whose type is right. */
  function NodeProblems(v: Json, s: Schema, path: Path, search: Search): seq<Problem> {
    When(s.enumeration.Some? && !(exists e :: e in s.enumeration.value && PyEqual(e, v)), path, NotInEnum)
    + When(s.constant.Some? && !PyEqual(v, s.constant.value), path, NotTheConst)
    + KindProblems(v, s, path, search)
  }

  /** Everything the checker reports, in its order; nothing below a node of the wrong type. */
  function Problems(v: Json, s: Schema, path: Path, search: Search): seq<Problem>
    decreases s, 3, 0
  {
    if !TypeOk(v, s.expected) then
      [Problem(path, WrongType)]
    else
      NodeProblems(v, s, path, search) + ProblemsBelow(v, s, path, search)
  }

  function ProblemsBelow(v: Json, s: Schema, path: Path, search: Search): seq<Problem>
    decreases s, 2, 0
  {
    if v.Arr? then ItemProblems(v, s, path, search, |v.items|)
    else if v.Obj? then PropertyProblems(v, s, path, search, |s.properties|)
    else []
  }

  function ItemProblems(v: Json, s: Schema, path: Path, search: Search, n: nat): seq<Problem>
    requires v.Arr? && n <= |v.items|
    decreases s, 1, n
  {
    if n == 0 || s.items.None? || s.items.value.NotAnObject? then []
    else
      ItemProblems(v, s, path, search, n - 1) + OneItem(v, s, path, search, n - 1)
  }

  function OneItem(v: Json, s: Schema, path: Path, search: Search, i: nat): seq<Problem>
    requires v.Arr? && i < |v.items| && s.items.Some? && s.items.value.Sub?
    decreases s, 0, 0
  {
    Problems(v.items[i], s.items.value.schema, path + [Index(i)], search)
  }

  function PropertyProblems(v: Json, s: Schema, path: Path, search: Search, n: nat): seq<Problem>
    requires v.Obj? && n <= |s.properties|
    decreases s, 1, n
  {
    if n == 0 then []
    else
      PropertyProblems(v, s, path, search, n - 1) + OneProperty(v, s, path, search, n - 1)
  }

  function OneProperty(v: Json, s: Schema, path: Path, search: Search, i: nat): seq<Problem>
    requires v.Obj? && i < |s.properties|
    decreases s, 0, 0
  {
    var property := s.properties[i];
    var value := FieldOf(v.fields, property.name);
    if value.Some? && property.sub.Sub? then
      Problems(value.value, property.sub.schema, path + [Name(property.name)], search)
    else
      []
  }

  // ------------------------------------------------------------ nothing is reported exactly when the document is valid

  lemma BothEmpty(a: seq<Problem>, b: seq<Problem>)
    ensures a + b == [] <==> a == [] && b == []
  {
    assert |a + b| == |a| + |b|;
  }

  lemma {:induction false} MissingIsExact(fields: seq<Field>, required: seq<string>, path: Path)
    ensures MissingProblems(fields, required, path) == [] <==> forall name | name in required ::
      FieldOf(fields, name).Some?
  {
    if required != [] {
      var front, last := required[..|required| - 1], required[|required| - 1];
      MissingIsExact(fields, front, path);
      BothEmpty(MissingProblems(fields, front, path), When(FieldOf(fields, last).None?, path + [Name(last)], Missing));
      assert forall name :: name in required <==> name in front || name == last;
      assert last in required;
    }
  }

  lemma {:induction false} ExtraIsExact(fields: seq<Field>, properties: seq<Property>, path: Path)
    ensures ExtraProblems(fields, properties, path) == [] <==> forall f | f in fields :: HasProperty(properties, f.name)
  {
    if fields != [] {
      var front, last := fields[..|fields| - 1], fields[|fields| - 1];
      ExtraIsExact(front, properties, path);
      BothEmpty(ExtraProblems(front, properties, path),
                When(!HasProperty(properties, last.name), path + [Name(last.name)], NotAllowed));
      assert forall f :: f in fields <==> f in front || f == last;
      assert last in fields;
    }
  }

  lemma NodeIsExact(v: Json, s: Schema, path: Path, search: Search)
    ensures TypeOk(v, s.expected) && NodeProblems(v, s, path, search) == [] <==> NodeValid(v, s, search)
  {
    if v.Obj? {
      MissingIsExact(v.fields, s.required, path);
      ExtraIsExact(v.fields, s.properties, path);
    }
  }

  lemma {:induction false} ItemsAreExact(v: Json, s: Schema, path: Path, search: Search, n: nat)
    requires v.Arr? && n <= |v.items| && s.items.Some? && s.items.value.Sub?
    ensures ItemProblems(v, s, path, search, n) == [] <==> forall i | 0 <= i < n ::
      Valid(v.items[i], s.items.value.schema, search)
    decreases s, 1, n
  {
    if n > 0 {
      ItemsAreExact(v, s, path, search, n - 1);
      ItemIsExact(v, s, path, search, n - 1);
      BothEmpty(ItemProblems(v, s, path, search, n - 1), OneItem(v, s, path, search, n - 1));
    }
  }

  lemma {:induction false} ItemIsExact(v: Json, s: Schema, path: Path, search: Search, i: nat)
    requires v.Arr? && i < |v.items| && s.items.Some? && s.items.value.Sub?
    ensures OneItem(v, s, path, search, i) == [] <==> Valid(v.items[i], s.items.value.schema, search)
    decreases s, 0, 0
  {
    ProblemsAreExact(v.items[i], s.items.value.schema, path + [Index(i)], search);
  }

  lemma {:induction false} PropertiesAreExact(v: Json, s: Schema, path: Path, search: Search, n: nat)
    requires v.Obj? && n <= |s.properties|
    ensures PropertyProblems(v, s, path, search, n) == [] <==>
      forall i | 0 <= i < n && s.properties[i].sub.Sub? ::
        FieldOf(v.fields, s.properties[i].name).Some? ==>
          Valid(FieldOf(v.fields, s.properties[i].name).value, s.properties[i].sub.schema, search)
    decreases s, 1, n
  {
    if n > 0 {
      PropertiesAreExact(v, s, path, search, n - 1);
      PropertyIsExact(v, s, path, search, n - 1);
      BothEmpty(PropertyProblems(v, s, path, search, n - 1), OneProperty(v, s, path, search, n - 1));
    }
  }

  lemma {:induction false} PropertyIsExact(v: Json, s: Schema, path: Path, search: Search, i: nat)
    requires v.Obj? && i < |s.properties|
    ensures OneProperty(v, s, path, search, i) == [] <==>
      (s.properties[i].sub.Sub? && FieldOf(v.fields, s.properties[i].name).Some? ==>
        Valid(FieldOf(v.fields, s.properties[i].name).value, s.properties[i].sub.schema, search))
    decreases s, 0, 0
  {
    var property := s.properties[i];
    var value := FieldOf(v.fields, property.name);
    if value.Some? && property.sub.Sub? {
      ProblemsAreExact(value.value, property.sub.schema, path + [Name(property.name)], search);
    }
  }

  /** The checker reports nothing exactly when the document is valid. */
  lemma {:induction false} ProblemsAreExact(v: Json, s: Schema, path: Path, search: Search)
    ensures Problems(v, s, path, search) == [] <==> Valid(v, s, search)
    decreases s, 2, 0
  {
    NodeIsExact(v, s, path, search);
    BothEmpty(NodeProblems(v, s, path, search), ProblemsBelow(v, s, path, search));
    if v.Arr? && s.items.Some? && s.items.value.Sub? {
      ItemsAreExact(v, s, path, search, |v.items|);
    } else if v.Obj? {
      PropertiesAreExact(v, s, path, search, |s.properties|);
    } else {
      assert v.Arr? ==> ItemProblems(v, s, path, search, |v.items|) == [];
      assert ProblemsBelow(v, s, path, search) == [];
    }
  }

  // ------------------------------------------------------------------ every failure is reported, where it is

  /** What the checker checks one step below a node. */
  datatype Node = Node(value: Json, schema: Schema)

  /** `below` is checked when `above` is: an item under `items`, or a present property under its schema. */
  predicate Descends(above: Node, step: Step, below: Node) {
    && TypeOk(above.value, above.schema.expected)
    && (match step
        case Index(i) =>
          && above.value.Arr? && i < |above.value.items| && above.schema.items == Some(Sub(below.schema))
          && below.value == above.value.items[i]
        case Name(name) =>
          && above.value.Obj? && Property(name, Sub(below.schema)) in above.schema.properties
          && FieldOf(above.value.fields, name) == Some(below.value))
  }

  /** A walk of the checker from the root of a document to the node it has come to. */
  ghost predicate Walk(nodes: seq<Node>, steps: Path) {
    |nodes| == |steps| + 1 && forall i | 0 <= i < |steps| :: Descends(nodes[i], steps[i], nodes[i + 1])
  }

  lemma {:induction false} ItemIsReported(v: Json, s: Schema, path: Path, search: Search, n: nat, i: nat, p: Problem)
    requires v.Arr? && i < n <= |v.items| && s.items.Some? && s.items.value.Sub?
    requires p in OneItem(v, s, path, search, i)
    ensures p in ItemProblems(v, s, path, search, n)
    decreases n
  {
    if i < n - 1 {
      ItemIsReported(v, s, path, search, n - 1, i, p);
    }
  }

  lemma {:induction false} PropertyIsReported(v: Json, s: Schema, path: Path, search: Search, n: nat, i: nat,
                                              p: Problem)
    requires v.Obj? && i < n <= |s.properties|
    requires p in OneProperty(v, s, path, search, i)
    ensures p in PropertyProblems(v, s, path, search, n)
    decreases n
  {
    if i < n - 1 {
      PropertyIsReported(v, s, path, search, n - 1, i, p);
    }
  }

  lemma StepIsReported(above: Node, step: Step, below: Node, path: Path, search: Search, p: Problem)
    requires Descends(above, step, below) && p in Problems(below.value, below.schema, path + [step], search)
    ensures p in Problems(above.value, above.schema, path, search)
  {
    var v, s := above.value, above.schema;
    match step
    case Index(i) =>
      ItemIsReported(v, s, path, search, |v.items|, i, p);
    case Name(name) =>
      var i :| 0 <= i < |s.properties| && s.properties[i] == Property(name, Sub(below.schema));
      PropertyIsReported(v, s, path, search, |s.properties|, i, p);
  }

  /** Whatever is wrong at a node the checker comes to is in the root's report, under that node's path:
      all of the problems, not the first. */
  lemma {:induction false} EveryProblemIsReported(nodes: seq<Node>, steps: Path, path: Path, search: Search, p: Problem)
    requires Walk(nodes, steps)
    requires p in Problems(nodes[|steps|].value, nodes[|steps|].schema, path + steps, search)
    ensures p in Problems(nodes[0].value, nodes[0].schema, path, search)
    decreases |steps|
  {
    if steps == [] {
      assert path + steps == path;
    } else {
      var n := |steps| - 1;
      assert Descends(nodes[n], steps[n], nodes[n + 1]);
      assert path + steps == path + steps[..n] + [steps[n]];
      StepIsReported(nodes[n], steps[n], nodes[n + 1], path + steps[..n], search, p);
      ShorterWalk(nodes, steps);
      EveryProblemIsReported(nodes[..n + 1], steps[..n], path, search, p);
    }
  }

  lemma ShorterWalk(nodes: seq<Node>, steps: Path)
    requires Walk(nodes, steps) && steps != []
    ensures Walk(nodes[..|steps|], steps[..|steps| - 1])
  {
    var shorter, fewer := nodes[..|steps|], steps[..|steps| - 1];
    forall i | 0 <= i < |fewer|
      ensures Descends(shorter[i], fewer[i], shorter[i + 1])
    {
      assert Descends(nodes[i], steps[i], nodes[i + 1]);
    }
  }

  // ------------------------------------------------------------------ refusing what cannot be checked

  predicate SubVetted(sub: SubSchema)
    decreases sub
  {
    sub.Sub? ==> Vetted(sub.schema)
  }

  /** No keyword outside the supported ones, here or in any sub-schema. */
  predicate Vetted(s: Schema)
    decreases s
  {
    && s.others <= ANNOTATIONS
    && (s.items.Some? ==> SubVetted(s.items.value))
    && (s.additional.Described? ==> Vetted(s.additional.schema))
    && forall i | 0 <= i < |s.properties| :: SubVetted(s.properties[i].sub)
  }

  /** A vetted schema has nothing unvetted anywhere the checker goes. */
  lemma {:induction false} EverySchemaVisitedWasVetted(nodes: seq<Node>, steps: Path)
    requires Walk(nodes, steps) && Vetted(nodes[0].schema)
    ensures Vetted(nodes[|steps|].schema)
    decreases |steps|
  {
    if steps != [] {
      var n := |steps| - 1;
      ShorterWalk(nodes, steps);
      EverySchemaVisitedWasVetted(nodes[..n + 1], steps[..n]);
      assert Descends(nodes[n], steps[n], nodes[n + 1]);
      assert SubVetted(Sub(nodes[n + 1].schema));
    }
  }

  // ------------------------------------------------------------------ the checker

  class ProblemList {
    var problems: seq<Problem>

    constructor ()
      ensures problems == []
    {
      problems := [];
    }

    method Append(path: Path, complaint: Complaint)
      modifies this
      ensures problems == old(problems) + [Problem(path, complaint)]
    {
      problems := problems + [Problem(path, complaint)];
    }

    method AppendWhen(condition: bool, path: Path, complaint: Complaint)
      modifies this
      ensures problems == old(problems) + When(condition, path, complaint)
    {
      if condition {
        Append(path, complaint);
      }
    }
  }

  method CheckString(text: string, s: Schema, path: Path, search: Search, list: ProblemList)
    modifies list
    ensures list.problems == old(list.problems) + StringProblems(text, s, path, search)
  {
    list.AppendWhen(s.minLength.Some? && |text| < s.minLength.value, path, TooShort);
    list.AppendWhen(s.maxLength.Some? && |text| > s.maxLength.value, path, TooLong);
    list.AppendWhen(s.pattern.Some? && !search(s.pattern.value, text), path, NoMatch);
  }

  /** Each bound is compared with a default that passes, and reported only when the keyword is there. */
  method CheckNumber(value: real, s: Schema, path: Path, list: ProblemList)
    modifies list
    ensures list.problems == old(list.problems) + NumberProblems(value, s, path)
  {
    CheckBounds(value, s, path, list);
    CheckStrictBounds(value, s, path, list);
  }

  method CheckBounds(value: real, s: Schema, path: Path, list: ProblemList)
    modifies list
    ensures list.problems == old(list.problems) + BoundProblems(value, s, path)
  {
    var atLeast := value >= (if s.minimum.Some? then s.minimum.value else value);
    var atMost := value <= (if s.maximum.Some? then s.maximum.value else value);
    list.AppendWhen(s.minimum.Some? && !atLeast, path, BelowMinimum);
    list.AppendWhen(s.maximum.Some? && !atMost, path, AboveMaximum);
  }

  method CheckStrictBounds(value: real, s: Schema, path: Path, list: ProblemList)
    modifies list
    ensures list.problems == old(list.problems) + StrictBoundProblems(value, s, path)
  {
    var above := value > (if s.exclusiveMinimum.Some? then s.exclusiveMinimum.value else value - 1.0);
    var below := value < (if s.exclusiveMaximum.Some? then s.exclusiveMaximum.value else value + 1.0);
    list.AppendWhen(s.exclusiveMinimum.Some? && !above, path, NotAboveMinimum);
    list.AppendWhen(s.exclusiveMaximum.Some? && !below, path, NotBelowMaximum);
  }

  method CheckSize(size: nat, s: Schema, path: Path, list: ProblemList)
    modifies list
    ensures list.problems == old(list.problems) + SizeProblems(size, s, path)
  {
    list.AppendWhen(s.minItems.Some? && size < s.minItems.value, path, TooFew);
    list.AppendWhen(s.maxItems.Some? && size > s.maxItems.value, path, TooMany);
  }

  lemma Appended(was: seq<Problem>, a: seq<Problem>, b: seq<Problem>)
    ensures was + a + b == was + (a + b)
  {
  }

  method CheckRequired(fields: seq<Field>, required: seq<string>, path: Path, list: ProblemList)
    modifies list
    ensures list.problems == old(list.problems) + MissingProblems(fields, required, path)
  {
    ghost var was := list.problems;
    var i := 0;
    while i < |required|
      invariant 0 <= i <= |required|
      invariant list.problems == was + MissingProblems(fields, required[..i], path)
    {
      assert required[..i + 1][..i] == required[..i];
      Appended(was, MissingProblems(fields, required[..i], path),
               When(FieldOf(fields, required[i]).None?, path + [Name(required[i])], Missing));
      list.AppendWhen(FieldOf(fields, required[i]).None?, path + [Name(required[i])], Missing);
      i := i + 1;
    }
    assert required[..i] == required;
  }

  method CheckExtra(fields: seq<Field>, properties: seq<Property>, path: Path, list: ProblemList)
    modifies list
    ensures list.problems == old(list.problems) + ExtraProblems(fields, properties, path)
  {
    ghost var was := list.problems;
    var i := 0;
    while i < |fields|
      invariant 0 <= i <= |fields|
      invariant list.problems == was + ExtraProblems(fields[..i], properties, path)
    {
      assert fields[..i + 1][..i] == fields[..i];
      Appended(was, ExtraProblems(fields[..i], properties, path),
               When(!HasProperty(properties, fields[i].name), path + [Name(fields[i].name)], NotAllowed));
      list.AppendWhen(!HasProperty(properties, fields[i].name), path + [Name(fields[i].name)], NotAllowed);
      i := i + 1;
    }
    assert fields[..i] == fields;
  }

  method CheckNames(fields: seq<Field>, s: Schema, path: Path, list: ProblemList)
    modifies list
    ensures list.problems == old(list.problems) + NameProblems(fields, s, path)
  {
    CheckRequired(fields, s.required, path, list);
    if s.additional.Forbidden? {
      CheckExtra(fields, s.properties, path, list);
    }
  }

  method CheckItem(v: Json, s: Schema, path: Path, search: Search, i: nat, list: ProblemList)
    requires v.Arr? && i < |v.items| && s.items.Some? && s.items.value.Sub?
    modifies list
    ensures list.problems == old(list.problems) + OneItem(v, s, path, search, i)
    decreases s, 0
  {
    CheckNode(v.items[i], s.items.value.schema, path + [Index(i)], search, list);
  }

  method CheckItems(v: Json, s: Schema, path: Path, search: Search, list: ProblemList)
    requires v.Arr?
    modifies list
    ensures list.problems == old(list.problems) + ItemProblems(v, s, path, search, |v.items|)
    decreases s, 1
  {
    ghost var was := list.problems;
    if s.items.Some? && s.items.value.Sub? {
      var i := 0;
      while i < |v.items|
        invariant 0 <= i <= |v.items|
        invariant list.problems == was + ItemProblems(v, s, path, search, i)
      {
        CheckItem(v, s, path, search, i, list);
        Appended(was, ItemProblems(v, s, path, search, i), OneItem(v, s, path, search, i));
        i := i + 1;
      }
    }
  }

  method CheckProperties(v: Json, s: Schema, path: Path, search: Search, list: ProblemList)
    requires v.Obj?
    modifies list
    ensures list.problems == old(list.problems) + PropertyProblems(v, s, path, search, |s.properties|)
    decreases s, 1
  {
    ghost var was := list.problems;
    var i := 0;
    while i < |s.properties|
      invariant 0 <= i <= |s.properties|
      invariant list.problems == was + PropertyProblems(v, s, path, search, i)
    {
      var property := s.properties[i];
      var value := FieldOf(v.fields, property.name);
      if value.Some? && property.sub.Sub? {
        CheckNode(value.value, property.sub.schema, path + [Name(property.name)], search, list);
      }
      Appended(was, PropertyProblems(v, s, path, search, i), OneProperty(v, s, path, search, i));
      i := i + 1;
    }
  }

  /** The checks for a value's own kind, then what lies below it. */
  method CheckKind(v: Json, s: Schema, path: Path, search: Search, list: ProblemList)
    modifies list
    ensures list.problems == old(list.problems) + KindProblems(v, s, path, search) + ProblemsBelow(v, s, path, search)
    decreases s, 2
  {
    match v {
      case Str(text) => CheckString(text, s, path, search, list);
      case Int(n) => CheckNumber(n as real, s, path, list);
      case Float(x) => CheckNumber(x, s, path, list);
      case Arr(items) =>
        CheckSize(|items|, s, path, list);
        CheckItems(v, s, path, search, list);
      case Obj(fields) =>
        CheckNames(fields, s, path, list);
        CheckProperties(v, s, path, search, list);
      case _ =>
    }
  }

  /** Appends to the shared list exactly the problems of one document. */
  method CheckNode(v: Json, s: Schema, path: Path, search: Search, list: ProblemList)
    modifies list
    ensures list.problems == old(list.problems) + Problems(v, s, path, search)
    decreases s, 3
  {
    ghost var was := list.problems;
    if !TypeOk(v, s.expected) {
      list.Append(path, WrongType);
      return;
    }
    var notInEnum := s.enumeration.Some? && !(exists e :: e in s.enumeration.value && PyEqual(e, v));
    var notConst := s.constant.Some? && !PyEqual(v, s.constant.value);
    list.AppendWhen(notInEnum, path, NotInEnum);
    list.AppendWhen(notConst, path, NotTheConst);
    CheckKind(v, s, path, search, list);
    Joined(was, When(notInEnum, path, NotInEnum), When(notConst, path, NotTheConst),
           KindProblems(v, s, path, search), ProblemsBelow(v, s, path, search));
  }

  lemma Joined(was: seq<Problem>, a: seq<Problem>, b: seq<Problem>, c: seq<Problem>, d: seq<Problem>)
    ensures was + a + b + c + d == was + (a + b + c + d)
  {
  }

  datatype Check = Check(passed: bool, fields: seq<Problem>)

  /** A schema that uses anything unsupported is refused; otherwise the check passes exactly when the
      document is valid, and carries every problem when it is not. */
  method ValidateSchema(parsed: Json, schema: Schema, search: Search) returns (check: Result<Check, string>)
    ensures check.Err? <==> !Vetted(schema)
    ensures check.Ok? ==> (check.value.passed <==> Valid(parsed, schema, search))
    ensures check.Ok? ==> check.value.fields == Problems(parsed, schema, [], search)
  {
    if !Vetted(schema) {
      return Err("SCHEMA_UNSUPPORTED");
    }
    var list := new ProblemList();
    CheckNode(parsed, schema, [], search, list);
    ProblemsAreExact(parsed, schema, [], search);
    check := Ok(Check(list.problems == [], list.problems));
  }
}
