/** What the schema checker's equality, its objects and its refusals mean, said of names and sub-schemas. */
module ValidDocuments {
  import opened Wrappers
  import opened Validation

  // ------------------------------------------------------------------ what equality means

  /** Only numbers are equal across kinds: `true`, 1 and 1.0 are, and no text is equal to anything else. */
  lemma EqualityInWords(a: Json, b: Json)
    ensures a.Null? || b.Null? || a.Str? || b.Str? ==> (PyEqual(a, b) <==> a == b)
    ensures IsNumeric(a) != IsNumeric(b) || a.Arr? != b.Arr? || a.Obj? != b.Obj? ==> !PyEqual(a, b)
    ensures a.Int? && b.Int? ==> (PyEqual(a, b) <==> a.n == b.n)
    ensures a.Float? && b.Float? ==> (PyEqual(a, b) <==> a.x == b.x)
    ensures a.Int? && b.Float? ==> (PyEqual(a, b) <==> a.n as real == b.x) && (PyEqual(b, a) <==> a.n as real == b.x)
    ensures a.Bool? ==> (PyEqual(a, b) <==> PyEqual(Int(if a.b then 1 else 0), b))
    ensures b.Bool? ==> (PyEqual(a, b) <==> PyEqual(a, Int(if b.b then 1 else 0)))
    ensures a.Arr? && b.Arr? ==>
      (PyEqual(a, b) <==> |a.items| == |b.items| && forall i | 0 <= i < |a.items| :: PyEqual(a.items[i], b.items[i]))
  {
  }

  predicate DistinctNames(fields: seq<Field>) {
    forall i, j | 0 <= i < j < |fields| :: fields[i].name != fields[j].name
  }

  function NamesOf(fields: seq<Field>): set<string> {
    set f | f in fields :: f.name
  }

  lemma {:induction false} FieldOfInWords(fields: seq<Field>, name: string)
    ensures FieldOf(fields, name).Some? <==> name in NamesOf(fields)
    ensures FieldOf(fields, name).Some? ==> Field(name, FieldOf(fields, name).value) in fields
    ensures DistinctNames(fields) ==> forall f | f in fields && f.name == name :: FieldOf(fields, name) == Some(f.value)
  {
    if fields != [] {
      FieldOfInWords(fields[1..], name);
      assert NamesOf(fields) == {fields[0].name} + NamesOf(fields[1..]);
    }
  }

  lemma {:induction false} AsManyNames(fields: seq<Field>)
    requires DistinctNames(fields)
    ensures |NamesOf(fields)| == |fields|
  {
    if fields != [] {
      AsManyNames(fields[1..]);
      assert NamesOf(fields) == {fields[0].name} + NamesOf(fields[1..]);
      assert fields[0].name !in NamesOf(fields[1..]);
    }
  }

  lemma {:induction false} SubsetIsAll<T>(a: set<T>, b: set<T>)
    requires a <= b && |a| >= |b|
    ensures a == b
  {
    if x :| x in b && x !in a {
      SubsetSize(a, b - {x});
    }
  }

  lemma {:induction false} SubsetSize<T>(a: set<T>, b: set<T>)
    requires a <= b
    ensures |a| <= |b|
  {
    if a != {} {
      var x :| x in a;
      SubsetSize(a - {x}, b - {x});
    }
  }

  /** Under a name both objects have an equal value, or neither has one. */
  predicate EqualUnder(a: seq<Field>, b: seq<Field>, name: string) {
    var x, y := FieldOf(a, name), FieldOf(b, name);
    if x.None? || y.None? then x.None? && y.None? else PyEqual(x.value, y.value)
  }

  /** Objects are equal if and only if they have the same names and equal values under them, in any order. */
  lemma ObjectsAreEqualByName(a: seq<Field>, b: seq<Field>)
    requires DistinctNames(a) && DistinctNames(b)
    ensures PyEqual(Obj(a), Obj(b)) <==> forall name :: EqualUnder(a, b, name)
  {
    AsManyNames(a);
    AsManyNames(b);
    if PyEqual(Obj(a), Obj(b)) {
      SameNames(a, b);
      forall name
        ensures EqualUnder(a, b, name)
      {
        FieldOfInWords(a, name);
        FieldOfInWords(b, name);
        if f :| f in a && f.name == name {
          var i :| 0 <= i < |a| && a[i] == f;
        }
      }
    }
    if forall name :: EqualUnder(a, b, name) {
      ByEveryName(a, b);
    }
  }

  lemma SameNames(a: seq<Field>, b: seq<Field>)
    requires DistinctNames(a) && DistinctNames(b) && PyEqual(Obj(a), Obj(b))
    ensures NamesOf(a) == NamesOf(b)
  {
    forall name | name in NamesOf(a)
      ensures name in NamesOf(b)
    {
      var i :| 0 <= i < |a| && a[i].name == name;
      FieldOfInWords(b, name);
    }
    AsManyNames(a);
    AsManyNames(b);
    SubsetIsAll(NamesOf(a), NamesOf(b));
  }

  lemma ByEveryName(a: seq<Field>, b: seq<Field>)
    requires DistinctNames(a) && DistinctNames(b) && forall name :: EqualUnder(a, b, name)
    ensures PyEqual(Obj(a), Obj(b))
  {
    forall name
      ensures name in NamesOf(a) <==> name in NamesOf(b)
    {
      FieldOfInWords(a, name);
      FieldOfInWords(b, name);
      assert EqualUnder(a, b, name);
    }
    assert NamesOf(a) == NamesOf(b);
    AsManyNames(a);
    AsManyNames(b);
    forall i | 0 <= i < |a|
      ensures FieldOf(b, a[i].name).Some? && PyEqual(a[i].value, FieldOf(b, a[i].name).value)
    {
      FieldOfInWords(a, a[i].name);
      assert EqualUnder(a, b, a[i].name);
    }
  }

  // ------------------------------------------------------------------ what a valid object is

  /** For an object, beyond its type, its enumeration and its constant: the required names are there, and where
      others are forbidden there are no others. */
  lemma ObjectNodeInWords(fields: seq<Field>, s: Schema, search: Search)
    ensures NodeValid(Obj(fields), s, search) <==>
      && TypeOk(Obj(fields), s.expected)
      && (s.enumeration.Some? ==> exists e :: e in s.enumeration.value && PyEqual(e, Obj(fields)))
      && (s.constant.Some? ==> PyEqual(Obj(fields), s.constant.value))
      && (forall name | name in s.required :: name in NamesOf(fields))
      && (s.additional.Forbidden? ==> NamesOf(fields) <= PropertyNames(s.properties))
  {
    forall name | name in s.required
      ensures FieldOf(fields, name).Some? <==> name in NamesOf(fields)
    {
      FieldOfInWords(fields, name);
    }
    forall f | f in fields
      ensures f.name in PropertyNames(s.properties) <==> HasProperty(s.properties, f.name)
    {
      if p :| p in s.properties && p.name == f.name {
        assert f.name in PropertyNames(s.properties);
      }
    }
  }

  function PropertyNames(properties: seq<Property>): set<string> {
    set p | p in properties :: p.name
  }

  // ------------------------------------------------------------------ what is refused

  /** The schema is `outer` or stands somewhere inside it, where the checker goes or not. */
  predicate Inside(outer: Schema, inner: Schema)
    decreases outer
  {
    || inner == outer
    || (outer.items.Some? && InsideSub(outer.items.value, inner))
    || (outer.additional.Described? && Inside(outer.additional.schema, inner))
    || exists i :: 0 <= i < |outer.properties| && InsideSub(outer.properties[i].sub, inner)
  }

  predicate InsideSub(sub: SubSchema, inner: Schema)
    decreases sub
  {
    sub.Sub? && Inside(sub.schema, inner)
  }

  lemma {:induction false} VettedInside(s: Schema, inner: Schema)
    requires Vetted(s) && Inside(s, inner)
    ensures inner.others <= {"$schema", "$comment", "title", "description"}
    decreases s
  {
    if inner != s {
      if s.items.Some? && InsideSub(s.items.value, inner) {
        VettedInside(s.items.value.schema, inner);
      } else if s.additional.Described? && Inside(s.additional.schema, inner) {
        VettedInside(s.additional.schema, inner);
      } else {
        var i :| 0 <= i < |s.properties| && InsideSub(s.properties[i].sub, inner);
        assert SubVetted(s.properties[i].sub);
        VettedInside(s.properties[i].sub.schema, inner);
      }
    }
  }

  lemma {:induction false} UnvettedInside(s: Schema) returns (inner: Schema)
    requires !Vetted(s)
    ensures Inside(s, inner) && !(inner.others <= {"$schema", "$comment", "title", "description"})
    decreases s
  {
    if !(s.others <= ANNOTATIONS) {
      inner := s;
    } else if s.items.Some? && !SubVetted(s.items.value) {
      inner := UnvettedInside(s.items.value.schema);
    } else if s.additional.Described? && !Vetted(s.additional.schema) {
      inner := UnvettedInside(s.additional.schema);
    } else {
      var i :| 0 <= i < |s.properties| && !SubVetted(s.properties[i].sub);
      inner := UnvettedInside(s.properties[i].sub.schema);
      assert InsideSub(s.properties[i].sub, inner);
    }
  }

  /** A schema is refused if and only if a keyword that is neither supported nor an annotation stands anywhere
      inside it. */
  lemma VettedExactlyWhen(s: Schema)
    ensures Vetted(s) <==> forall inner | Inside(s, inner) ::
      inner.others <= {"$schema", "$comment", "title", "description"}
  {
    if Vetted(s) {
      forall inner | Inside(s, inner)
        ensures inner.others <= {"$schema", "$comment", "title", "description"}
      {
        VettedInside(s, inner);
      }
    } else {
      var inner := UnvettedInside(s);
    }
  }
}
