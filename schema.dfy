/**
 * Plain-data replacements for reflection: the property inventories of the target
 * ("DB") type and of the filter-schema (query) type, name lookup, and records of
 * the target type.
 */
module Schema {
  import opened Wrappers
  import opened Values
  import opened Attributes

  /** A property of the target type, in declaration order. */
  datatype Prop = Prop(name: string, ty: PropType)

  /** A property of the filter-schema type with the filtering attributes it carries. */
  datatype FilterProp = FilterProp(name: string, ty: PropType, attrs: AttributeSet)

  /** The property carries at least one of the five operator attributes. */
  predicate Annotated(y: FilterProp) {
    y.attrs != map[]
  }

  /** Every declared property type is one .NET allows. */
  predicate WellFormedSchema(schema: seq<FilterProp>) {
    forall i | 0 <= i < |schema| :: WellFormedType(schema[i].ty)
  }

  /** The property of `db` called `name`, as `Expression.Property` looks it up. */
  function Find(db: seq<Prop>, name: string): (r: Option<nat>)
    ensures r.Some? ==> r.value < |db| && db[r.value].name == name
    ensures r.None? <==> forall i | 0 <= i < |db| :: db[i].name != name
  {
    if db == [] then None
    else if db[0].name == name then Some(0)
    else
      var rest := Find(db[1..], name);
      if rest.Some? then Some(rest.value + 1) else None
  }

  /** Ordinal `s.Contains(sub)`. */
  predicate IsSubstring(sub: string, s: string)
    decreases |s|
  {
    sub <= s || (s != [] && IsSubstring(sub, s[1..]))
  }

  /** `sub` occurs in `s` starting at position `i`. */
  predicate OccursAt(sub: string, s: string, i: int) {
    0 <= i <= |s| - |sub| && s[i..i + |sub|] == sub
  }

  /** `IsSubstring` holds exactly when `sub` occurs at some position of `s`. */
  lemma {:induction false} IsSubstringAt(sub: string, s: string)
    ensures IsSubstring(sub, s) <==> exists i :: OccursAt(sub, s, i)
  {
    if sub <= s {
      assert OccursAt(sub, s, 0);
    } else if s != [] {
      IsSubstringAt(sub, s[1..]);
      if IsSubstring(sub, s[1..]) {
        var i :| OccursAt(sub, s[1..], i);
        assert OccursAt(sub, s, i + 1);
      }
      if exists i :: OccursAt(sub, s, i) {
        var i :| OccursAt(sub, s, i);
        assert i != 0;
        assert OccursAt(sub, s[1..], i - 1);
      }
    }
  }

  /** `sub` cannot occur in a string that lacks its first character. */
  lemma {:induction false} FirstCharAbsent(sub: string, s: string)
    requires sub != [] && sub[0] !in s
    ensures !IsSubstring(sub, s)
    decreases |s|
  {
    if s != [] {
      assert s[0] in s;
      assert forall c | c in s[1..] :: c in s;
      FirstCharAbsent(sub, s[1..]);
    }
  }

  /** An instance of the target type: property name to value. */
  type Record = map<string, Value>

  /** The record has every property of `db`, each holding a value of its type. */
  predicate WellTypedRecord(db: seq<Prop>, rec: Record) {
    forall i | 0 <= i < |db| :: db[i].name in rec && HasType(rec[db[i].name], db[i].ty)
  }
}
