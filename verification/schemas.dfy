/** Cleaning a JSON Schema down to the keywords that Google's schema check knows. */
module Schemas {
  /** The other supported keywords; their values are kept as they are, unless they are objects. */
  datatype Keyword =
    | Format
    | Description
    | Enum
    | Title
    | Minimum
    | Maximum
    | MinItems
    | MaxItems
    | MinLength
    | MaxLength
                   | Pattern | Required | PropertyOrdering

  /** A member name: the keywords the cleaning or the meaning treats specially, the plain ones, and any other text. */
  datatype Key =
    | Type
    | Nullable
    | Items
    | Properties
    | AnyOf
    | Plain(keyword: Keyword)
    | PrefixItems
    | Other(name: string)

  /** An object is the list of its members; their names are distinct, and their order means nothing. */
  datatype Json =
    | Null
    | Bool(value: bool)
    | Number(n: int)
    | Text(text: string)
    | Array(items: seq<Json>)
    | Object(members: seq<Member>)

  datatype Member = Member(key: Key, value: Json)

  predicate Supported(key: Key) {
    !key.PrefixItems? && !key.Other?
  }

  const NULL_TYPE := Member(Type, Text("null"))

  /** A variant that says `type: "null"`. */
  predicate IsNullVariant(v: Json) {
    v.Object? && NULL_TYPE in v.members
  }

  const NULLABLE := Member(Nullable, Bool(true))

  /** `insert("nullable", true)`. */
  function SetNullable(members: seq<Member>): seq<Member> {
    if members == [] then [NULLABLE]
    else if members[0].key.Nullable? then [NULLABLE] + members[1..]
    else [members[0]] + SetNullable(members[1..])
  }

  function MarkFirst(variants: seq<Json>): seq<Json>
    requires variants != []
  {
    if variants[0].Object? then [Object(SetNullable(variants[0].members))] + variants[1..] else variants
  }

  // ---------- the cleaning ----------

  function Stripped(v: Json): Json
    decreases v
  {
    if v.Object? then Object(StrippedMembers(v.members)) else v
  }

  function StrippedMembers(members: seq<Member>): seq<Member>
    decreases members
  {
    if members == [] then [] else StrippedMember(members[0]) + StrippedMembers(members[1..])
  }

  /** What becomes of one member of a schema: nothing, or one member. */
  function StrippedMember(m: Member): seq<Member>
    decreases m
  {
    if m.key.Properties? then
      if m.value.Object? && m.value.members != [] then [Member(Properties, Object(StrippedProperties(m.value.members)))]
      else []
    else if !Supported(m.key) then []
    else if m.key.AnyOf? then
      if !m.value.Array? then []
      else
        var kept := StrippedVariants(m.value.items);
        if kept == [] then []
        else [Member(AnyOf, Array(if |kept| < |m.value.items| then MarkFirst(kept) else kept))]
    else [Member(m.key, Stripped(m.value))]
  }

  function StrippedProperties(properties: seq<Member>): seq<Member>
    decreases properties
  {
    if properties == [] then [] else [StrippedProperty(properties[0])] + StrippedProperties(properties[1..])
  }

  function StrippedProperty(property: Member): Member
    decreases property
  {
    Member(property.key, Stripped(property.value))
  }

  function StrippedVariants(variants: seq<Json>): seq<Json>
    decreases variants
  {
    if variants == [] then []
    else (if IsNullVariant(variants[0]) then [] else [Stripped(variants[0])]) + StrippedVariants(variants[1..])
  }

  /** `strip_unsupported_schema`: recursion over values, with a loop that fills a fresh object. */
  method StripUnsupported(params: Json) returns (cleaned: Json)
    ensures cleaned == Stripped(params)
    decreases params
  {
    if !params.Object? { return params; }
    var out := [];
    var i := 0;
    assert params.members[0..] == params.members;
    while i < |params.members|
      invariant i <= |params.members| && out + StrippedMembers(params.members[i..]) == StrippedMembers(params.members)
    {
      var m := params.members[i];
      assert m < params;
      var kept := StripMember(m);
      assert params.members[i..][0] == m && params.members[i..][1..] == params.members[i + 1..];
      assert out + (kept + StrippedMembers(params.members[i + 1..])) ==
        out + kept + StrippedMembers(params.members[i + 1..]);
      out := out + kept;
      i := i + 1;
    }
    assert params.members[i..] == [];
    return Object(out);
  }

  /** The loop body: one member of the object being cleaned. */
  method StripMember(m: Member) returns (kept: seq<Member>)
    ensures kept == StrippedMember(m)
    decreases m
  {
    if m.key.Properties? {
      if !m.value.Object? { return []; }
      var properties := StripProperties(m.value.members);
      assert properties == [] <==> m.value.members == [];
      if properties == [] { return []; }
      return [Member(Properties, Object(properties))];
    }
    if !Supported(m.key) { return []; }
    if m.key.AnyOf? {
      if !m.value.Array? { return []; }
      var variants := StripVariants(m.value.items);
      if variants == [] { return []; }
      return [Member(AnyOf, Array(if |variants| < |m.value.items| then MarkFirst(variants) else variants))];
    }
    var value := StripUnsupported(m.value);
    return [Member(m.key, value)];
  }

  method StripProperties(properties: seq<Member>) returns (kept: seq<Member>)
    ensures kept == StrippedProperties(properties)
    decreases properties
  {
    kept := [];
    var i := 0;
    assert properties[0..] == properties;
    while i < |properties|
      invariant i <= |properties| && kept + StrippedProperties(properties[i..]) == StrippedProperties(properties)
    {
      var property := StripProperty(properties[i]);
      assert properties[i..][0] == properties[i] && properties[i..][1..] == properties[i + 1..];
      kept := kept + [property];
      i := i + 1;
    }
    assert properties[i..] == [];
  }

  method StripProperty(property: Member) returns (kept: Member)
    ensures kept == StrippedProperty(property)
    decreases property
  {
    var value := StripUnsupported(property.value);
    return Member(property.key, value);
  }

  method StripVariants(variants: seq<Json>) returns (kept: seq<Json>)
    ensures kept == StrippedVariants(variants)
    decreases variants
  {
    kept := [];
    var i := 0;
    ghost var rest := variants;
    while i < |variants|
      invariant i <= |variants| && rest == variants[i..]
      invariant kept + StrippedVariants(rest) == StrippedVariants(variants)
    {
      if !IsNullVariant(variants[i]) {
        var variant := StripUnsupported(variants[i]);
        kept := kept + [variant];
      }
      rest := rest[1..];
      i := i + 1;
    }
  }

  // ---------- the result is clean, and clean schemas stay as they are ----------

  predicate Clean(v: Json)
    decreases v
  {
    v.Object? ==> CleanMembers(v.members)
  }

  predicate CleanMembers(members: seq<Member>)
    decreases members
  {
    members == [] || (CleanMember(members[0]) && CleanMembers(members[1..]))
  }

  /** Only supported keywords, and below `properties` and `anyOf` only clean schemas; no null variants. */
  predicate CleanMember(m: Member)
    decreases m
  {
    !m.key.PrefixItems? && !m.key.Other? &&
    (if m.key.Properties? then m.value.Object? && m.value.members != [] && CleanProperties(m.value.members)
     else if m.key.AnyOf? then m.value.Array? && m.value.items != [] && CleanVariants(m.value.items)
     else Clean(m.value))
  }

  predicate CleanProperties(properties: seq<Member>)
    decreases properties
  {
    properties == [] || (CleanProperty(properties[0]) && CleanProperties(properties[1..]))
  }

  predicate CleanProperty(property: Member)
    decreases property
  {
    Clean(property.value)
  }

  predicate CleanVariants(variants: seq<Json>)
    decreases variants
  {
    variants == [] || (!IsNullVariant(variants[0]) && Clean(variants[0]) && CleanVariants(variants[1..]))
  }

  lemma {:induction false} CleanConcat(a: seq<Member>, b: seq<Member>)
    ensures CleanMembers(a + b) <==> CleanMembers(a) && CleanMembers(b)
  {
    if a == [] {
      assert a + b == b;
    } else {
      assert (a + b)[1..] == a[1..] + b;
      CleanConcat(a[1..], b);
    }
  }

  lemma {:induction false} NullableStaysClean(members: seq<Member>)
    requires CleanMembers(members)
    ensures CleanMembers(SetNullable(members))
  {
    if members != [] {
      var rest := if members[0].key.Nullable? then members[1..] else SetNullable(members[1..]);
      if !members[0].key.Nullable? { NullableStaysClean(members[1..]); }
      assert SetNullable(members)[1..] == rest;
    } else {
      assert CleanMembers([NULLABLE][1..]);
    }
  }

  lemma {:induction false} NullableKeepsType(members: seq<Member>)
    ensures NULL_TYPE in SetNullable(members) <==> NULL_TYPE in members
  {
    if members != [] {
      assert members == [members[0]] + members[1..];
      if !members[0].key.Nullable? { NullableKeepsType(members[1..]); }
    }
  }

  lemma {:induction false} StrippedMembersMean(members: seq<Member>, m: Member)
    requires m.key.Type? || m.key.Nullable?
    requires !m.value.Object?
    ensures m in StrippedMembers(members) <==> m in members
  {
    if members != [] {
      assert members == [members[0]] + members[1..];
      if members[0].key.Type? || members[0].key.Nullable? {
        assert StrippedMember(members[0]) == [Member(members[0].key, Stripped(members[0].value))];
      }
      StrippedMembersMean(members[1..], m);
    }
  }

  lemma {:induction false} StrippedIsClean(v: Json)
    ensures Clean(Stripped(v))
    decreases v
  {
    if v.Object? { StrippedMembersAreClean(v.members); }
  }

  lemma {:induction false} StrippedMembersAreClean(members: seq<Member>)
    ensures CleanMembers(StrippedMembers(members))
    decreases members
  {
    if members != [] {
      StrippedMemberIsClean(members[0]);
      StrippedMembersAreClean(members[1..]);
      CleanConcat(StrippedMember(members[0]), StrippedMembers(members[1..]));
    }
  }

  lemma SingleIsClean(m: Member)
    requires CleanMember(m)
    ensures CleanMembers([m])
  {
    assert [m][1..] == [];
  }

  lemma {:induction false} StrippedMemberIsClean(m: Member)
    ensures CleanMembers(StrippedMember(m))
    decreases m
  {
    if m.key.Properties? {
      if m.value.Object? && m.value.members != [] {
        StrippedPropertiesAreClean(m.value.members);
        SingleIsClean(StrippedMember(m)[0]);
      }
    } else if Supported(m.key) {
      if m.key.AnyOf? {
        if m.value.Array? {
          StrippedVariantsAreClean(m.value.items);
          var kept := StrippedVariants(m.value.items);
          if kept != [] {
            if kept[0].Object? {
              NullableStaysClean(kept[0].members);
              NullableKeepsType(kept[0].members);
              assert MarkFirst(kept)[1..] == kept[1..];
            }
            SingleIsClean(StrippedMember(m)[0]);
          }
        }
      } else {
        StrippedIsClean(m.value);
        SingleIsClean(StrippedMember(m)[0]);
      }
    }
  }

  lemma {:induction false} StrippedPropertiesAreClean(properties: seq<Member>)
    ensures CleanProperties(StrippedProperties(properties))
    decreases properties
  {
    if properties != [] {
      StrippedPropertyIsClean(properties[0]);
      StrippedPropertiesAreClean(properties[1..]);
      assert StrippedProperties(properties)[1..] == StrippedProperties(properties[1..]);
    }
  }

  lemma {:induction false} StrippedPropertyIsClean(property: Member)
    ensures CleanProperty(StrippedProperty(property))
    decreases property
  {
    StrippedIsClean(property.value);
  }

  lemma {:induction false} StrippedVariantsAreClean(variants: seq<Json>)
    ensures CleanVariants(StrippedVariants(variants))
    decreases variants
  {
    if variants != [] {
      StrippedVariantsAreClean(variants[1..]);
      assert [] + StrippedVariants(variants[1..]) == StrippedVariants(variants[1..]);
      if !IsNullVariant(variants[0]) {
        StrippedIsClean(variants[0]);
        if variants[0].Object? { StrippedMembersMean(variants[0].members, NULL_TYPE); }
        assert StrippedVariants(variants)[1..] == StrippedVariants(variants[1..]);
      }
    }
  }

  /** Cleaning leaves a clean schema exactly as it is. */
  lemma {:induction false} CleanIsKept(v: Json)
    requires Clean(v)
    ensures Stripped(v) == v
    decreases v
  {
    if v.Object? { CleanMembersAreKept(v.members); }
  }

  lemma {:induction false} CleanMembersAreKept(members: seq<Member>)
    requires CleanMembers(members)
    ensures StrippedMembers(members) == members
    decreases members
  {
    if members != [] {
      CleanMemberIsKept(members[0]);
      CleanMembersAreKept(members[1..]);
      assert [members[0]] + members[1..] == members;
    }
  }

  lemma {:induction false} CleanMemberIsKept(m: Member)
    requires CleanMember(m)
    ensures StrippedMember(m) == [m]
    decreases m
  {
    if m.key.Properties? {
      CleanPropertiesAreKept(m.value.members);
    } else if m.key.AnyOf? {
      CleanVariantsAreKept(m.value.items);
    } else {
      CleanIsKept(m.value);
    }
  }

  lemma {:induction false} CleanPropertiesAreKept(properties: seq<Member>)
    requires CleanProperties(properties)
    ensures StrippedProperties(properties) == properties
    decreases properties
  {
    if properties != [] {
      CleanPropertyIsKept(properties[0]);
      CleanPropertiesAreKept(properties[1..]);
      assert [properties[0]] + properties[1..] == properties;
    }
  }

  lemma {:induction false} CleanPropertyIsKept(property: Member)
    requires CleanProperty(property)
    ensures StrippedProperty(property) == property
    decreases property
  {
    CleanIsKept(property.value);
  }

  lemma {:induction false} CleanVariantsAreKept(variants: seq<Json>)
    requires CleanVariants(variants)
    ensures StrippedVariants(variants) == variants
    decreases variants
  {
    if variants != [] {
      CleanIsKept(variants[0]);
      CleanVariantsAreKept(variants[1..]);
      assert [variants[0]] + variants[1..] == variants;
    }
  }

  /** Cleaning twice is cleaning once. */
  lemma StrippingIsIdempotent(v: Json)
    ensures Stripped(Stripped(v)) == Stripped(v)
  {
    StrippedIsClean(v);
    CleanIsKept(Stripped(v));
  }

  /** Property names are not keywords: all of them survive, each with its own schema cleaned. */
  lemma {:induction false} PropertyNamesSurvive(properties: seq<Member>, i: nat)
    requires i < |properties|
    ensures |StrippedProperties(properties)| == |properties|
    ensures StrippedProperties(properties)[i] == Member(properties[i].key, Stripped(properties[i].value))
  {
    if |properties| > 1 { PropertyNamesSurvive(properties[1..], if i == 0 then 0 else i - 1); }
  }

  /** The second object has the same properties in the same order, each with its own schema cleaned. */
  predicate SameProperties(before: seq<Member>, after: seq<Member>) {
    |after| == |before| &&
    forall i :: 0 <= i < |before| ==> after[i].key == before[i].key && after[i].value == Stripped(before[i].value)
  }

  /** What a member of a schema leaves in the cleaned schema. */
  lemma {:induction false} MemberLeaves(members: seq<Member>, m: Member)
    requires m in members
    ensures forall c :: c in StrippedMember(m) ==> c in StrippedMembers(members)
  {
    assert members == [members[0]] + members[1..];
    if m != members[0] { MemberLeaves(members[1..], m); }
  }

  /** Nothing else is in the cleaned schema. */
  lemma {:induction false} MemberComesFrom(members: seq<Member>, c: Member) returns (m: Member)
    requires c in StrippedMembers(members)
    ensures m in members && c in StrippedMember(m) && c.key == m.key
  {
    if c in StrippedMember(members[0]) { m := members[0]; } else { m := MemberComesFrom(members[1..], c); }
  }

  /**
    PROPERTIES.  A cleaned schema has a `properties` member exactly if the schema had one that is an object
    with members, and then all of its names in the same order, each with its own schema cleaned.
  */
  lemma PropertiesSurvive(members: seq<Member>)
    ensures forall m :: m in members && m.key.Properties? && m.value.Object? && m.value.members != [] ==>
      exists c :: c in StrippedMembers(members) && c.key.Properties? && c.value.Object? &&
                  SameProperties(m.value.members, c.value.members)
    ensures forall c :: c in StrippedMembers(members) && c.key.Properties? ==>
      exists m :: m in members && m.key.Properties? && m.value.Object? && m.value.members != [] &&
                  c.value.Object? && SameProperties(m.value.members, c.value.members)
  {
    forall m | m in members && m.key.Properties? && m.value.Object? && m.value.members != []
      ensures exists c :: c in StrippedMembers(members) && c.key.Properties? && c.value.Object? &&
                          SameProperties(m.value.members, c.value.members)
    {
      var c := Member(Properties, Object(StrippedProperties(m.value.members)));
      PropertiesAreSame(m.value.members);
      MemberLeaves(members, m);
      assert c in StrippedMember(m);
    }
    forall c | c in StrippedMembers(members) && c.key.Properties?
      ensures exists m :: m in members && m.key.Properties? && m.value.Object? && m.value.members != [] &&
                          c.value.Object? && SameProperties(m.value.members, c.value.members)
    {
      var m := MemberComesFrom(members, c);
      PropertiesAreSame(m.value.members);
    }
  }

  lemma PropertiesAreSame(properties: seq<Member>)
    ensures SameProperties(properties, StrippedProperties(properties))
  {
    if properties != [] { PropertyNamesSurvive(properties, 0); }
    forall i | 0 <= i < |properties|
      ensures StrippedProperties(properties)[i] == Member(properties[i].key, Stripped(properties[i].value))
    {
      PropertyNamesSurvive(properties, i);
    }
  }

  // ---------- what a schema accepts ----------

  /**
    Whether an instance satisfies a schema.  `holds(key, value, x)` is the meaning of the keywords with no
    schemas below them, whatever it is.  An unsupported keyword is one of those; a supported one with an
    object as its value is malformed and constrains nothing.  `nullable: true` admits null.
  */
  ghost predicate Accepts(v: Json, x: Json, holds: (Key, Json, Json) -> bool)
    decreases v
  {
    match v
    case Bool(b) => b
    case Object(members) => (NULLABLE in members && x.Null?) || AllHold(members, x, PrefixLength(members), holds)
    case _ => true
  }

  /** How many leading elements `prefixItems` takes away from `items`. */
  function PrefixLength(members: seq<Member>): nat {
    if members == [] then 0
    else if members[0].key.PrefixItems? && members[0].value.Array? then |members[0].value.items|
    else PrefixLength(members[1..])
  }

  ghost predicate AllHold(members: seq<Member>, x: Json, skip: nat, holds: (Key, Json, Json) -> bool)
    decreases members
  {
    members == [] || (MemberHolds(members[0], x, skip, holds) && AllHold(members[1..], x, skip, holds))
  }

  ghost predicate MemberHolds(m: Member, x: Json, skip: nat, holds: (Key, Json, Json) -> bool)
    decreases m
  {
    match m.key
    case Properties => m.value.Object? && x.Object? ==> PropertiesHold(m.value.members, x.members, holds)
    case AnyOf => m.value.Array? ==> AnyHolds(m.value.items, x, holds)
    case Items => x.Array? ==> forall j :: skip <= j < |x.items| ==> Accepts(m.value, x.items[j], holds)
    case Nullable => true
    case _ => (Supported(m.key) && m.value.Object?) || holds(m.key, m.value, x)
  }

  ghost predicate PropertiesHold(properties: seq<Member>, fields: seq<Member>, holds: (Key, Json, Json) -> bool)
    decreases properties
  {
    properties == [] || (PropertyHolds(properties[0], fields, holds) && PropertiesHold(properties[1..], fields, holds))
  }

  ghost predicate PropertyHolds(property: Member, fields: seq<Member>, holds: (Key, Json, Json) -> bool)
    decreases property
  {
    forall j :: 0 <= j < |fields| && fields[j].key == property.key ==> Accepts(property.value, fields[j].value, holds)
  }

  ghost predicate AnyHolds(variants: seq<Json>, x: Json, holds: (Key, Json, Json) -> bool)
    decreases variants
  {
    variants != [] && (Accepts(variants[0], x, holds) || AnyHolds(variants[1..], x, holds))
  }

  /** `type: "null"` admits nothing but null. */
  ghost predicate NullTypeIsNull(holds: (Key, Json, Json) -> bool) {
    forall x: Json :: holds(Type, Text("null"), x) ==> x.Null?
  }

  // ---------- acceptance is kept ----------

  /** Some variant is a null variant, and so dropped. */
  predicate LosesNull(variants: seq<Json>) {
    variants != [] && (IsNullVariant(variants[0]) || LosesNull(variants[1..]))
  }

  /** The first variant that is not dropped is the schema `false`. */
  predicate FirstKeptIsFalse(variants: seq<Json>) {
    variants != [] && (if IsNullVariant(variants[0]) then FirstKeptIsFalse(variants[1..])
      else variants[0] == Bool(false))
  }

  /**
    The schemas for which cleaning keeps acceptance: where cleaning reaches, `items` has no `prefixItems`
    beside it, and an `anyOf` that loses a null variant does not go on with `false`.
  */
  predicate Tame(v: Json)
    decreases v
  {
    v.Object? ==> TameMembers(v.members) && (PrefixLength(v.members) == 0 || NoItems(v.members))
  }

  predicate NoItems(members: seq<Member>) {
    members == [] || (!members[0].key.Items? && NoItems(members[1..]))
  }

  predicate TameMembers(members: seq<Member>)
    decreases members
  {
    members == [] || (TameMember(members[0]) && TameMembers(members[1..]))
  }

  predicate TameMember(m: Member)
    decreases m
  {
    match m.key
    case Properties => m.value.Object? ==> TameProperties(m.value.members)
    case AnyOf => m.value.Array? ==>
      TameVariants(m.value.items) && !(LosesNull(m.value.items) && FirstKeptIsFalse(m.value.items))
    case Items => Tame(m.value)
    case _ => true
  }

  predicate TameProperties(properties: seq<Member>)
    decreases properties
  {
    properties == [] || (TameProperty(properties[0]) && TameProperties(properties[1..]))
  }

  predicate TameProperty(property: Member)
    decreases property
  {
    Tame(property.value)
  }

  predicate TameVariants(variants: seq<Json>)
    decreases variants
  {
    variants == [] || ((IsNullVariant(variants[0]) || Tame(variants[0])) && TameVariants(variants[1..]))
  }

  lemma {:induction false} AllHoldConcat(
    a: seq<Member>, b: seq<Member>, x: Json, skip: nat, holds: (Key, Json, Json) -> bool)
    ensures AllHold(a + b, x, skip, holds) <==> AllHold(a, x, skip, holds) && AllHold(b, x, skip, holds)
  {
    if a == [] {
      assert a + b == b;
    } else {
      assert (a + b)[1..] == a[1..] + b;
      AllHoldConcat(a[1..], b, x, skip, holds);
    }
  }

  lemma {:induction false} AllHoldMember(
    members: seq<Member>, m: Member, x: Json, skip: nat, holds: (Key, Json, Json) -> bool)
    requires m in members && AllHold(members, x, skip, holds)
    ensures MemberHolds(m, x, skip, holds)
  {
    assert members == [members[0]] + members[1..];
    if m != members[0] { AllHoldMember(members[1..], m, x, skip, holds); }
  }

  lemma {:induction false} SetNullableHolds(members: seq<Member>, x: Json, skip: nat, holds: (Key, Json, Json) -> bool)
    ensures NULLABLE in SetNullable(members)
    ensures AllHold(members, x, skip, holds) <==> AllHold(SetNullable(members), x, skip, holds)
  {
    if members == [] {
      assert [NULLABLE][1..] == [];
    } else if members[0].key.Nullable? {
      assert ([NULLABLE] + members[1..])[1..] == members[1..];
    } else {
      SetNullableHolds(members[1..], x, skip, holds);
      assert ([members[0]] + SetNullable(members[1..]))[1..] == SetNullable(members[1..]);
    }
  }

  lemma {:induction false} SetNullableKeepsPrefix(members: seq<Member>)
    ensures PrefixLength(SetNullable(members)) == PrefixLength(members)
  {
    if members == [] {
      assert [NULLABLE][1..] == [];
    } else if members[0].key.Nullable? {
      assert ([NULLABLE] + members[1..])[1..] == members[1..];
    } else {
      SetNullableKeepsPrefix(members[1..]);
      assert ([members[0]] + SetNullable(members[1..]))[1..] == SetNullable(members[1..]);
    }
  }

  /** Marking the first variant loses nothing, and gains null, and only null, if that variant is an object. */
  lemma {:induction false} MarkingOnlyWidens(variants: seq<Json>, x: Json, holds: (Key, Json, Json) -> bool)
    requires variants != []
    ensures AnyHolds(variants, x, holds) ==> AnyHolds(MarkFirst(variants), x, holds)
    ensures variants[0].Object? && x.Null? ==> AnyHolds(MarkFirst(variants), x, holds)
    ensures AnyHolds(MarkFirst(variants), x, holds) && !x.Null? ==> AnyHolds(variants, x, holds)
  {
    if variants[0].Object? {
      var members := variants[0].members;
      SetNullableHolds(members, x, PrefixLength(members), holds);
      SetNullableKeepsPrefix(members);
      var marked := Object(SetNullable(members));
      assert MarkFirst(variants)[0] == marked && MarkFirst(variants)[1..] == variants[1..];
      assert Accepts(variants[0], x, holds) ==> Accepts(marked, x, holds);
      assert x.Null? ==> Accepts(marked, x, holds);
      assert !x.Null? ==> (Accepts(variants[0], x, holds) <==> Accepts(marked, x, holds));
    }
  }

  lemma {:induction false} StrippedHasNoPrefix(members: seq<Member>)
    ensures PrefixLength(StrippedMembers(members)) == 0
  {
    if members != [] {
      StrippedHasNoPrefix(members[1..]);
      var kept := StrippedMember(members[0]);
      if kept == [] {
        assert kept + StrippedMembers(members[1..]) == StrippedMembers(members[1..]);
      } else {
        assert (kept + StrippedMembers(members[1..]))[1..] == StrippedMembers(members[1..]);
      }
    }
  }

  /**
    ACCEPTANCE.  Whatever the plain keywords mean, every instance a tame schema accepts is still accepted
    after cleaning.
  */
  lemma {:induction false} AcceptanceIsKept(v: Json, x: Json, holds: (Key, Json, Json) -> bool)
    requires Tame(v) && NullTypeIsNull(holds) && Accepts(v, x, holds)
    ensures Accepts(Stripped(v), x, holds)
    decreases v
  {
    if v.Object? {
      StrippedMembersMean(v.members, NULLABLE);
      if !(NULLABLE in v.members && x.Null?) {
        MembersAreKept(v.members, x, PrefixLength(v.members), holds);
        StrippedHasNoPrefix(v.members);
      }
    }
  }

  lemma {:induction false} MembersAreKept(members: seq<Member>, x: Json, skip: nat, holds: (Key, Json, Json) -> bool)
    requires TameMembers(members) && (skip == 0 || NoItems(members)) && NullTypeIsNull(holds) &&
      AllHold(members, x, skip, holds)
    ensures AllHold(StrippedMembers(members), x, 0, holds)
    decreases members
  {
    if members != [] {
      MemberIsKept(members[0], x, skip, holds);
      MembersAreKept(members[1..], x, skip, holds);
      AllHoldConcat(StrippedMember(members[0]), StrippedMembers(members[1..]), x, 0, holds);
    }
  }

  lemma StrippedShape(v: Json)
    ensures Stripped(v).Object? <==> v.Object?
    ensures !v.Object? ==> Stripped(v) == v
  {
  }

  lemma SingleHolds(m: Member, x: Json, holds: (Key, Json, Json) -> bool)
    requires MemberHolds(m, x, 0, holds)
    ensures AllHold([m], x, 0, holds)
  {
    assert [m][1..] == [];
  }

  lemma {:induction false} MemberIsKept(m: Member, x: Json, skip: nat, holds: (Key, Json, Json) -> bool)
    requires TameMember(m) && (skip == 0 || !m.key.Items?) && NullTypeIsNull(holds) && MemberHolds(m, x, skip, holds)
    ensures AllHold(StrippedMember(m), x, 0, holds)
    decreases m
  {
    StrippedShape(m.value);
    if StrippedMember(m) != [] {
      match m.key {
        case Properties =>
          if x.Object? { PropertiesAreKept(m.value.members, x.members, holds); }
        case AnyOf =>
          AnyOfIsKept(m.value.items, x, holds);
        case Items =>
          if x.Array? {
            forall j | 0 <= j < |x.items| ensures Accepts(Stripped(m.value), x.items[j], holds) {
              AcceptanceIsKept(m.value, x.items[j], holds);
            }
          }
        case _ =>
      }
      SingleHolds(StrippedMember(m)[0], x, holds);
    }
  }

  lemma {:induction false} PropertiesAreKept(
    properties: seq<Member>, fields: seq<Member>, holds: (Key, Json, Json) -> bool)
    requires TameProperties(properties) && NullTypeIsNull(holds) && PropertiesHold(properties, fields, holds)
    ensures PropertiesHold(StrippedProperties(properties), fields, holds)
    decreases properties
  {
    if properties != [] {
      PropertyIsKept(properties[0], fields, holds);
      PropertiesAreKept(properties[1..], fields, holds);
      assert StrippedProperties(properties)[1..] == StrippedProperties(properties[1..]);
    }
  }

  lemma {:induction false} PropertyIsKept(property: Member, fields: seq<Member>, holds: (Key, Json, Json) -> bool)
    requires TameProperty(property) && NullTypeIsNull(holds) && PropertyHolds(property, fields, holds)
    ensures PropertyHolds(StrippedProperty(property), fields, holds)
    decreases property
  {
    forall j | 0 <= j < |fields| && fields[j].key == property.key
      ensures Accepts(Stripped(property.value), fields[j].value, holds) {
      AcceptanceIsKept(property.value, fields[j].value, holds);
    }
  }

  /** An accepting variant is kept, or it was a null variant that is now covered by the mark. */
  lemma {:induction false} VariantsAreKept(variants: seq<Json>, x: Json, holds: (Key, Json, Json) -> bool)
    requires TameVariants(variants) && NullTypeIsNull(holds) && AnyHolds(variants, x, holds)
    ensures AnyHolds(StrippedVariants(variants), x, holds) || (x.Null? && |StrippedVariants(variants)| < |variants|)
    decreases variants, 0
  {
    var rest := StrippedVariants(variants[1..]);
    if IsNullVariant(variants[0]) {
      assert [] + rest == rest;
      ShorterOrSame(variants[1..]);
      if Accepts(variants[0], x, holds) {
        if !(NULLABLE in variants[0].members && x.Null?) {
          AllHoldMember(variants[0].members, NULL_TYPE, x, PrefixLength(variants[0].members), holds);
        }
      } else {
        VariantsAreKept(variants[1..], x, holds);
      }
    } else {
      assert ([Stripped(variants[0])] + rest)[1..] == rest;
      if Accepts(variants[0], x, holds) {
        AcceptanceIsKept(variants[0], x, holds);
      } else {
        VariantsAreKept(variants[1..], x, holds);
      }
    }
  }

  lemma {:induction false} ShorterOrSame(variants: seq<Json>)
    ensures |StrippedVariants(variants)| <= |variants|
    ensures |StrippedVariants(variants)| < |variants| <==> LosesNull(variants)
  {
    if variants != [] { ShorterOrSame(variants[1..]); }
  }

  lemma {:induction false} FirstKept(variants: seq<Json>)
    ensures FirstKeptIsFalse(variants) <==>
      StrippedVariants(variants) != [] && StrippedVariants(variants)[0] == Bool(false)
  {
    if variants != [] {
      if IsNullVariant(variants[0]) {
        assert [] + StrippedVariants(variants[1..]) == StrippedVariants(variants[1..]);
        FirstKept(variants[1..]);
      } else {
        StrippedShape(variants[0]);
      }
    }
  }

  /** A schema that is neither an object nor `false` accepts everything. */
  lemma OthersAcceptAll(variants: seq<Json>, x: Json, holds: (Key, Json, Json) -> bool)
    requires variants != [] && !variants[0].Object? && variants[0] != Bool(false)
    ensures AnyHolds(variants, x, holds)
  {
  }

  lemma {:induction false} AnyOfIsKept(variants: seq<Json>, x: Json, holds: (Key, Json, Json) -> bool)
    requires TameVariants(variants) && !(LosesNull(variants) && FirstKeptIsFalse(variants))
    requires NullTypeIsNull(holds) && AnyHolds(variants, x, holds)
    requires StrippedVariants(variants) != []
    ensures var kept := StrippedVariants(variants);
      AnyHolds(if |kept| < |variants| then MarkFirst(kept) else kept, x, holds)
    decreases variants, 1
  {
    var kept := StrippedVariants(variants);
    VariantsAreKept(variants, x, holds);
    ShorterOrSame(variants);
    FirstKept(variants);
    MarkingOnlyWidens(kept, x, holds);
    if |kept| < |variants| && !kept[0].Object? { OthersAcceptAll(kept, x, holds); }
  }

  // ---------- nothing more is accepted ----------

  /** The meaning in which unsupported keywords constrain nothing. */
  ghost predicate IgnoresUnsupported(holds: (Key, Json, Json) -> bool) {
    forall key: Key, value: Json, x: Json :: key.PrefixItems? || key.Other? ==> holds(key, value, x)
  }

  /** There is no null anywhere in the instance. */
  predicate NullFree(x: Json)
    decreases x
  {
    match x
    case Null => false
    case Array(items) => forall j :: 0 <= j < |items| ==> NullFree(items[j])
    case Object(fields) => forall j :: 0 <= j < |fields| ==> NullFree(fields[j].value)
    case _ => true
  }

  /** Some variant is no null variant, and so kept. */
  predicate KeepsOne(variants: seq<Json>) {
    exists i :: 0 <= i < |variants| && !IsNullVariant(variants[i])
  }

  /** Where cleaning reaches, an `anyOf` keeps a variant, or all of them if `all` is set. */
  predicate KeepsVariants(v: Json, all: bool)
    decreases v
  {
    v.Object? ==> MembersKeepVariants(v.members, all)
  }

  predicate MembersKeepVariants(members: seq<Member>, all: bool)
    decreases members
  {
    members == [] || (MemberKeepsVariants(members[0], all) && MembersKeepVariants(members[1..], all))
  }

  predicate MemberKeepsVariants(m: Member, all: bool)
    decreases m
  {
    match m.key
    case Properties => m.value.Object? ==> PropertiesKeepVariants(m.value.members, all)
    case AnyOf => m.value.Array? ==> KeepsOne(m.value.items) && AllKeepVariants(m.value.items, all)
    case Items => KeepsVariants(m.value, all)
    case _ => true
  }

  predicate PropertiesKeepVariants(properties: seq<Member>, all: bool)
    decreases properties
  {
    properties == [] || (PropertyKeepsVariants(properties[0], all) && PropertiesKeepVariants(properties[1..], all))
  }

  predicate PropertyKeepsVariants(property: Member, all: bool)
    decreases property
  {
    KeepsVariants(property.value, all)
  }

  predicate AllKeepVariants(variants: seq<Json>, all: bool)
    decreases variants
  {
    variants == [] ||
    ((if IsNullVariant(variants[0]) then !all else KeepsVariants(variants[0], all)) &&
     AllKeepVariants(variants[1..], all))
  }

  /**
    NOTHING MORE.  Where unsupported keywords constrain nothing, an instance that the cleaned schema accepts
    was accepted before, so no supported constraint is lost: for any instance if no variant is dropped, and
    for one without nulls if every `anyOf` keeps a variant.
  */
  lemma {:induction false} NothingMoreIsAccepted(v: Json, x: Json, all: bool, holds: (Key, Json, Json) -> bool)
    requires KeepsVariants(v, all) && (all || NullFree(x)) && IgnoresUnsupported(holds)
    requires Accepts(Stripped(v), x, holds)
    ensures Accepts(v, x, holds)
    decreases v
  {
    if v.Object? {
      StrippedMembersMean(v.members, NULLABLE);
      if !(NULLABLE in v.members && x.Null?) {
        StrippedHasNoPrefix(v.members);
        MembersHeldBefore(v.members, x, PrefixLength(v.members), all, holds);
      }
    }
  }

  lemma {:induction false} MembersHeldBefore(
    members: seq<Member>, x: Json, skip: nat, all: bool, holds: (Key, Json, Json) -> bool)
    requires MembersKeepVariants(members, all) && (all || NullFree(x)) && IgnoresUnsupported(holds)
    requires AllHold(StrippedMembers(members), x, 0, holds)
    ensures AllHold(members, x, skip, holds)
    decreases members
  {
    if members != [] {
      AllHoldConcat(StrippedMember(members[0]), StrippedMembers(members[1..]), x, 0, holds);
      MemberHeldBefore(members[0], x, skip, all, holds);
      MembersHeldBefore(members[1..], x, skip, all, holds);
    }
  }

  lemma {:induction false} MemberHeldBefore(
    m: Member, x: Json, skip: nat, all: bool, holds: (Key, Json, Json) -> bool)
    requires MemberKeepsVariants(m, all) && (all || NullFree(x)) && IgnoresUnsupported(holds)
    requires AllHold(StrippedMember(m), x, 0, holds)
    ensures MemberHolds(m, x, skip, holds)
    decreases m
  {
    StrippedShape(m.value);
    match m.key {
      case Properties =>
        if m.value.Object? && x.Object? && m.value.members != [] {
          assert x == Object(x.members);
          PropertiesHeldBefore(m.value.members, x.members, all, holds);
        }
      case AnyOf =>
        if m.value.Array? {
          SomeIsKept(m.value.items);
          if all { NoneIsDropped(m.value.items); }
          MarkingOnlyWidens(StrippedVariants(m.value.items), x, holds);
          VariantsHeldBefore(m.value.items, x, all, holds);
        }
      case Items =>
        if x.Array? {
          forall j | skip <= j < |x.items| ensures Accepts(m.value, x.items[j], holds) {
            NothingMoreIsAccepted(m.value, x.items[j], all, holds);
          }
        }
      case _ =>
    }
  }

  lemma {:induction false} PropertiesHeldBefore(
    properties: seq<Member>, fields: seq<Member>, all: bool, holds: (Key, Json, Json) -> bool)
    requires PropertiesKeepVariants(properties, all) && (all || NullFree(Object(fields))) && IgnoresUnsupported(holds)
    requires PropertiesHold(StrippedProperties(properties), fields, holds)
    ensures PropertiesHold(properties, fields, holds)
    decreases properties
  {
    if properties != [] {
      assert StrippedProperties(properties)[1..] == StrippedProperties(properties[1..]);
      PropertyHeldBefore(properties[0], fields, all, holds);
      PropertiesHeldBefore(properties[1..], fields, all, holds);
    }
  }

  lemma {:induction false} PropertyHeldBefore(
    property: Member, fields: seq<Member>, all: bool, holds: (Key, Json, Json) -> bool)
    requires PropertyKeepsVariants(property, all) && (all || NullFree(Object(fields))) && IgnoresUnsupported(holds)
    requires PropertyHolds(StrippedProperty(property), fields, holds)
    ensures PropertyHolds(property, fields, holds)
    decreases property
  {
    forall j | 0 <= j < |fields| && fields[j].key == property.key
      ensures Accepts(property.value, fields[j].value, holds)
    {
      NothingMoreIsAccepted(property.value, fields[j].value, all, holds);
    }
  }

  lemma {:induction false} NoneIsDropped(variants: seq<Json>)
    requires AllKeepVariants(variants, true)
    ensures |StrippedVariants(variants)| == |variants|
  {
    if variants != [] { NoneIsDropped(variants[1..]); }
  }

  lemma {:induction false} SomeIsKept(variants: seq<Json>)
    ensures StrippedVariants(variants) != [] <==> KeepsOne(variants)
  {
    if variants != [] {
      SomeIsKept(variants[1..]);
      assert forall i :: 1 <= i < |variants| ==> variants[i] == variants[1..][i - 1];
      assert KeepsOne(variants) <==> !IsNullVariant(variants[0]) || KeepsOne(variants[1..]);
    }
  }

  lemma {:induction false} VariantsHeldBefore(
    variants: seq<Json>, x: Json, all: bool, holds: (Key, Json, Json) -> bool)
    requires AllKeepVariants(variants, all) && (all || NullFree(x)) && IgnoresUnsupported(holds)
    requires AnyHolds(StrippedVariants(variants), x, holds)
    ensures AnyHolds(variants, x, holds)
    decreases variants
  {
    var rest := StrippedVariants(variants[1..]);
    if IsNullVariant(variants[0]) {
      assert [] + rest == rest;
      VariantsHeldBefore(variants[1..], x, all, holds);
    } else {
      assert ([Stripped(variants[0])] + rest)[1..] == rest;
      if Accepts(Stripped(variants[0]), x, holds) {
        NothingMoreIsAccepted(variants[0], x, all, holds);
      } else {
        VariantsHeldBefore(variants[1..], x, all, holds);
      }
    }
  }

  /** So on such schemas that are tame, cleaning changes nothing about what is accepted. */
  lemma SameIsAccepted(v: Json, x: Json, all: bool, holds: (Key, Json, Json) -> bool)
    requires Tame(v) && KeepsVariants(v, all) && (all || NullFree(x))
    requires IgnoresUnsupported(holds) && NullTypeIsNull(holds)
    ensures Accepts(Stripped(v), x, holds) <==> Accepts(v, x, holds)
  {
    if Accepts(v, x, holds) { AcceptanceIsKept(v, x, holds); }
    if Accepts(Stripped(v), x, holds) { NothingMoreIsAccepted(v, x, all, holds); }
  }

  /** An `anyOf` without variants accepts nothing, and is dropped. */
  lemma EmptyAnyOfIsLost(v: Json, x: Json, holds: (Key, Json, Json) -> bool)
    requires v == Object([Member(AnyOf, Array([]))])
    ensures !Accepts(v, x, holds) && Accepts(Stripped(v), x, holds)
  {
    var m := v.members[0];
    assert [m][1..] == [];
    OneMember(m, x, PrefixLength(v.members), holds);
    assert StrippedMember(m) == [] && StrippedMembers([m]) == [];
  }

  // ---------- exactly when a node keeps acceptance ----------

  /**
    After cleaning, an `anyOf` accepts null exactly if nothing of it is left, or a variant that is left
    accepts null, or a null variant was dropped and the first one left is an object that takes the mark.
  */
  lemma NullAfterCleaning(m: Member, holds: (Key, Json, Json) -> bool)
    requires m.key.AnyOf? && m.value.Array?
    ensures var kept := StrippedVariants(m.value.items);
      AllHold(StrippedMember(m), Null, 0, holds) <==>
      kept == [] || AnyHolds(kept, Null, holds) || (LosesNull(m.value.items) && kept[0].Object?)
  {
    var kept := StrippedVariants(m.value.items);
    ShorterOrSame(m.value.items);
    if kept != [] {
      MarkingOnlyWidens(kept, Null, holds);
      OneMember(StrippedMember(m)[0], Null, 0, holds);
      assert StrippedMember(m) == [StrippedMember(m)[0]];
    }
  }

  /**
    NULL SURVIVES.  If an `anyOf` accepts null and its variants are tame, it still does after cleaning unless
    a null variant was dropped, the first variant left is `false`, and none of those left accepts null.
  */
  lemma NullSurvivesExactly(m: Member, holds: (Key, Json, Json) -> bool)
    requires m.key.AnyOf? && m.value.Array? && TameVariants(m.value.items) && NullTypeIsNull(holds) &&
      MemberHolds(m, Null, 0, holds)
    ensures AllHold(StrippedMember(m), Null, 0, holds) <==>
      !(LosesNull(m.value.items) && FirstKeptIsFalse(m.value.items) &&
        !AnyHolds(StrippedVariants(m.value.items), Null, holds))
  {
    var variants := m.value.items;
    var kept := StrippedVariants(variants);
    NullAfterCleaning(m, holds);
    VariantsAreKept(variants, Null, holds);
    ShorterOrSame(variants);
    FirstKept(variants);
    if kept != [] && !kept[0].Object? && kept[0] != Bool(false) { OthersAcceptAll(kept, Null, holds); }
  }

  /**
    ITEMS SURVIVE.  An array accepted by `items` behind a prefix of `skip` elements is still accepted after
    cleaning exactly if the elements of the prefix also satisfy the cleaned `items`.
  */
  lemma ItemsSurviveExactly(m: Member, x: Json, skip: nat, holds: (Key, Json, Json) -> bool)
    requires m.key.Items? && Tame(m.value) && NullTypeIsNull(holds) && x.Array? && MemberHolds(m, x, skip, holds)
    ensures AllHold(StrippedMember(m), x, 0, holds) <==>
      forall j :: 0 <= j < skip && j < |x.items| ==> Accepts(Stripped(m.value), x.items[j], holds)
  {
    assert StrippedMember(m) == [Member(Items, Stripped(m.value))];
    OneMember(Member(Items, Stripped(m.value)), x, 0, holds);
    forall j | skip <= j < |x.items| ensures Accepts(Stripped(m.value), x.items[j], holds) {
      AcceptanceIsKept(m.value, x.items[j], holds);
    }
  }

  // ---------- where acceptance is lost ----------

  /** A meaning under which a number type admits numbers only, and a null type null only. */
  function NumbersOnly(key: Key, value: Json, x: Json): bool {
    key.Type? ==> (value == Text("number") ==> x.Number?) && (value == Text("null") ==> x.Null?)
  }

  lemma OneMember(m: Member, x: Json, skip: nat, holds: (Key, Json, Json) -> bool)
    ensures AllHold([m], x, skip, holds) <==> MemberHolds(m, x, skip, holds)
  {
    assert [m][1..] == [];
  }

  /**
    Dropping `prefixItems` makes `items` speak of the elements it did not speak of before: an array of one
    text is accepted by a schema for tuples of a text and then numbers, and not after cleaning.
  */
  lemma DroppingPrefixItemsNarrows(number: Json, v: Json, x: Json)
    requires number == Object([Member(Type, Text("number"))])
    requires v == Object([Member(PrefixItems, Array([Bool(true)])), Member(Items, number)])
    requires x == Array([Text("a")])
    ensures Accepts(v, x, NumbersOnly) && !Accepts(Stripped(v), x, NumbersOnly) && !Tame(v)
  {
    var prefix, items := v.members[0], v.members[1];
    assert v.members[1..] == [items] && [items][1..] == [];
    OneMember(items, x, 1, NumbersOnly);
    assert AllHold(v.members, x, 1, NumbersOnly);
    var kind := number.members[0];
    assert number.members[1..] == [];
    assert StrippedMember(kind) == [kind];
    assert Stripped(number) == number;
    assert StrippedMember(prefix) == [] && StrippedMember(items) == [items];
    assert StrippedMembers(v.members) == [items];
    OneMember(items, x, 0, NumbersOnly);
    OneMember(kind, x.items[0], 0, NumbersOnly);
    assert !Accepts(number, x.items[0], NumbersOnly);
    assert Stripped(v) == Object([items]);
    if Tame(v) { AcceptanceIsKept(v, x, NumbersOnly); }
  }

  /** The mark for a dropped null variant is lost if the first variant left is `false`. */
  lemma {:induction false} MarkNeedsAnObject(nothing: Json, v: Json)
    requires nothing == Object([NULL_TYPE])
    requires v == Object([Member(AnyOf, Array([nothing, Bool(false)]))])
    ensures Accepts(v, Null, NumbersOnly) && !Accepts(Stripped(v), Null, NumbersOnly) && !Tame(v)
  {
    var variants := [nothing, Bool(false)];
    var m := Member(AnyOf, Array(variants));
    OneMember(NULL_TYPE, Null, 0, NumbersOnly);
    assert Accepts(nothing, Null, NumbersOnly);
    OneMember(m, Null, 0, NumbersOnly);
    assert variants[1..] == [Bool(false)] && [Bool(false)][1..] == [];
    assert StrippedVariants(variants) == [Bool(false)];
    var left := Member(AnyOf, Array([Bool(false)]));
    assert StrippedMember(m) == [left];
    assert [m][1..] == [];
    assert StrippedMembers([m]) == [left];
    OneMember(left, Null, PrefixLength([left]), NumbersOnly);
    assert !AnyHolds([Bool(false)], Null, NumbersOnly);
    assert Stripped(v) == Object([left]);
    if Tame(v) { AcceptanceIsKept(v, Null, NumbersOnly); }
  }
}
