/** Rewriting a tool schema so that a nullable union of one type becomes that type, and what
    the rewriting does to the set of instances a schema accepts. */
module Schema {
  import opened Prelude

  datatype Json =
    | Null
    | Bool(b: bool)
    | Num(n: real)
    | Str(s: string)
    | Arr(items: seq<Json>)
    | Obj(fields: map<string, Json>)

  const NULL_NAME := Str("null")

  // ------------------------------------------------------------ the rewriting

  function NonNull(types: seq<Json>): (rest: seq<Json>)
    ensures forall i :: 0 <= i < |rest| ==> rest[i] in types && rest[i] != NULL_NAME
  {
    if types == [] then []
    else (if types[0] == NULL_NAME then [] else [types[0]]) + NonNull(types[1..])
  }

  /** A union of "null" and exactly one other entry. */
  predicate SingleNullable(types: seq<Json>) {
    NULL_NAME in types && |NonNull(types)| == 1
  }

  /** Entry k is the only one that is not "null", and not the only entry. */
  ghost predicate OnlyOther(types: seq<Json>, k: nat) {
    && k < |types| && |types| >= 2
    && forall i :: 0 <= i < |types| ==> (types[i] == Str("null") <==> i != k)
  }

  lemma {:induction false} NonNullNone(types: seq<Json>)
    ensures NonNull(types) == [] <==> forall i :: 0 <= i < |types| ==> types[i] == NULL_NAME
  {
    if types != [] {
      NonNullNone(types[1..]);
      assert forall i :: 0 < i < |types| ==> types[i] == types[1..][i - 1];
    }
  }

  lemma {:induction false} NonNullOne(types: seq<Json>) returns (k: nat)
    requires |NonNull(types)| == 1
    ensures k < |types| && NonNull(types) == [types[k]]
    ensures forall i :: 0 <= i < |types| ==> (types[i] == NULL_NAME <==> i != k)
  {
    if types[0] == NULL_NAME {
      var j := NonNullOne(types[1..]);
      k := j + 1;
      assert forall i :: 0 < i < |types| ==> types[i] == types[1..][i - 1];
    } else {
      k := 0;
      NonNullNone(types[1..]);
      assert forall i :: 0 < i < |types| ==> types[i] == types[1..][i - 1];
    }
  }

  lemma {:induction false} NonNullIs(types: seq<Json>, k: nat)
    requires k < |types| && forall i :: 0 <= i < |types| ==> (types[i] == NULL_NAME <==> i != k)
    ensures NonNull(types) == [types[k]]
  {
    if k == 0 {
      NonNullNone(types[1..]);
    } else {
      NonNullIs(types[1..], k - 1);
    }
  }

  /** By position: a union collapses if and only if it has "null" and exactly one entry that
      is not, and then to that entry. */
  lemma {:induction false} SingleNullableIff(types: seq<Json>)
    ensures SingleNullable(types) <==> exists k: nat :: OnlyOther(types, k)
    ensures forall k: nat :: OnlyOther(types, k) ==> NonNull(types) == [types[k]]
  {
    forall k: nat | OnlyOther(types, k)
      ensures NonNull(types) == [types[k]] && NULL_NAME in types
    {
      NonNullIs(types, k);
      assert types[if k == 0 then 1 else 0] == NULL_NAME;
    }
    if SingleNullable(types) {
      var k := NonNullOne(types);
      var n :| 0 <= n < |types| && types[n] == NULL_NAME;
      assert OnlyOther(types, k);
    }
  }

  predicate Collapsible(fields: map<string, Json>) {
    "type" in fields && fields["type"].Arr? && SingleNullable(fields["type"].items)
  }

  /** One node: the union becomes its type, and a null default goes with it. */
  function Collapse(fields: map<string, Json>): (r: map<string, Json>)
    ensures r.Keys == if Collapsible(fields) && "default" in fields && fields["default"] == Null
                      then fields.Keys - {"default"} else fields.Keys
    ensures forall k :: k in r && k != "type" ==> r[k] == fields[k]
    ensures "type" in r ==>
              r["type"] == if Collapsible(fields) then NonNull(fields["type"].items)[0] else fields["type"]
  {
    if Collapsible(fields) then
      var collapsed := fields["type" := NonNull(fields["type"].items)[0]];
      if "default" in fields && fields["default"] == Null then collapsed - {"default"} else collapsed
    else fields
  }

  /** Below a node only the named children are visited: `properties`, `$defs`, `items`. */
  function DegradeField(k: string, v: Json): Json
    decreases v, 1
  {
    if k == "properties" || k == "$defs" then DegradeEach(v)
    else if k == "items" then Degrade(v)
    else v
  }

  function DegradeEach(v: Json): Json
    decreases v, 0
  {
    if v.Obj? then Obj(map p | p in v.fields :: Degrade(v.fields[p])) else v
  }

  function Degrade(j: Json): Json
    decreases j, 0
  {
    if j.Obj? then
      var collapsed := Collapse(j.fields);
      Obj(map k | k in collapsed :: if k == "type" then collapsed[k] else DegradeField(k, j.fields[k]))
    else j
  }

  lemma {:induction false} NonNullSnoc(types: seq<Json>, t: Json)
    ensures NonNull(types + [t]) == NonNull(types) + if t == NULL_NAME then [] else [t]
  {
    if types == [] {
      assert [t][1..] == [];
    } else {
      assert (types + [t])[1..] == types[1..] + [t];
      NonNullSnoc(types[1..], t);
      ConcatAssoc(if types[0] == NULL_NAME then [] else [types[0]], NonNull(types[1..]),
                  if t == NULL_NAME then [] else [t]);
    }
  }

  method NonNullTypes(types: seq<Json>) returns (rest: seq<Json>, hasNull: bool)
    ensures rest == NonNull(types) && hasNull == (NULL_NAME in types)
  {
    rest, hasNull := [], false;
    for i := 0 to |types|
      invariant rest == NonNull(types[..i])
      invariant hasNull == (NULL_NAME in types[..i])
    {
      assert types[..i + 1] == types[..i] + [types[i]];
      NonNullSnoc(types[..i], types[i]);
      if types[i] == NULL_NAME {
        hasNull := true;
      } else {
        rest := rest + [types[i]];
      }
    }
    assert types[..|types|] == types;
  }

  method CollapseNode(schema: map<string, Json>) returns (out: map<string, Json>)
    ensures out == Collapse(schema)
  {
    out := schema;
    if "type" in out && out["type"].Arr? {
      var rest, hasNull := NonNullTypes(out["type"].items);
      if hasNull && |rest| == 1 {
        out := out["type" := rest[0]];
        if "default" in out && out["default"] == Null {
          out := out - {"default"};
        }
      }
    }
  }

  /** Every key once, in whatever order the map gives them. */
  method DegradeValues(properties: map<string, Json>) returns (out: map<string, Json>)
    ensures Obj(out) == DegradeEach(Obj(properties))
    decreases Obj(properties), 0, 1
  {
    ghost var goal := DegradeEach(Obj(properties)).fields;
    out := properties;
    var left := properties.Keys;
    while left != {}
      invariant left <= properties.Keys
      invariant out.Keys == properties.Keys == goal.Keys
      invariant forall p :: p in left ==> out[p] == properties[p]
      invariant forall p :: p in goal && p !in left ==> out[p] == goal[p]
      decreases |left|
    {
      var p :| p in left;
      left := left - {p};
      out := DegradeOne(properties, p, out);
    }
    assert out == goal;
  }

  method DegradeOne(properties: map<string, Json>, p: string, before: map<string, Json>)
    returns (out: map<string, Json>)
    requires p in properties
    ensures out == before[p := DegradeEach(Obj(properties)).fields[p]]
    decreases Obj(properties), 0, 0
  {
    assert properties[p] == Obj(properties).fields[p];
    var v := DegradeChild(properties[p]);
    out := before[p := v];
  }

  method DegradeBelow(v: Json) returns (w: Json)
    ensures w == DegradeEach(v)
    decreases v, 1
  {
    w := v;
    if v.Obj? {
      assert v == Obj(v.fields);
      var values := DegradeValues(v.fields);
      w := Obj(values);
    }
  }

  method DegradeChild(v: Json) returns (w: Json)
    ensures w == Degrade(v)
    decreases v, 2
  {
    w := v;
    if v.Obj? {
      assert v == Obj(v.fields);
      var nested := DegradeNullableUnions(v.fields);
      w := Obj(nested);
    }
  }

  /** `schema` after the visits, from the node after its own collapse. */
  function Visited(collapsed: map<string, Json>): (out: map<string, Json>)
    ensures out.Keys == collapsed.Keys
  {
    map k | k in collapsed :: if k == "type" then collapsed[k] else DegradeField(k, collapsed[k])
  }

  lemma {:induction false} VisitedIsDegrade(schema: map<string, Json>)
    ensures Obj(Visited(Collapse(schema))) == Degrade(Obj(schema))
  {
  }

  lemma {:induction false} VisitsAre(node: map<string, Json>, out: map<string, Json>)
    requires out.Keys == node.Keys
    requires "properties" in node ==> out["properties"] == DegradeEach(node["properties"])
    requires "$defs" in node ==> out["$defs"] == DegradeEach(node["$defs"])
    requires "items" in node ==> out["items"] == Degrade(node["items"])
    requires forall k :: k in node && k !in {"properties", "$defs", "items"} ==> out[k] == node[k]
    ensures out == Visited(node)
  {
  }

  method DegradeNullableUnions(schema: map<string, Json>) returns (out: map<string, Json>)
    ensures Obj(out) == Degrade(Obj(schema))
    decreases Obj(schema), 1
  {
    out := CollapseNode(schema);
    if "properties" in out {
      assert out["properties"] == Obj(schema).fields["properties"];
      var v := DegradeBelow(out["properties"]);
      out := out["properties" := v];
    }
    if "$defs" in out {
      assert out["$defs"] == Obj(schema).fields["$defs"];
      var v := DegradeBelow(out["$defs"]);
      out := out["$defs" := v];
    }
    if "items" in out {
      assert out["items"] == Obj(schema).fields["items"];
      var v := DegradeChild(out["items"]);
      out := out["items" := v];
    }
    VisitsAre(Collapse(schema), out);
    VisitedIsDegrade(schema);
  }

  // --------------------------------------------------------------- meaning

  /** The type names of JSON Schema validation, section 6.1.1. */
  predicate HasType(name: string, v: Json) {
    match v
    case Null => name == "null"
    case Bool(_) => name == "boolean"
    case Num(n) => name == "number" || (name == "integer" && n.Floor as real == n)
    case Str(_) => name == "string"
    case Arr(_) => name == "array"
    case Obj(_) => name == "object"
  }

  /** Name by name, the instances of each type; no other name has any. */
  lemma {:induction false} TypeNames(v: Json)
    ensures HasType("null", v) <==> v == Null
    ensures HasType("boolean", v) <==> v.Bool?
    ensures HasType("number", v) <==> v.Num?
    ensures HasType("integer", v) <==> v.Num? && v.n.Floor as real == v.n
    ensures HasType("string", v) <==> v.Str?
    ensures HasType("array", v) <==> v.Arr?
    ensures HasType("object", v) <==> v.Obj?
    ensures forall name :: HasType(name, v) ==>
              name in {"null", "boolean", "number", "integer", "string", "array", "object"}
  {
  }

  /** One type name, or any entry of a union. */
  predicate TypeOk(t: Json, v: Json) {
    match t
    case Str(name) => HasType(name, v)
    case Arr(types) => exists i :: 0 <= i < |types| && TypeOk(types[i], v)
    case _ => false
  }

  /** A keyword that is not described here, as any predicate on its value, the names under
      `properties` beside it, and the instance. The empty name stands for a whole schema
      that is not an object. */
  type Keyword = (string, Json, set<string>, Json) -> bool

  function Names(fields: map<string, Json>): set<string> {
    if "properties" in fields && fields["properties"].Obj? then fields["properties"].fields.Keys else {}
  }

  /** `items` applies behind the elements that `prefixItems` describes. */
  function PrefixLength(fields: map<string, Json>): nat {
    if "prefixItems" in fields && fields["prefixItems"].Arr? then |fields["prefixItems"].items| else 0
  }

  const DEFS_PREFIX := "#/$defs/"

  /** What a reference of the form `#/$defs/name` points to in the document. */
  function Resolve(doc: Json, ref: Json): Option<Json> {
    if ref.Str? && |ref.s| >= 8 && ref.s[..8] == DEFS_PREFIX
       && doc.Obj? && "$defs" in doc.fields && doc.fields["$defs"].Obj? && ref.s[8..] in doc.fields["$defs"].fields
    then Some(doc.fields["$defs"].fields[ref.s[8..]])
    else None
  }

  /** A reference by name finds what the document defines under the name, if it does. */
  lemma {:induction false} NameResolved(fields: map<string, Json>, defs: map<string, Json>, name: string)
    requires "$defs" in fields && fields["$defs"] == Obj(defs)
    ensures Resolve(Obj(fields), Str("#/$defs/" + name)) == if name in defs then Some(defs[name]) else None
  {
    assert ("#/$defs/" + name)[..8] == "#/$defs/" && ("#/$defs/" + name)[8..] == name;
  }

  /** A schema of document `doc` accepts the instance, looking through at most `depth`
      references. */
  ghost predicate Accepts(doc: Json, s: Json, v: Json, other: Keyword, depth: nat)
    decreases depth, s, 1
  {
    if s.Obj? then forall k :: k in s.fields ==> Holds(doc, s, k, v, other, depth)
    else other("", s, {}, v)
  }

  ghost predicate Holds(doc: Json, s: Json, k: string, v: Json, other: Keyword, depth: nat)
    requires s.Obj? && k in s.fields
    decreases depth, s, 0
  {
    var value := s.fields[k];
    if k == "type" then TypeOk(value, v)
    else if k == "properties" then HoldsProperties(doc, value, v, other, depth)
    else if k == "items" then HoldsItems(doc, value, PrefixLength(s.fields), v, other, depth)
    else if k == "$defs" || k == "default" then true
    else if k == "$ref" && Resolve(doc, value).Some? then
      depth > 0 ==> Accepts(doc, Resolve(doc, value).value, v, other, depth - 1)
    else other(k, value, Names(s.fields), v)
  }

  ghost predicate HoldsProperties(doc: Json, value: Json, v: Json, other: Keyword, depth: nat)
    decreases depth, value, 2
  {
    value.Obj? && v.Obj? ==>
      forall p :: p in value.fields && p in v.fields ==> Accepts(doc, value.fields[p], v.fields[p], other, depth)
  }

  ghost predicate HoldsItems(doc: Json, value: Json, from: nat, v: Json, other: Keyword, depth: nat)
    decreases depth, value, 2
  {
    v.Arr? ==> forall i :: from <= i < |v.items| ==> Accepts(doc, value, v.items[i], other, depth)
  }

  /** No null anywhere in the instance. */
  ghost predicate NullFree(v: Json) {
    match v
    case Null => false
    case Arr(items) => forall i :: 0 <= i < |items| ==> NullFree(items[i])
    case Obj(fields) => forall k :: k in fields ==> NullFree(fields[k])
    case _ => true
  }

  // -------------------------------------------------- what a collapse does

  lemma {:induction false} NonNullCovers(types: seq<Json>, i: nat)
    requires i < |types| && types[i] != NULL_NAME
    ensures types[i] in NonNull(types)
  {
    if i > 0 {
      NonNullCovers(types[1..], i - 1);
    }
  }

  /** The remaining type accepts what the union accepted, less null. */
  lemma {:induction false} CollapseType(types: seq<Json>, v: Json)
    requires SingleNullable(types)
    ensures TypeOk(NonNull(types)[0], v) ==> TypeOk(Arr(types), v)
    ensures TypeOk(Arr(types), v) && v != Null ==> TypeOk(NonNull(types)[0], v)
  {
    var scalar := NonNull(types)[0];
    assert scalar in types;
    if TypeOk(Arr(types), v) && v != Null {
      var i: nat :| i < |types| && TypeOk(types[i], v);
      NonNullCovers(types, i);
    }
  }

  lemma {:induction false} DegradedType(s: Json, v: Json)
    requires s.Obj? && "type" in s.fields
    ensures var t := Degrade(s).fields["type"];
            && (TypeOk(t, v) ==> TypeOk(s.fields["type"], v))
            && (TypeOk(s.fields["type"], v) && v != Null ==> TypeOk(t, v))
  {
    if Collapsible(s.fields) {
      CollapseType(s.fields["type"].items, v);
      assert s.fields["type"] == Arr(s.fields["type"].items);
    }
  }

  /** Everything but the type and a null default is where it was, and the children are
      rewritten in their place. */
  lemma {:induction false} DegradeShape(s: Json)
    requires s.Obj?
    ensures var d := Degrade(s);
            && d.Obj? && d.fields.Keys <= s.fields.Keys
            && (forall k :: k in s.fields && k != "default" ==> k in d.fields)
            && (forall k :: k in d.fields && k != "type" ==> d.fields[k] == DegradeField(k, s.fields[k]))
            && Names(d.fields) == Names(s.fields)
            && PrefixLength(d.fields) == PrefixLength(s.fields)
  {
  }

  lemma {:induction false} ResolveDegraded(doc: Json, ref: Json)
    ensures Resolve(Degrade(doc), ref) ==
            match Resolve(doc, ref) case Some(s) => Some(Degrade(s)) case None => None
  {
    if doc.Obj? && "$defs" in doc.fields {
      DegradeShape(doc);
      assert Degrade(doc).fields["$defs"] == DegradeEach(doc.fields["$defs"]);
    }
  }

  lemma {:induction false} ReferenceKept(s: Json)
    requires s.Obj? && "$ref" in s.fields
    ensures var d := Degrade(s);
            && d.Obj? && "$ref" in d.fields && d.fields["$ref"] == s.fields["$ref"]
            && Names(d.fields) == Names(s.fields)
  {
    DegradeShape(s);
  }

  // ------------------------------------------------------------------ sound

  lemma {:induction false} PropertiesSound(doc: Json, value: Json, v: Json, other: Keyword, depth: nat)
    requires HoldsProperties(Degrade(doc), DegradeEach(value), v, other, depth)
    ensures HoldsProperties(doc, value, v, other, depth)
    decreases depth, value, 2
  {
    if value.Obj? && v.Obj? {
      forall p | p in value.fields && p in v.fields
        ensures Accepts(doc, value.fields[p], v.fields[p], other, depth)
      {
        assert DegradeEach(value).fields[p] == Degrade(value.fields[p]);
        DegradeSound(doc, value.fields[p], v.fields[p], other, depth);
      }
    }
  }

  lemma {:induction false} ItemsSound(doc: Json, value: Json, from: nat, v: Json, other: Keyword, depth: nat)
    requires HoldsItems(Degrade(doc), Degrade(value), from, v, other, depth)
    ensures HoldsItems(doc, value, from, v, other, depth)
    decreases depth, value, 2
  {
    if v.Arr? {
      forall i | from <= i < |v.items|
        ensures Accepts(doc, value, v.items[i], other, depth)
      {
        DegradeSound(doc, value, v.items[i], other, depth);
      }
    }
  }

  lemma {:induction false} HoldsSound(doc: Json, s: Json, k: string, v: Json, other: Keyword, depth: nat)
    requires s.Obj? && k in s.fields && k != "$ref" && Accepts(Degrade(doc), Degrade(s), v, other, depth)
    ensures Holds(doc, s, k, v, other, depth)
    decreases depth, s, 0
  {
    DegradeShape(s);
    if k == "default" {
      return;
    }
    assert Holds(Degrade(doc), Degrade(s), k, v, other, depth);
    if k == "type" {
      DegradedType(s, v);
    } else if k == "properties" {
      PropertiesSound(doc, s.fields[k], v, other, depth);
    } else if k == "items" {
      ItemsSound(doc, s.fields[k], PrefixLength(s.fields), v, other, depth);
    }
  }

  lemma {:induction false} ReferenceSound(doc: Json, s: Json, v: Json, other: Keyword, depth: nat)
    requires s.Obj? && "$ref" in s.fields && Accepts(Degrade(doc), Degrade(s), v, other, depth)
    ensures Holds(doc, s, "$ref", v, other, depth)
    decreases depth, s, 0
  {
    var ref := s.fields["$ref"];
    ReferenceKept(s);
    ResolveDegraded(doc, ref);
    assert Holds(Degrade(doc), Degrade(s), "$ref", v, other, depth);
    if Resolve(doc, ref).Some? && depth > 0 {
      DegradeSound(doc, Resolve(doc, ref).value, v, other, depth - 1);
    }
  }

  /** Every instance the rewritten schema accepts, the original accepts: for any document,
      any schema in it, references included, and whatever the other keywords mean. */
  lemma {:induction false} DegradeSound(doc: Json, s: Json, v: Json, other: Keyword, depth: nat)
    requires Accepts(Degrade(doc), Degrade(s), v, other, depth)
    ensures Accepts(doc, s, v, other, depth)
    decreases depth, s, 1
  {
    if s.Obj? {
      forall k | k in s.fields
        ensures Holds(doc, s, k, v, other, depth)
      {
        if k == "$ref" {
          ReferenceSound(doc, s, v, other, depth);
        } else {
          HoldsSound(doc, s, k, v, other, depth);
        }
      }
    }
  }

  // --------------------------------------------------------------- complete

  lemma {:induction false} PropertiesComplete(doc: Json, value: Json, v: Json, other: Keyword, depth: nat)
    requires HoldsProperties(doc, value, v, other, depth) && NullFree(v)
    ensures HoldsProperties(Degrade(doc), DegradeEach(value), v, other, depth)
    decreases depth, value, 2
  {
    if value.Obj? && v.Obj? {
      forall p | p in value.fields && p in v.fields
        ensures Accepts(Degrade(doc), DegradeEach(value).fields[p], v.fields[p], other, depth)
      {
        DegradeComplete(doc, value.fields[p], v.fields[p], other, depth);
      }
    }
  }

  lemma {:induction false} ItemsComplete(doc: Json, value: Json, from: nat, v: Json, other: Keyword, depth: nat)
    requires HoldsItems(doc, value, from, v, other, depth) && NullFree(v)
    ensures HoldsItems(Degrade(doc), Degrade(value), from, v, other, depth)
    decreases depth, value, 2
  {
    if v.Arr? {
      forall i | from <= i < |v.items|
        ensures Accepts(Degrade(doc), Degrade(value), v.items[i], other, depth)
      {
        DegradeComplete(doc, value, v.items[i], other, depth);
      }
    }
  }

  lemma {:induction false} HoldsComplete(doc: Json, s: Json, k: string, v: Json, other: Keyword, depth: nat)
    requires s.Obj? && k in Degrade(s).fields && k != "$ref" && Accepts(doc, s, v, other, depth) && NullFree(v)
    ensures Holds(Degrade(doc), Degrade(s), k, v, other, depth)
    decreases depth, s, 0
  {
    DegradeShape(s);
    assert Holds(doc, s, k, v, other, depth);
    if k == "type" {
      DegradedType(s, v);
    } else if k == "properties" {
      PropertiesComplete(doc, s.fields[k], v, other, depth);
    } else if k == "items" {
      ItemsComplete(doc, s.fields[k], PrefixLength(s.fields), v, other, depth);
    }
  }

  lemma {:induction false} ReferenceComplete(doc: Json, s: Json, v: Json, other: Keyword, depth: nat)
    requires s.Obj? && "$ref" in s.fields && Accepts(doc, s, v, other, depth) && NullFree(v)
    ensures "$ref" in Degrade(s).fields && Holds(Degrade(doc), Degrade(s), "$ref", v, other, depth)
    decreases depth, s, 0
  {
    ReferenceKept(s);
    var ref := s.fields["$ref"];
    ResolveDegraded(doc, ref);
    assert Holds(doc, s, "$ref", v, other, depth);
    if Resolve(doc, ref).Some? && depth > 0 {
      DegradeComplete(doc, Resolve(doc, ref).value, v, other, depth - 1);
    }
  }

  /** Every instance without a null that the original accepts, the rewritten one accepts. */
  lemma {:induction false} DegradeComplete(doc: Json, s: Json, v: Json, other: Keyword, depth: nat)
    requires Accepts(doc, s, v, other, depth) && NullFree(v)
    ensures Accepts(Degrade(doc), Degrade(s), v, other, depth)
    decreases depth, s, 1
  {
    if s.Obj? {
      forall k | k in Degrade(s).fields
        ensures Holds(Degrade(doc), Degrade(s), k, v, other, depth)
      {
        if k == "$ref" {
          ReferenceComplete(doc, s, v, other, depth);
        } else {
          HoldsComplete(doc, s, k, v, other, depth);
        }
      }
    }
  }

  /** The rewriting keeps the meaning of a schema on every instance that contains no null. */
  lemma {:induction false} DegradeKeepsMeaning(schema: Json, v: Json, other: Keyword, depth: nat)
    requires NullFree(v)
    ensures Accepts(Degrade(schema), Degrade(schema), v, other, depth) <==> Accepts(schema, schema, v, other, depth)
  {
    if Accepts(Degrade(schema), Degrade(schema), v, other, depth) {
      DegradeSound(schema, schema, v, other, depth);
    } else if Accepts(schema, schema, v, other, depth) {
      DegradeComplete(schema, schema, v, other, depth);
    }
  }

  // ------------------------------------------------------------- idempotence

  /** No visited node is a nullable union of a single type. */
  ghost predicate Clean(s: Json)
    decreases s, 0
  {
    s.Obj? ==>
      && !Collapsible(s.fields)
      && (forall k :: k in s.fields ==> CleanField(k, s.fields[k]))
  }

  ghost predicate CleanField(k: string, v: Json)
    decreases v, 1
  {
    && (k == "properties" || k == "$defs" ==> CleanEach(v))
    && (k == "items" ==> Clean(v))
  }

  ghost predicate CleanEach(v: Json)
    decreases v, 0
  {
    v.Obj? ==> forall p :: p in v.fields ==> Clean(v.fields[p])
  }

  /** No union that collapses leaves another such union behind. */
  ghost predicate OneDeep(s: Json)
    decreases s, 0
  {
    s.Obj? ==>
      && (Collapsible(s.fields) ==>
            var left := NonNull(s.fields["type"].items)[0];
            !(left.Arr? && SingleNullable(left.items)))
      && (forall k :: k in s.fields ==> OneDeepField(k, s.fields[k]))
  }

  ghost predicate OneDeepField(k: string, v: Json)
    decreases v, 1
  {
    && (k == "properties" || k == "$defs" ==> OneDeepEach(v))
    && (k == "items" ==> OneDeep(v))
  }

  ghost predicate OneDeepEach(v: Json)
    decreases v, 0
  {
    v.Obj? ==> forall p :: p in v.fields ==> OneDeep(v.fields[p])
  }

  lemma {:induction false} EachFixedIffClean(v: Json)
    ensures DegradeEach(v) == v <==> CleanEach(v)
    decreases v, 0
  {
    if v.Obj? {
      forall p | p in v.fields
        ensures Degrade(v.fields[p]) == v.fields[p] <==> Clean(v.fields[p])
      {
        FixedIffClean(v.fields[p]);
      }
      EachFixed(v);
    }
  }

  lemma {:induction false} EachFixed(v: Json)
    requires v.Obj?
    ensures DegradeEach(v) == v <==> forall p :: p in v.fields ==> Degrade(v.fields[p]) == v.fields[p]
  {
    var d := DegradeEach(v);
    if d == v {
      forall p | p in v.fields
        ensures Degrade(v.fields[p]) == v.fields[p]
      {
        assert d.fields[p] == Degrade(v.fields[p]);
      }
    }
    if forall p :: p in v.fields ==> Degrade(v.fields[p]) == v.fields[p] {
      assert d.fields == v.fields;
    }
  }

  lemma {:induction false} FieldFixedIffClean(k: string, v: Json)
    ensures DegradeField(k, v) == v <==> CleanField(k, v)
    decreases v, 1
  {
    if k == "properties" || k == "$defs" {
      EachFixedIffClean(v);
    } else if k == "items" {
      FixedIffClean(v);
    }
  }

  /** A node that collapses changes: the entry left over cannot be the whole union. */
  lemma {:induction false} CollapseChanges(s: Json)
    requires s.Obj? && Collapsible(s.fields)
    ensures Degrade(s) != s
  {
    var types := s.fields["type"].items;
    var left := NonNull(types)[0];
    var i :| 0 <= i < |types| && types[i] == left;
    assert types[i] != Arr(types);
    assert Degrade(s).fields["type"] == left;
  }

  lemma {:induction false} NodeFixed(s: Json)
    requires s.Obj? && !Collapsible(s.fields)
    ensures Degrade(s) == s <==> forall k :: k in s.fields ==> DegradeField(k, s.fields[k]) == s.fields[k]
  {
    var d := Degrade(s);
    assert d.fields.Keys == s.fields.Keys;
    assert forall k :: k in s.fields ==> d.fields[k] == DegradeField(k, s.fields[k]);
    if forall k :: k in s.fields ==> DegradeField(k, s.fields[k]) == s.fields[k] {
      assert d.fields == s.fields;
    }
  }

  /** The rewriting leaves a schema alone exactly when it has nothing to rewrite. */
  lemma {:induction false} FixedIffClean(s: Json)
    ensures Degrade(s) == s <==> Clean(s)
    decreases s, 0
  {
    if s.Obj? {
      if Collapsible(s.fields) {
        CollapseChanges(s);
      } else {
        NodeFixed(s);
        forall k | k in s.fields
          ensures DegradeField(k, s.fields[k]) == s.fields[k] <==> CleanField(k, s.fields[k])
        {
          FieldFixedIffClean(k, s.fields[k]);
        }
      }
    }
  }

  lemma {:induction false} EachCleanIff(v: Json)
    ensures CleanEach(DegradeEach(v)) <==> OneDeepEach(v)
    decreases v, 0
  {
    if v.Obj? {
      forall p | p in v.fields
        ensures Clean(DegradeEach(v).fields[p]) <==> OneDeep(v.fields[p])
      {
        CleanIffOneDeep(v.fields[p]);
      }
    }
  }

  lemma {:induction false} FieldCleanIff(k: string, v: Json)
    ensures CleanField(k, DegradeField(k, v)) <==> OneDeepField(k, v)
    decreases v, 1
  {
    if k == "properties" || k == "$defs" {
      EachCleanIff(v);
    } else if k == "items" {
      CleanIffOneDeep(v);
    }
  }

  lemma {:induction false} NodeCleanIff(s: Json)
    requires s.Obj?
    ensures Collapsible(Degrade(s).fields) <==>
              && Collapsible(s.fields)
              && var left := NonNull(s.fields["type"].items)[0];
                 left.Arr? && SingleNullable(left.items)
  {
    DegradeShape(s);
  }

  lemma {:induction false} FieldsCleanIff(s: Json)
    requires s.Obj?
    ensures (forall k :: k in Degrade(s).fields ==> CleanField(k, Degrade(s).fields[k]))
       <==> (forall k :: k in s.fields ==> OneDeepField(k, s.fields[k]))
    decreases s, 0, 0
  {
    DegradeShape(s);
    forall k | k in s.fields && k != "default" && k != "type"
      ensures CleanField(k, Degrade(s).fields[k]) <==> OneDeepField(k, s.fields[k])
    {
      FieldCleanIff(k, s.fields[k]);
    }
  }

  /** No single-type nullable union is left at any visited node, if and only if none of the
      unions that collapse has another such union for its remaining entry. */
  lemma {:induction false} CleanIffOneDeep(s: Json)
    ensures Clean(Degrade(s)) <==> OneDeep(s)
    decreases s, 0
  {
    if s.Obj? {
      NodeCleanIff(s);
      FieldsCleanIff(s);
      DegradeShape(s);
    }
  }

  /** The rewriting is idempotent on exactly the same schemas. */
  lemma {:induction false} IdempotentIff(s: Json)
    ensures Degrade(Degrade(s)) == Degrade(s) <==> OneDeep(s)
  {
    FixedIffClean(Degrade(s));
    CleanIffOneDeep(s);
  }

  /** What JSON Schema demands of `type`: a name, or an array of names. */
  ghost predicate Legal(s: Json)
    decreases s, 0
  {
    s.Obj? ==>
      && ("type" in s.fields && s.fields["type"].Arr? ==>
            forall i :: 0 <= i < |s.fields["type"].items| ==> s.fields["type"].items[i].Str?)
      && (forall k :: k in s.fields && (k == "properties" || k == "$defs") ==> LegalEach(s.fields[k]))
      && ("items" in s.fields ==> Legal(s.fields["items"]))
  }

  ghost predicate LegalEach(v: Json)
    decreases v, 1
  {
    v.Obj? ==> forall p :: p in v.fields ==> Legal(v.fields[p])
  }

  lemma {:induction false} LegalEachOneDeep(v: Json)
    requires LegalEach(v)
    ensures OneDeepEach(v)
    decreases v, 1
  {
    if v.Obj? {
      forall p | p in v.fields
        ensures OneDeep(v.fields[p])
      {
        LegalOneDeep(v.fields[p]);
      }
    }
  }

  lemma {:induction false} LegalOneDeep(s: Json)
    requires Legal(s)
    ensures OneDeep(s)
    decreases s, 0
  {
    if s.Obj? {
      forall k | k in s.fields
        ensures OneDeepField(k, s.fields[k])
      {
        if k == "properties" || k == "$defs" {
          LegalEachOneDeep(s.fields[k]);
        } else if k == "items" {
          LegalOneDeep(s.fields[k]);
        }
      }
    }
  }

  /** On every legal schema the rewriting is idempotent and leaves no nullable union of a
      single type. */
  lemma {:induction false} LegalSchemas(s: Json)
    requires Legal(s)
    ensures Degrade(Degrade(s)) == Degrade(s) && Clean(Degrade(s))
  {
    LegalOneDeep(s);
    IdempotentIff(s);
    CleanIffOneDeep(s);
  }

  /** A union nested in a union needs two passes. */
  lemma {:induction false} NestedUnionTwice()
    ensures var inner := Arr([Str("string"), NULL_NAME]);
            var s := Obj(map["type" := Arr([NULL_NAME, inner])]);
            && Degrade(s) == Obj(map["type" := inner])
            && Degrade(Degrade(s)) == Obj(map["type" := Str("string")])
  {
    var inner := Arr([Str("string"), NULL_NAME]);
    NonNullOfTwo(NULL_NAME, inner);
    NonNullOfTwo(Str("string"), NULL_NAME);
    assert NULL_NAME == [NULL_NAME, inner][0] && NULL_NAME == inner.items[1];
  }

  lemma {:induction false} NonNullOfTwo(a: Json, b: Json)
    ensures NonNull([a, b]) == (if a == NULL_NAME then [] else [a]) + if b == NULL_NAME then [] else [b]
  {
    assert [a, b][1..] == [b] && [b][1..] == [];
    assert NonNull([b]) == if b == NULL_NAME then [] else [b];
  }
}
