// What inlining does to the meaning of a schema: an instance validates against the inlined schema,
// without definitions, exactly when it validates against the original with its definitions.
module SchemaMeaning {
  import opened Common
  import opened Text
  import opened SchemaInliner

  // Assertion keywords (type, enum, const, minimum, ...) and references to other documents mean
  // whatever these two say.
  datatype World = World(leaf: (string, Json, Json) -> bool, external: (string, Json) -> bool)

  const ANNOTATIONS: set<string> :=
    {"title", "description", "default", "examples", "deprecated", "readOnly", "writeOnly", "$comment"}

  // The named properties of an object schema.
  function Named(fields: Fields): Fields {
    var p := Lookup(fields, "properties");
    if p.Some? && p.value.Obj? then p.value.fields else End
  }

  // Validation: "$ref" applies the definition, beside the other keywords (section 8.2.3.1 of the
  // 2020-12 core).  The fuel bounds nested references.
  predicate Valid(w: World, defs: Fields, schema: Json, inst: Json, fuel: nat)
    decreases fuel, schema, 0
  {
    match schema
    case Bool(b) => b
    case Obj(fields) =>
      var ref := Lookup(fields, "$ref");
      var refOk :=
        if ref.None? || !ref.value.Str? then true
        else if Referred(defs, ref.value.s).None? then w.external(ref.value.s, inst)
        else fuel > 0 && Valid(w, defs, Def(defs, Referred(defs, ref.value.s).value), inst, fuel - 1);
      refOk && AllKeywords(w, defs, fields, Named(fields), inst, fuel)
    case _ => true
  }

  predicate AllKeywords(w: World, defs: Fields, fields: Fields, named: Fields, inst: Json, fuel: nat)
    decreases fuel, fields
  {
    fields.End?
    || (Keyword(w, defs, fields.key, fields.value, named, inst, fuel) && AllKeywords(w, defs, fields.rest, named, inst, fuel))
  }

  predicate Keyword(w: World, defs: Fields, key: string, value: Json, named: Fields, inst: Json, fuel: nat)
    decreases fuel, value, 2
  {
    if key == "$ref" || key in ANNOTATIONS then true
    else if key == "properties" then inst.Obj? && value.Obj? ==> Properties(w, defs, value.fields, inst.fields, fuel)
    else if key == "items" then inst.Arr? ==> Each(w, defs, value, inst.items, fuel)
    else if key == "additionalProperties" then inst.Obj? ==> Extras(w, defs, value, named, inst.fields, fuel)
    else if key == "not" then !Valid(w, defs, value, inst, fuel)
    else if key == "allOf" then value.Arr? ==> HowMany(w, defs, value.items, inst, fuel) == Length(value.items)
    else if key == "anyOf" then value.Arr? ==> HowMany(w, defs, value.items, inst, fuel) >= 1
    else if key == "oneOf" then value.Arr? ==> HowMany(w, defs, value.items, inst, fuel) == 1
    else w.leaf(key, value, inst)
  }

  predicate Properties(w: World, defs: Fields, props: Fields, inst: Fields, fuel: nat)
    decreases fuel, props
  {
    props.End?
    || ((HasKey(inst, props.key) ==> Valid(w, defs, props.value, Lookup(inst, props.key).value, fuel))
        && Properties(w, defs, props.rest, inst, fuel))
  }

  predicate Each(w: World, defs: Fields, schema: Json, items: Items, fuel: nat)
    decreases fuel, schema, 1, items
  {
    items.Nil? || (Valid(w, defs, schema, items.head, fuel) && Each(w, defs, schema, items.tail, fuel))
  }

  // The properties of the instance that are not named.
  predicate Extras(w: World, defs: Fields, schema: Json, named: Fields, inst: Fields, fuel: nat)
    decreases fuel, schema, 1, inst
  {
    inst.End?
    || ((HasKey(named, inst.key) || Valid(w, defs, schema, inst.value, fuel))
        && Extras(w, defs, schema, named, inst.rest, fuel))
  }

  // How many of the alternatives the instance meets.
  function HowMany(w: World, defs: Fields, items: Items, inst: Json, fuel: nat): nat
    decreases fuel, items
  {
    if items.Nil? then 0
    else (if Valid(w, defs, items.head, inst, fuel) then 1 else 0) + HowMany(w, defs, items.tail, inst, fuel)
  }

  // ---------- the schemas in question ----------

  predicate IsAssertion(key: string) {
    key !in ANNOTATIONS
    && key !in {"$ref", "properties", "items", "additionalProperties", "not", "allOf", "anyOf", "oneOf"}
  }

  // Siblings of a known reference are annotations, or assertions that the inlined definition does not
  // make with another value; data holds nothing that looks like a known reference.  Followed through
  // every definition that is reached.
  predicate Plain(defs: Fields, schema: Json, fuel: nat)
    decreases fuel, schema, 0
  {
    schema.Obj? ==>
      && (HasKey(schema.fields, "$ref") ==> Lookup(schema.fields, "$ref").value.Str?)
      && var known := KnownRef(defs, schema.fields);
      if known.None? then PlainFields(defs, schema.fields, fuel)
      else
        && fuel > 0 && Plain(defs, Def(defs, known.value), fuel - 1)
        && var base := Resolve(defs, Def(defs, known.value), fuel - 1);
        (base.Done? && base.value.Obj? ==> Agreeing(defs, base.value.fields, schema.fields))
  }

  predicate Agreeing(defs: Fields, base: Fields, siblings: Fields) {
    siblings.End? || (AgreeingField(defs, base, siblings) && Agreeing(defs, base, siblings.rest))
  }

  predicate AgreeingField(defs: Fields, base: Fields, siblings: Fields)
    requires siblings.Field?
  {
    || siblings.key == "$ref" || siblings.key in ANNOTATIONS
    || (IsAssertion(siblings.key) && KnownFree(defs, siblings.value) && !HasKey(siblings.rest, siblings.key)
        && (HasKey(base, siblings.key) ==> Lookup(base, siblings.key).value == siblings.value))
  }

  predicate PlainFields(defs: Fields, fields: Fields, fuel: nat)
    decreases fuel, fields
  {
    fields.End? || (PlainKeyword(defs, fields.key, fields.value, fuel) && PlainFields(defs, fields.rest, fuel))
  }

  predicate PlainKeyword(defs: Fields, key: string, value: Json, fuel: nat)
    decreases fuel, value, 1
  {
    if key == "$ref" || key in ANNOTATIONS then true
    else if key == "properties" then
      value.Obj? && KnownRef(defs, value.fields).None? && PlainProps(defs, value.fields, fuel)
    else if key == "items" || key == "additionalProperties" || key == "not" then Plain(defs, value, fuel)
    else if key == "allOf" || key == "anyOf" || key == "oneOf" then value.Arr? && PlainItems(defs, value.items, fuel)
    else KnownFree(defs, value)
  }

  predicate PlainProps(defs: Fields, props: Fields, fuel: nat)
    decreases fuel, props
  {
    props.End? || (Plain(defs, props.value, fuel) && PlainProps(defs, props.rest, fuel))
  }

  predicate PlainItems(defs: Fields, items: Items, fuel: nat)
    decreases fuel, items
  {
    items.Nil? || (Plain(defs, items.head, fuel) && PlainItems(defs, items.tail, fuel))
  }

  // ---------- inlining preserves meaning ----------

  // The properties that are named stay the same ones.
  lemma SameNames(defs: Fields, fields: Fields, fuel: nat, key: string)
    requires ResolveFields(defs, fields, fuel).Done? && PlainFields(defs, fields, fuel)
    ensures HasKey(Named(ResolveFields(defs, fields, fuel).value), key) <==> HasKey(Named(fields), key)
  {
    ResolvedFields(defs, fields, fuel, "properties");
    var p := Lookup(fields, "properties");
    if p.Some? {
      PlainAt(defs, fields, "properties", fuel);
      ResolvedFields(defs, p.value.fields, fuel, key);
    }
  }

  lemma {:induction false} PlainAt(defs: Fields, fields: Fields, key: string, fuel: nat)
    requires PlainFields(defs, fields, fuel) && HasKey(fields, key)
    ensures PlainKeyword(defs, key, Lookup(fields, key).value, fuel)
    decreases fields
  {
    if fields.key != key { PlainAt(defs, fields.rest, key, fuel); }
  }

  lemma {:induction false} MeaningKept(w: World, defs: Fields, node: Json, inst: Json, fuel: nat)
    requires Plain(defs, node, fuel) && Resolve(defs, node, fuel).Done?
    ensures Valid(w, defs, node, inst, fuel) <==> Valid(w, End, Resolve(defs, node, fuel).value, inst, 0)
    decreases fuel, node, 0
  {
    match node
    case Obj(fields) =>
      var known := KnownRef(defs, fields);
      KnownRefIs(defs, fields);
      if known.None? {
        ResolvedFields(defs, fields, fuel, "$ref");
        var fields' := ResolveFields(defs, fields, fuel).value;
        forall k ensures HasKey(Named(fields'), k) <==> HasKey(Named(fields), k) {
          SameNames(defs, fields, fuel, k);
        }
        KeywordsKept(w, defs, fields, Named(fields), Named(fields'), inst, fuel);
      } else {
        var d := Def(defs, known.value);
        MeaningKept(w, defs, d, inst, fuel - 1);
        SiblingsJoin(w, defs, Resolve(defs, d, fuel - 1).value, fields, Named(fields), inst, fuel);
      }
    case _ =>
  }

  // Overwriting with agreeing siblings adds exactly what the siblings assert.
  lemma {:induction false} SiblingsJoin(w: World, defs: Fields, base: Json, siblings: Fields, named: Fields, inst: Json,
                                        fuel: nat)
    requires base.Obj? ==> Agreeing(defs, base.fields, siblings)
    requires Override(defs, base, siblings, fuel).Done?
    ensures Valid(w, End, Override(defs, base, siblings, fuel).value, inst, 0)
            <==> Valid(w, End, base, inst, 0) && AllKeywords(w, defs, siblings, named, inst, fuel)
    decreases siblings
  {
    if siblings.Field? {
      if siblings.key == "$ref" {
        SiblingsJoin(w, defs, base, siblings.rest, named, inst, fuel);
      } else {
        var v := Resolve(defs, siblings.value, fuel).value;
        StillAgreeing(defs, base.fields, siblings.key, v, siblings.rest);
        OneSiblingJoins(w, defs, base.fields, siblings, v, named, inst, fuel);
        SiblingsJoin(w, defs, Obj(SetKey(base.fields, siblings.key, v)), siblings.rest, named, inst, fuel);
      }
    }
  }

  lemma OneSiblingJoins(w: World, defs: Fields, base: Fields, siblings: Fields, v: Json, named: Fields, inst: Json,
                        fuel: nat)
    requires siblings.Field? && siblings.key != "$ref" && AgreeingField(defs, base, siblings)
    requires Resolve(defs, siblings.value, fuel) == Done(v)
    ensures Valid(w, End, Obj(SetKey(base, siblings.key, v)), inst, 0)
            <==> Valid(w, End, Obj(base), inst, 0) && Keyword(w, defs, siblings.key, siblings.value, named, inst, fuel)
  {
    hide Resolve, KnownFree, Keyword, Agreeing, IsAssertion;
    LookupSetKey(base, siblings.key, v, "$ref");
    LookupSetKey(base, siblings.key, v, "properties");
    NotStructure(siblings.key);
    LeafKeyword(w, defs, siblings.key, siblings.value, named, inst, fuel);
    if siblings.key in ANNOTATIONS {
      SetAnnotation(w, base, siblings.key, v, Named(base), inst);
    } else {
      FreeIsKept(defs, siblings.value, fuel);
      SetAssertion(w, base, siblings.key, v, Named(base), inst);
    }
  }

  lemma NotStructure(key: string)
    ensures IsAssertion(key) || key in ANNOTATIONS ==> key != "$ref" && key != "properties"
    ensures !(IsAssertion(key) && key in ANNOTATIONS)
  {
  }

  // The keywords that look at no other schema.
  lemma LeafKeyword(w: World, defs: Fields, key: string, value: Json, named: Fields, inst: Json, fuel: nat)
    ensures IsAssertion(key) ==> Keyword(w, defs, key, value, named, inst, fuel) == w.leaf(key, value, inst)
    ensures key in ANNOTATIONS ==> Keyword(w, defs, key, value, named, inst, fuel)
  {
    hide Valid, Properties, Each, Extras, HowMany;
  }

  // Setting a field leaves the other siblings agreeing.
  lemma {:induction false} StillAgreeing(defs: Fields, base: Fields, key: string, v: Json, siblings: Fields)
    requires Agreeing(defs, base, siblings) && (key in ANNOTATIONS || !HasKey(siblings, key))
    ensures Agreeing(defs, SetKey(base, key, v), siblings)
    decreases siblings
  {
    if siblings.Field? {
      LookupSetKey(base, key, v, siblings.key);
      StillAgreeing(defs, base, key, v, siblings.rest);
    }
  }

  lemma {:induction false} SetAnnotation(w: World, fields: Fields, key: string, value: Json, named: Fields, inst: Json)
    requires key in ANNOTATIONS
    ensures AllKeywords(w, End, SetKey(fields, key, value), named, inst, 0) <==> AllKeywords(w, End, fields, named, inst, 0)
    decreases fields
  {
    hide Keyword;
    LeafKeyword(w, End, key, value, named, inst, 0);
    if HasKey(fields, key) { LeafKeyword(w, End, key, Lookup(fields, key).value, named, inst, 0); }
    if fields.Field? && fields.key != key { SetAnnotation(w, fields.rest, key, value, named, inst); }
  }

  lemma {:induction false} SetAssertion(w: World, fields: Fields, key: string, value: Json, named: Fields, inst: Json)
    requires IsAssertion(key) && (HasKey(fields, key) ==> Lookup(fields, key).value == value)
    ensures AllKeywords(w, End, SetKey(fields, key, value), named, inst, 0)
            <==> AllKeywords(w, End, fields, named, inst, 0) && w.leaf(key, value, inst)
    decreases fields
  {
    hide Keyword, IsAssertion;
    LeafKeyword(w, End, key, value, named, inst, 0);
    if fields.Field? && fields.key != key { SetAssertion(w, fields.rest, key, value, named, inst); }
  }

  lemma {:induction false} KeywordsKept(w: World, defs: Fields, fields: Fields, named: Fields, named': Fields, inst: Json,
                                        fuel: nat)
    requires PlainFields(defs, fields, fuel) && ResolveFields(defs, fields, fuel).Done?
    requires forall k :: HasKey(named', k) <==> HasKey(named, k)
    ensures AllKeywords(w, defs, fields, named, inst, fuel)
            <==> AllKeywords(w, End, ResolveFields(defs, fields, fuel).value, named', inst, 0)
    decreases fuel, fields
  {
    if fields.Field? {
      KeywordKept(w, defs, fields.key, fields.value, named, named', inst, fuel);
      KeywordsKept(w, defs, fields.rest, named, named', inst, fuel);
    }
  }

  lemma {:induction false} KeywordKept(w: World, defs: Fields, key: string, value: Json, named: Fields, named': Fields,
    inst: Json, fuel: nat)
    requires PlainKeyword(defs, key, value, fuel) && Resolve(defs, value, fuel).Done?
    requires forall k :: HasKey(named', k) <==> HasKey(named, k)
    ensures Keyword(w, defs, key, value, named, inst, fuel)
            <==> Keyword(w, End, key, Resolve(defs, value, fuel).value, named', inst, 0)
    decreases fuel, value, 3
  {
    hide Keyword, PlainKeyword, PlainProps, Resolve;
    if key == "$ref" || key in ANNOTATIONS || key == "properties" {
      PropertiesKeywordKept(w, defs, key, value, named, named', inst, fuel);
    } else if key in {"items", "additionalProperties", "not"} {
      SchemaKeywordKept(w, defs, key, value, named, named', inst, fuel);
    } else if key in {"allOf", "anyOf", "oneOf"} {
      ListKeywordKept(w, defs, key, value, named, named', inst, fuel);
    } else {
      AssertionKept(w, defs, key, value, named, named', inst, fuel);
    }
  }

  lemma {:induction false} PropertiesKeywordKept(w: World, defs: Fields, key: string, value: Json, named: Fields, named': Fields,
    inst: Json, fuel: nat)
    requires PlainKeyword(defs, key, value, fuel) && Resolve(defs, value, fuel).Done?
    requires forall k :: HasKey(named', k) <==> HasKey(named, k)
    requires key == "$ref" || key in ANNOTATIONS || key == "properties"
    ensures Keyword(w, defs, key, value, named, inst, fuel)
            <==> Keyword(w, End, key, Resolve(defs, value, fuel).value, named', inst, 0)
    decreases fuel, value, 2
  {
    hide Properties, PlainProps;
    if key == "properties" && inst.Obj? {
      PropertiesKept(w, defs, value.fields, inst.fields, fuel);
    }
  }

  lemma {:induction false} SchemaKeywordKept(w: World, defs: Fields, key: string, value: Json, named: Fields, named': Fields,
    inst: Json, fuel: nat)
    requires PlainKeyword(defs, key, value, fuel) && Resolve(defs, value, fuel).Done?
    requires forall k :: HasKey(named', k) <==> HasKey(named, k)
    requires key in {"items", "additionalProperties", "not"}
    ensures Keyword(w, defs, key, value, named, inst, fuel)
            <==> Keyword(w, End, key, Resolve(defs, value, fuel).value, named', inst, 0)
    decreases fuel, value, 2
  {
    hide Each, Extras, Valid, Plain, PlainProps, Resolve;
    if key == "items" {
      if inst.Arr? { EachKept(w, defs, value, inst.items, fuel); }
    } else if key == "additionalProperties" {
      if inst.Obj? { ExtrasKept(w, defs, value, named, named', inst.fields, fuel); }
    } else {
      MeaningKept(w, defs, value, inst, fuel);
    }
  }

  lemma {:induction false} ListKeywordKept(w: World, defs: Fields, key: string, value: Json, named: Fields, named': Fields,
    inst: Json, fuel: nat)
    requires PlainKeyword(defs, key, value, fuel) && Resolve(defs, value, fuel).Done?
    requires forall k :: HasKey(named', k) <==> HasKey(named, k)
    requires key in {"allOf", "anyOf", "oneOf"}
    ensures Keyword(w, defs, key, value, named, inst, fuel)
            <==> Keyword(w, End, key, Resolve(defs, value, fuel).value, named', inst, 0)
    decreases fuel, value, 2
  {
    hide HowMany, Length, PlainItems, PlainProps;
    HowManyKept(w, defs, value.items, inst, fuel);
  }

  lemma AssertionKept(w: World, defs: Fields, key: string, value: Json, named: Fields, named': Fields,
    inst: Json, fuel: nat)
    requires PlainKeyword(defs, key, value, fuel) && Resolve(defs, value, fuel).Done?
    requires forall k :: HasKey(named', k) <==> HasKey(named, k)
    requires IsAssertion(key)
    ensures Keyword(w, defs, key, value, named, inst, fuel)
            <==> Keyword(w, End, key, Resolve(defs, value, fuel).value, named', inst, 0)
  {
    hide KnownFree, PlainProps, Resolve;
    FreeIsKept(defs, value, fuel);
  }

  lemma {:induction false} PropertiesKept(w: World, defs: Fields, props: Fields, inst: Fields, fuel: nat)
    requires PlainProps(defs, props, fuel) && ResolveFields(defs, props, fuel).Done?
    ensures Properties(w, defs, props, inst, fuel)
            <==> Properties(w, End, ResolveFields(defs, props, fuel).value, inst, 0)
    decreases fuel, props
  {
    if props.Field? {
      if HasKey(inst, props.key) { MeaningKept(w, defs, props.value, Lookup(inst, props.key).value, fuel); }
      PropertiesKept(w, defs, props.rest, inst, fuel);
    }
  }

  lemma {:induction false} EachKept(w: World, defs: Fields, schema: Json, items: Items, fuel: nat)
    requires Plain(defs, schema, fuel) && Resolve(defs, schema, fuel).Done?
    ensures Each(w, defs, schema, items, fuel) <==> Each(w, End, Resolve(defs, schema, fuel).value, items, 0)
    decreases fuel, schema, 1, items
  {
    if items.Item? {
      MeaningKept(w, defs, schema, items.head, fuel);
      EachKept(w, defs, schema, items.tail, fuel);
    }
  }

  lemma {:induction false} ExtrasKept(w: World, defs: Fields, schema: Json, named: Fields, named': Fields, inst: Fields,
                                      fuel: nat)
    requires Plain(defs, schema, fuel) && Resolve(defs, schema, fuel).Done?
    requires forall k :: HasKey(named', k) <==> HasKey(named, k)
    ensures Extras(w, defs, schema, named, inst, fuel)
            <==> Extras(w, End, Resolve(defs, schema, fuel).value, named', inst, 0)
    decreases fuel, schema, 1, inst
  {
    if inst.Field? {
      MeaningKept(w, defs, schema, inst.value, fuel);
      ExtrasKept(w, defs, schema, named, named', inst.rest, fuel);
    }
  }

  lemma {:induction false} HowManyKept(w: World, defs: Fields, items: Items, inst: Json, fuel: nat)
    requires PlainItems(defs, items, fuel) && ResolveItems(defs, items, fuel).Done?
    ensures HowMany(w, defs, items, inst, fuel) == HowMany(w, End, ResolveItems(defs, items, fuel).value, inst, 0)
    ensures Length(ResolveItems(defs, items, fuel).value) == Length(items)
    decreases fuel, items
  {
    if items.Item? {
      MeaningKept(w, defs, items.head, inst, fuel);
      HowManyKept(w, defs, items.tail, inst, fuel);
    }
  }

  // For every plain schema whose references are acyclic, and every reading of the assertion keywords:
  // the inlined schema accepts exactly the same instances, with any larger bound as well.
  lemma DereferencePreservesMeaning(w: World, schema: Fields, inst: Json, fuel: nat)
    requires var defs, root := DefsOf(schema), Obj(RemoveKey(schema, "$defs"));
             AllObjects(defs) && Plain(defs, root, fuel) && Acyclic(defs, root)
    requires fuel >= Count(DefsOf(schema))
    ensures Dereference(schema, fuel).Done?
    ensures Valid(w, DefsOf(schema), Obj(RemoveKey(schema, "$defs")), inst, fuel)
            <==> Valid(w, End, Dereference(schema, fuel).value, inst, 0)
  {
    InlinedIffAcyclic(schema, fuel);
    MeaningKept(w, DefsOf(schema), Obj(RemoveKey(schema, "$defs")), inst, fuel);
  }

  // ---------- where the meaning is not kept ----------

  lemma SetKeyReplaces(w: World, fields: Fields, key: string, value: Json, inst: Json)
    requires IsAssertion(key) && ProperFields(fields)
    ensures Valid(w, End, Obj(SetKey(fields, key, value)), inst, 0)
            <==> Valid(w, End, Obj(RemoveKey(fields, key)), inst, 0) && w.leaf(key, value, inst)
    ensures HasKey(fields, key) ==>
              (Valid(w, End, Obj(fields), inst, 0)
               <==> Valid(w, End, Obj(RemoveKey(fields, key)), inst, 0) && w.leaf(key, Lookup(fields, key).value, inst))
  {
    hide Keyword, IsAssertion, AllKeywords, ProperFields;
    NotStructure(key);
    LookupSetKey(fields, key, value, "$ref");
    LookupSetKey(fields, key, value, "properties");
    LookupRemoveKey(fields, key, "$ref");
    LookupRemoveKey(fields, key, "properties");
    ReplacedKeyword(w, fields, key, value, Named(fields), inst);
  }

  lemma {:induction false} ReplacedKeyword(w: World, fields: Fields, key: string, value: Json, named: Fields, inst: Json)
    requires IsAssertion(key) && ProperFields(fields)
    ensures AllKeywords(w, End, SetKey(fields, key, value), named, inst, 0)
            <==> AllKeywords(w, End, RemoveKey(fields, key), named, inst, 0) && w.leaf(key, value, inst)
    ensures HasKey(fields, key) ==>
              (AllKeywords(w, End, fields, named, inst, 0)
               <==> AllKeywords(w, End, RemoveKey(fields, key), named, inst, 0)
                    && w.leaf(key, Lookup(fields, key).value, inst))
    decreases fields
  {
    hide Keyword, IsAssertion;
    LeafKeyword(w, End, key, value, named, inst, 0);
    if fields.Field? {
      if fields.key == key {
        LeafKeyword(w, End, key, fields.value, named, inst, 0);
        LookupRemoveKey(fields.rest, key, key);
      } else {
        ReplacedKeyword(w, fields.rest, key, value, named, inst);
      }
    }
  }

  // Inlining {"$ref": s, key: value}: the sibling replaces the definition's own assertion of that name;
  // under "$ref" both would have to hold.
  lemma SiblingReplaces(w: World, defs: Fields, s: string, key: string, value: Json, base: Fields, inst: Json, fuel: nat)
    requires fuel > 0 && IsAssertion(key) && KnownFree(defs, value) && ProperFields(base)
    requires HasKey(defs, LastSegment(s)) && Resolve(defs, Def(defs, LastSegment(s)), fuel - 1) == Done(Obj(base))
    ensures var out := Resolve(defs, Obj(Field("$ref", Str(s), Field(key, value, End))), fuel);
            && out.Done?
            && (Valid(w, End, out.value, inst, 0)
                <==> Valid(w, End, Obj(RemoveKey(base, key)), inst, 0) && w.leaf(key, value, inst))
            && (HasKey(base, key) ==>
                  (Valid(w, End, Obj(base), inst, 0)
                   <==> Valid(w, End, Obj(RemoveKey(base, key)), inst, 0) && w.leaf(key, Lookup(base, key).value, inst)))
  {
    hide LastSegment, KnownFree;
    var sibling := Field(key, value, End);
    var fields := Field("$ref", Str(s), sibling);
    assert KnownRef(defs, fields) == Some(LastSegment(s));
    FreeIsKept(defs, value, fuel);
    assert Override(defs, Obj(base), fields, fuel) == Override(defs, Obj(base), sibling, fuel);
    assert Override(defs, Obj(base), sibling, fuel) == Override(defs, Obj(SetKey(base, key, value)), End, fuel);
    SetKeyReplaces(w, base, key, value, inst);
  }

  // ---------- exactly when assertion siblings keep the meaning ----------

  // Annotations and assertions only, with data free of known references.
  predicate LeafFields(defs: Fields, fields: Fields) {
    fields.End?
    || ((fields.key in ANNOTATIONS || IsAssertion(fields.key)) && KnownFree(defs, fields.value)
        && !HasKey(fields.rest, fields.key) && LeafFields(defs, fields.rest))
  }

  // The same beside a reference.
  predicate LeafSiblings(defs: Fields, fields: Fields) {
    fields.End?
    || ((fields.key == "$ref" || fields.key in ANNOTATIONS || IsAssertion(fields.key)) && KnownFree(defs, fields.value)
        && !HasKey(fields.rest, fields.key) && LeafSiblings(defs, fields.rest))
  }

  ghost predicate Clash(own: Fields, siblings: Fields, key: string) {
    IsAssertion(key) && HasKey(own, key) && HasKey(siblings, key) && Lookup(own, key) != Lookup(siblings, key)
  }

  lemma {:induction false} LeafIsFree(defs: Fields, fields: Fields)
    requires LeafFields(defs, fields)
    ensures KnownFreeFields(defs, fields) && !HasKey(fields, "$ref")
  {
    if fields.Field? { LeafIsFree(defs, fields.rest); }
  }

  lemma {:induction false} LeafIsPlain(defs: Fields, fields: Fields, fuel: nat)
    requires LeafFields(defs, fields)
    ensures PlainFields(defs, fields, fuel)
    decreases fields
  {
    if fields.Field? { LeafIsPlain(defs, fields.rest, fuel); }
  }

  lemma {:induction false} NoClashAgrees(defs: Fields, own: Fields, siblings: Fields)
    requires LeafSiblings(defs, siblings) && forall k :: !Clash(own, siblings, k)
    ensures Agreeing(defs, own, siblings)
  {
    if siblings.Field? {
      assert !Clash(own, siblings, siblings.key);
      forall k ensures !Clash(own, siblings.rest, k) {
        assert !Clash(own, siblings, k);
      }
      NoClashAgrees(defs, own, siblings.rest);
    }
  }

  // Overwriting with leaf siblings: it ends, the result is leaf fields again, and holds each sibling.
  lemma {:induction false} LeafOverride(defs: Fields, own: Fields, siblings: Fields, fuel: nat, k: string)
    requires LeafFields(defs, own) && LeafSiblings(defs, siblings) && k != "$ref"
    ensures var out := Override(defs, Obj(own), siblings, fuel);
            && out.Done? && out.value.Obj? && LeafFields(defs, out.value.fields)
            && Lookup(out.value.fields, k) == if HasKey(siblings, k) then Lookup(siblings, k) else Lookup(own, k)
    decreases siblings
  {
    if siblings.Field? {
      if siblings.key == "$ref" {
        LeafOverride(defs, own, siblings.rest, fuel, k);
      } else {
        FreeIsKept(defs, siblings.value, fuel);
        LeafSetKey(defs, own, siblings.key, siblings.value);
        LookupSetKey(own, siblings.key, siblings.value, k);
        LeafOverride(defs, SetKey(own, siblings.key, siblings.value), siblings.rest, fuel, k);
      }
    }
  }

  lemma {:induction false} LeafSetKey(defs: Fields, fields: Fields, key: string, value: Json)
    requires LeafFields(defs, fields) && (key in ANNOTATIONS || IsAssertion(key)) && KnownFree(defs, value)
    ensures LeafFields(defs, SetKey(fields, key, value))
  {
    if fields.Field? && fields.key != key {
      LeafSetKey(defs, fields.rest, key, value);
      LookupSetKey(fields.rest, key, value, fields.key);
    }
  }

  // The reading under which just one value of one keyword fails.
  function Against(key: string, value: Json): World {
    World((k, v, i) => k != key || v != value, (s, i) => true)
  }

  lemma {:induction false} LeafAgainst(defs: Fields, all: Fields, fields: Fields, named: Fields, key: string, value: Json,
                                       inst: Json, fuel: nat)
    requires LeafFields(defs, fields) && IsAssertion(key)
    ensures AllKeywords(Against(key, value), all, fields, named, inst, fuel) <==> Lookup(fields, key) != Some(value)
    decreases fields
  {
    hide Keyword;
    if fields.Field? { LeafKeyword(Against(key, value), all, fields.key, fields.value, named, inst, fuel); }
    if fields.Field? { LeafAgainst(defs, all, fields.rest, named, key, value, inst, fuel); }
  }

  // A reference to a definition of assertions and annotations, beside assertions and annotations: the
  // inlined schema accepts the same instances under every reading of the keywords exactly when no
  // sibling gives an assertion of the definition another value.
  lemma SiblingsKeptIff(defs: Fields, key: string, own: Fields, siblings: Fields, fuel: nat)
    requires fuel > 0 && KnownRef(defs, siblings) == Some(key) && Lookup(defs, key) == Some(Obj(own))
    requires LeafFields(defs, own) && LeafSiblings(defs, siblings)
    ensures Resolve(defs, Obj(siblings), fuel).Done?
    ensures (forall w :: SameMeaning(w, defs, Obj(siblings), Resolve(defs, Obj(siblings), fuel).value, fuel))
            <==> forall k :: !Clash(own, siblings, k)
  {
    hide Clash, SameMeaning, Agreeing, LeafSiblings;
    LeafIsFree(defs, own);
    FreeIsKept(defs, Obj(own), fuel - 1);
    LeafOverride(defs, own, siblings, fuel, "title");
    var out := Resolve(defs, Obj(siblings), fuel).value;
    if k :| Clash(own, siblings, k) {
      ClashShows(defs, key, own, siblings, fuel, k);
    } else {
      NoClashAgrees(defs, own, siblings);
      LeafIsPlain(defs, own, fuel - 1);
      assert Plain(defs, Obj(siblings), fuel);
      forall w ensures SameMeaning(w, defs, Obj(siblings), out, fuel) { KeptForAll(w, defs, Obj(siblings), fuel); }
    }
  }

  lemma KeptForAll(w: World, defs: Fields, node: Json, fuel: nat)
    requires Plain(defs, node, fuel) && Resolve(defs, node, fuel).Done?
    ensures SameMeaning(w, defs, node, Resolve(defs, node, fuel).value, fuel)
  {
    hide Valid, Resolve, Plain;
    forall inst ensures Valid(w, defs, node, inst, fuel) <==> Valid(w, End, Resolve(defs, node, fuel).value, inst, 0) {
      MeaningKept(w, defs, node, inst, fuel);
    }
  }

  lemma ClashShows(defs: Fields, key: string, own: Fields, siblings: Fields, fuel: nat, k: string)
    requires fuel > 0 && KnownRef(defs, siblings) == Some(key) && Lookup(defs, key) == Some(Obj(own))
    requires LeafFields(defs, own) && LeafSiblings(defs, siblings) && Clash(own, siblings, k)
    requires Resolve(defs, Obj(siblings), fuel) == Override(defs, Obj(own), siblings, fuel)
    ensures Resolve(defs, Obj(siblings), fuel).Done?
    ensures !SameMeaning(Against(k, Lookup(own, k).value), defs, Obj(siblings), Resolve(defs, Obj(siblings), fuel).value, fuel)
  {
    hide Resolve, Override, LeafSiblings, Keyword, IsAssertion, AllKeywords, KnownFree, KnownFreeFields, LeafFields;
    NotStructure(k);
    KnownRefIs(defs, siblings);
    var w := Against(k, Lookup(own, k).value);
    LeafOverride(defs, own, siblings, fuel, k);
    var out := Override(defs, Obj(own), siblings, fuel).value.fields;
    LeafIsFree(defs, own);
    LeafIsFree(defs, out);
    LeafAgainst(defs, defs, own, Named(own), k, Lookup(own, k).value, Null, fuel - 1);
    LeafAgainst(defs, End, out, Named(out), k, Lookup(own, k).value, Null, 0);
    assert !Valid(w, defs, Obj(own), Null, fuel - 1);
    assert !Valid(w, defs, Obj(siblings), Null, fuel);
    assert Valid(w, End, Obj(out), Null, 0);
  }

  lemma OneSegment(name: string)
    requires '/' !in name
    ensures LastSegment(name) == name
  {
    FindChar(name, '/');
  }

  lemma LookupOne(key: string, value: Json, k: string)
    ensures Lookup(Field(key, value, End), k) == if k == key then Some(value) else None
  {
  }

  // One keyword beside a reference to a definition with that keyword alone.
  lemma SiblingInlined(name: string, key: string, own: Json, other: Json)
    requires '/' !in name && key != "$ref" && !own.Arr? && !own.Obj? && !other.Arr? && !other.Obj?
    ensures var defs := Field(name, Obj(Field(key, own, End)), End);
            var fields := Field("$ref", Str(name), Field(key, other, End));
            KnownRef(defs, fields) == Some(name) && Resolve(defs, Obj(fields), 1) == Done(Obj(Field(key, other, End)))
  {
    hide LastSegment;
    var defs, mine := Field(name, Obj(Field(key, own, End)), End), Field(key, own, End);
    var sibling := Field(key, other, End);
    OneSegment(name);
    assert KnownFreeFields(defs, mine);
    LookupOne(key, own, "$ref");
    FreeIsKept(defs, Obj(mine), 0);
    assert SetKey(mine, key, other) == sibling;
    assert Override(defs, Obj(mine), sibling, 1) == Override(defs, Obj(sibling), End, 1);
  }

  // {"$ref": name, "minimum": low} with name = {"minimum": high} accepts low once inlined.
  lemma OverwrittenAssertion(w: World, name: string, low: int, high: int)
    requires forall v, i :: w.leaf("minimum", v, i) <==> (v.Num? && i.Num? ==> v.n <= i.n)
    requires '/' !in name && low < high
    ensures var defs := Field(name, Obj(Field("minimum", Num(high), End)), End);
            var node := Obj(Field("$ref", Str(name), Field("minimum", Num(low), End)));
            && Resolve(defs, node, 1).Done? && !Valid(w, defs, node, Num(low), 1)
            && Valid(w, End, Resolve(defs, node, 1).value, Num(low), 0)
  {
    hide Resolve, KnownRef;
    var defs := Field(name, Obj(Field("minimum", Num(high), End)), End);
    var fields := Field("$ref", Str(name), Field("minimum", Num(low), End));
    SiblingInlined(name, "minimum", Num(high), Num(low));
    OneAssertion(w, End, "minimum", Num(low), Num(low), 0);
    OneAssertion(w, defs, "minimum", Num(high), Num(low), 0);
    assert Lookup(fields, "$ref") == Some(Str(name));
  }

  ghost predicate SameMeaning(w: World, defs: Fields, node: Json, out: Json, fuel: nat) {
    forall inst :: Valid(w, defs, node, inst, fuel) <==> Valid(w, End, out, inst, 0)
  }

  // A "const" keeps its meaning exactly when its value holds nothing like a known reference.
  lemma ConstKeptIff(w: World, defs: Fields, v: Json, fuel: nat)
    requires AllObjects(defs) && Resolve(defs, v, fuel).Done?
    requires forall u, i :: w.leaf("const", u, i) <==> u == i
    ensures Resolve(defs, Obj(Field("const", v, End)), fuel).Done?
    ensures SameMeaning(w, defs, Obj(Field("const", v, End)), Resolve(defs, Obj(Field("const", v, End)), fuel).value, fuel)
            <==> KnownFree(defs, v)
  {
    var out := Resolve(defs, v, fuel).value;
    var one, one' := Field("const", v, End), Field("const", out, End);
    assert Lookup(one, "$ref") == Lookup(End, "$ref");
    assert ResolveFields(defs, one, fuel) == Done(one');
    LiteralKeptIff(defs, v, fuel);
    forall inst ensures Valid(w, defs, Obj(one), inst, fuel) <==> v == inst {
      OneAssertion(w, defs, "const", v, inst, fuel);
    }
    forall inst ensures Valid(w, End, Obj(one'), inst, 0) <==> out == inst {
      OneAssertion(w, End, "const", out, inst, 0);
    }
    if SameMeaning(w, defs, Obj(one), Obj(one'), fuel) {
      assert Valid(w, defs, Obj(one), v, fuel);
    }
    if out == v {
      assert SameMeaning(w, defs, Obj(one), Obj(one'), fuel);
    }
  }

  lemma OneAssertion(w: World, defs: Fields, key: string, v: Json, inst: Json, fuel: nat)
    requires IsAssertion(key)
    ensures Valid(w, defs, Obj(Field(key, v, End)), inst, fuel) <==> w.leaf(key, v, inst)
  {
    var f := Field(key, v, End);
    assert Lookup(f, "$ref") == Lookup(End, "$ref");
    assert AllKeywords(w, defs, f, Named(f), inst, fuel)
           <==> Keyword(w, defs, key, v, Named(f), inst, fuel) && AllKeywords(w, defs, End, Named(f), inst, fuel);
  }
}
