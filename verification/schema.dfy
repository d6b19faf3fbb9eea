// dereference_json_schema: inlining the "$defs" references of a JSON schema.  The inliner is given
// with a bound on nested expansions; it ends, with a result that no longer depends on the bound,
// exactly when no chain of references returns to a definition it has passed.
module SchemaInliner {
  import opened Common
  import opened Text
  import opened Paths

  datatype Json =
    | Null
    | Bool(b: bool)
    | Num(n: int)
    | Str(s: string)
    | Arr(items: Items)
    | Obj(fields: Fields)

  datatype Items = Nil | Item(head: Json, tail: Items)

  // A dict, in insertion order.
  datatype Fields = End | Field(key: string, value: Json, rest: Fields)

  // NoEnd: the bound is used up, Python's recursion error.
  datatype Outcome<+T> = Done(value: T) | TypeError | NoEnd

  function Lookup(fields: Fields, key: string): Option<Json> {
    if fields.End? then None else if fields.key == key then Some(fields.value) else Lookup(fields.rest, key)
  }

  predicate HasKey(fields: Fields, key: string) { Lookup(fields, key).Some? }

  // fields[key] = value
  function SetKey(fields: Fields, key: string, value: Json): Fields {
    if fields.End? then Field(key, value, End)
    else if fields.key == key then Field(key, value, fields.rest)
    else Field(fields.key, fields.value, SetKey(fields.rest, key, value))
  }

  function RemoveKey(fields: Fields, key: string): Fields {
    if fields.End? then End
    else if fields.key == key then RemoveKey(fields.rest, key)
    else Field(fields.key, fields.value, RemoveKey(fields.rest, key))
  }

  // What follows the last slash.
  function LastSegment(s: string): string { var parts := Split(s); parts[|parts| - 1] }

  // The definition that an object's "$ref" names, if there is one.
  function KnownRef(defs: Fields, fields: Fields): (key: Option<string>)
    ensures key.Some? ==> HasKey(defs, key.value)
  {
    var ref := Lookup(fields, "$ref");
    if ref.Some? && ref.value.Str? && HasKey(defs, LastSegment(ref.value.s)) then Some(LastSegment(ref.value.s)) else None
  }

  // ---------- _resolve ----------

  function Resolve(defs: Fields, node: Json, fuel: nat): Outcome<Json>
    decreases fuel, node
  {
    match node
    case Arr(items) =>
      (match ResolveItems(defs, items, fuel)
       case Done(items') => Done(Arr(items'))
       case TypeError => TypeError
       case NoEnd => NoEnd)
    case Obj(fields) =>
      var known := KnownRef(defs, fields);
      if known.None? then
        match ResolveFields(defs, fields, fuel)
        case Done(fields') => Done(Obj(fields'))
        case TypeError => TypeError
        case NoEnd => NoEnd
      else if fuel == 0 then NoEnd
      else
        var base := Resolve(defs, Lookup(defs, known.value).value, fuel - 1);
        if base.Done? then Override(defs, base.value, fields, fuel) else base
    case _ => Done(node)
  }

  function ResolveItems(defs: Fields, items: Items, fuel: nat): Outcome<Items>
    decreases fuel, items
  {
    if items.Nil? then Done(Nil)
    else
      match Resolve(defs, items.head, fuel)
      case TypeError => TypeError
      case NoEnd => NoEnd
      case Done(head) =>
        match ResolveItems(defs, items.tail, fuel)
        case Done(tail) => Done(Item(head, tail))
        case TypeError => TypeError
        case NoEnd => NoEnd
  }

  function ResolveFields(defs: Fields, fields: Fields, fuel: nat): Outcome<Fields>
    decreases fuel, fields
  {
    if fields.End? then Done(End)
    else
      match Resolve(defs, fields.value, fuel)
      case TypeError => TypeError
      case NoEnd => NoEnd
      case Done(value) =>
        match ResolveFields(defs, fields.rest, fuel)
        case Done(rest) => Done(Field(fields.key, value, rest))
        case TypeError => TypeError
        case NoEnd => NoEnd
  }

  // The siblings of a "$ref" overwrite the fields of the inlined definition.
  function Override(defs: Fields, base: Json, fields: Fields, fuel: nat): Outcome<Json>
    decreases fuel, fields
  {
    if fields.End? then Done(base)
    else if fields.key == "$ref" then Override(defs, base, fields.rest, fuel)
    else
      var v := Resolve(defs, fields.value, fuel);
      if !v.Done? then v
      else if !base.Obj? then TypeError
      else Override(defs, Obj(SetKey(base.fields, fields.key, v.value)), fields.rest, fuel)
  }

  // The schema without its top-level "$defs", and those definitions.
  function DefsOf(schema: Fields): Fields {
    var defs := Lookup(schema, "$defs");
    if defs.Some? && defs.value.Obj? then defs.value.fields else End
  }

  function Dereference(schema: Fields, fuel: nat): Outcome<Json> {
    Resolve(DefsOf(schema), Obj(RemoveKey(schema, "$defs")), fuel)
  }

  // The code's recursion: comprehensions over lists and dicts, and a loop that overwrites fields.
  method ResolveNode(defs: Fields, node: Json, fuel: nat) returns (r: Outcome<Json>)
    ensures r == Resolve(defs, node, fuel)
    decreases fuel, node, 1
  {
    match node {
      case Arr(items) =>
        var items' := ResolveList(defs, items, fuel);
        r := match items' case Done(v) => Done(Arr(v)) case TypeError => TypeError case NoEnd => NoEnd;
      case Obj(fields) =>
        var known := KnownRef(defs, fields);
        if known.None? {
          var fields' := ResolveDict(defs, fields, fuel);
          r := match fields' case Done(v) => Done(Obj(v)) case TypeError => TypeError case NoEnd => NoEnd;
        } else if fuel == 0 {
          r := NoEnd;
        } else {
          r := ResolveNode(defs, Lookup(defs, known.value).value, fuel - 1);
          var todo := fields;
          while r.Done? && todo.Field?
            invariant todo == fields || todo < fields
            invariant Resolve(defs, node, fuel) == if r.Done? then Override(defs, r.value, todo, fuel) else r
            decreases r.Done?, todo
          {
            if todo.key != "$ref" {
              var v := ResolveNode(defs, todo.value, fuel);
              r := if !v.Done? then v
                   else if r.value.Obj? then Done(Obj(SetKey(r.value.fields, todo.key, v.value)))
                   else TypeError;
            }
            todo := todo.rest;
          }
        }
      case _ =>
        r := Done(node);
    }
  }

  method ResolveList(defs: Fields, items: Items, fuel: nat) returns (r: Outcome<Items>)
    ensures r == ResolveItems(defs, items, fuel)
    decreases fuel, items, 0
  {
    if items.Nil? {
      return Done(Nil);
    }
    var head := ResolveNode(defs, items.head, fuel);
    if !head.Done? {
      return if head.TypeError? then TypeError else NoEnd;
    }
    var tail := ResolveList(defs, items.tail, fuel);
    r := match tail case Done(v) => Done(Item(head.value, v)) case TypeError => TypeError case NoEnd => NoEnd;
  }

  method ResolveDict(defs: Fields, fields: Fields, fuel: nat) returns (r: Outcome<Fields>)
    ensures r == ResolveFields(defs, fields, fuel)
    decreases fuel, fields, 0
  {
    if fields.End? {
      return Done(End);
    }
    var value := ResolveNode(defs, fields.value, fuel);
    if !value.Done? {
      return if value.TypeError? then TypeError else NoEnd;
    }
    var rest := ResolveDict(defs, fields.rest, fuel);
    r := match rest case Done(v) => Done(Field(fields.key, value.value, v)) case TypeError => TypeError case NoEnd => NoEnd;
  }

  // ---------- which definition a reference names ----------

  // The definition that a reference ends with, after its last slash.
  function Referred(defs: Fields, ref: string): Option<string> {
    if defs.End? then None
    else if '/' !in defs.key && (ref == defs.key || EndsWith(ref, "/" + defs.key)) then Some(defs.key)
    else Referred(defs.rest, ref)
  }

  lemma EndsWithSegment(ref: string, key: string)
    ensures '/' !in key && (ref == key || EndsWith(ref, "/" + key)) <==> key == LastSegment(ref)
  {
    if '/' !in key {
      if ref == key { SplitPlain(key); }
      if EndsWith(ref, "/" + key) { LastAfterSlash(ref[..|ref| - |key| - 1], ref, key); }
    }
    SegmentEnds(ref);
  }

  lemma LastAfterSlash(p: string, ref: string, key: string)
    requires '/' !in key && |ref| > |key| && p == ref[..|ref| - |key| - 1] && EndsWith(ref, "/" + key)
    ensures LastSegment(ref) == key
  {
    hide LastSegment;
    assert ref == p + "/" + key;
    LastIs(p, key);
  }

  lemma LastIs(p: string, name: string)
    requires '/' !in name
    ensures LastSegment(p + "/" + name) == name
  {
    hide Split;
    SplitLast(p, name);
  }

  lemma LastOfRest(ref: string, k: nat)
    requires Find(ref, "/") == Some(k)
    ensures k < |ref| && ref[k] == '/' && LastSegment(ref) == LastSegment(ref[k + 1..])
  {
    hide Find, Split;
    FindChar(ref, '/');
    SplitCut(ref, k);
  }

  lemma {:induction false} SegmentEnds(ref: string)
    ensures var last := LastSegment(ref); '/' !in last && (ref == last || EndsWith(ref, "/" + last))
    decreases |ref|
  {
    hide Find, LastSegment;
    var cut := Find(ref, "/");
    if cut.None? {
      FindChar(ref, '/');
      SplitPlain(ref);
      OnlySegment(ref);
    } else {
      var rest := ref[cut.value + 1..];
      LastOfRest(ref, cut.value);
      SegmentEnds(rest);
      SlashBefore(ref, cut.value, LastSegment(rest));
    }
  }

  lemma OnlySegment(ref: string)
    requires Split(ref) == [ref]
    ensures LastSegment(ref) == ref
  {
    hide Split;
  }

  lemma SlashBefore(ref: string, k: nat, last: string)
    requires k < |ref| && ref[k] == '/' && (ref[k + 1..] == last || EndsWith(ref[k + 1..], "/" + last))
    ensures EndsWith(ref, "/" + last)
  {
    var rest := ref[k + 1..];
    if rest == last {
      assert ref[k..] == "/" + last;
    } else {
      assert ref[|ref| - |last| - 1..] == rest[|rest| - |last| - 1..];
    }
  }

  lemma {:induction false} ReferredLast(defs: Fields, ref: string)
    ensures Referred(defs, ref) == if HasKey(defs, LastSegment(ref)) then Some(LastSegment(ref)) else None
  {
    if defs.Field? {
      EndsWithSegment(ref, defs.key);
      ReferredLast(defs.rest, ref);
    }
  }

  // "$ref" names the definition that its text ends with, and nothing when there is none.
  lemma KnownRefIs(defs: Fields, fields: Fields)
    ensures KnownRef(defs, fields)
            == var ref := Lookup(fields, "$ref");
               if ref.Some? && ref.value.Str? then Referred(defs, ref.value.s) else None
  {
    hide LastSegment;
    var ref := Lookup(fields, "$ref");
    if ref.Some? && ref.value.Str? { ReferredLast(defs, ref.value.s); }
  }

  // A pointer into "$defs", or any other text that ends with the name, is a reference to it.
  lemma PointerNames(defs: Fields, p: string, name: string, siblings: Fields)
    requires '/' !in name && HasKey(defs, name)
    ensures KnownRef(defs, Field("$ref", Str(p + "/" + name), siblings)) == Some(name)
    ensures KnownRef(defs, Field("$ref", Str("#/$defs/" + name), siblings)) == Some(name)
  {
    hide LastSegment;
    LastIs(p, name);
    LastIs("#/$defs", name);
    assert "#/$defs" + "/" == "#/$defs/";
  }

  // A field set by the siblings, or else the definition's.
  lemma {:induction false} OverriddenKeys(defs: Fields, base: Json, fields: Fields, fuel: nat, key: string)
    requires base.Obj? && UniqueKeys(fields) && Override(defs, base, fields, fuel).Done? && key != "$ref"
    ensures var out := Override(defs, base, fields, fuel).value;
            && out.Obj?
            && (HasKey(fields, key) ==>
                  HasKey(out.fields, key)
                  && Resolve(defs, Lookup(fields, key).value, fuel) == Done(Lookup(out.fields, key).value))
            && (!HasKey(fields, key) ==> Lookup(out.fields, key) == Lookup(base.fields, key))
    decreases fields
  {
    hide Resolve;
    if fields.Field? {
      if fields.key == "$ref" {
        OverriddenKeys(defs, base, fields.rest, fuel, key);
      } else {
        var v := Resolve(defs, fields.value, fuel).value;
        LookupSetKey(base.fields, fields.key, v, key);
        OverriddenKeys(defs, Obj(SetKey(base.fields, fields.key, v)), fields.rest, fuel, key);
      }
    }
  }

  predicate UniqueKeys(fields: Fields) { fields.End? || (!HasKey(fields.rest, fields.key) && UniqueKeys(fields.rest)) }

  // So a pointer to an object definition becomes that definition, resolved, with the pointer's
  // siblings, resolved, in the place of its fields of the same names.
  lemma PointerInlined(defs: Fields, name: string, siblings: Fields, fuel: nat, key: string)
    requires '/' !in name && HasKey(defs, name) && UniqueKeys(siblings) && !HasKey(siblings, "$ref") && key != "$ref"
    requires Resolve(defs, Obj(Field("$ref", Str("#/$defs/" + name), siblings)), fuel).Done?
    ensures fuel > 0 && Resolve(defs, Lookup(defs, name).value, fuel - 1).Done?
    ensures var out := Resolve(defs, Obj(Field("$ref", Str("#/$defs/" + name), siblings)), fuel).value;
            var base := Resolve(defs, Lookup(defs, name).value, fuel - 1).value;
            && (siblings.End? ==> out == base)
            && (base.Obj? ==>
                  && out.Obj?
                  && (HasKey(siblings, key) ==>
                        HasKey(out.fields, key)
                        && Resolve(defs, Lookup(siblings, key).value, fuel) == Done(Lookup(out.fields, key).value))
                  && (!HasKey(siblings, key) ==> Lookup(out.fields, key) == Lookup(base.fields, key)))
  {
    hide KnownRef;
    PointerNames(defs, "", name, siblings);
    var fields := Field("$ref", Str("#/$defs/" + name), siblings);
    var base := Resolve(defs, Lookup(defs, name).value, fuel - 1);
    assert Resolve(defs, Obj(fields), fuel) == Override(defs, base.value, fields, fuel);
    assert Override(defs, base.value, fields, fuel) == Override(defs, base.value, siblings, fuel);
    if base.value.Obj? { OverriddenKeys(defs, base.value, fields, fuel, key); }
  }

  // Without a known reference an object keeps its keys and a list its length, all values resolved.
  lemma {:induction false} ItemsInlined(defs: Fields, items: Items, fuel: nat, i: nat)
    requires ResolveItems(defs, items, fuel).Done?
    ensures Length(ResolveItems(defs, items, fuel).value) == Length(items)
    ensures i < Length(items) ==>
              Resolve(defs, Nth(items, i), fuel) == Done(Nth(ResolveItems(defs, items, fuel).value, i))
    decreases items
  {
    hide Resolve;
    if items.Item? { ItemsInlined(defs, items.tail, fuel, if i == 0 then 0 else i - 1); }
  }

  function Length(items: Items): nat { if items.Nil? then 0 else 1 + Length(items.tail) }

  function Nth(items: Items, i: nat): Json
    requires i < Length(items)
  {
    if i == 0 then items.head else Nth(items.tail, i - 1)
  }

  // Taking "$defs" off a schema.
  lemma {:induction false} DefsTaken(defs: Fields, rest: Fields)
    requires !HasKey(rest, "$defs")
    ensures DefsOf(SetKey(rest, "$defs", Obj(defs))) == defs && RemoveKey(SetKey(rest, "$defs", Obj(defs)), "$defs") == rest
    ensures DefsOf(rest) == End && RemoveKey(rest, "$defs") == rest
  {
    if rest.Field? { DefsTaken(defs, rest.rest); }
  }

  // ---------- the bound does not matter ----------

  lemma {:induction false} MoreFuel(defs: Fields, node: Json, fuel: nat, more: nat)
    requires fuel <= more && !Resolve(defs, node, fuel).NoEnd?
    ensures Resolve(defs, node, more) == Resolve(defs, node, fuel)
    decreases fuel, node
  {
    match node
    case Arr(items) => MoreFuelItems(defs, items, fuel, more);
    case Obj(fields) =>
      var known := KnownRef(defs, fields);
      if known.None? {
        MoreFuelFields(defs, fields, fuel, more);
      } else {
        var d := Lookup(defs, known.value).value;
        MoreFuel(defs, d, fuel - 1, more - 1);
        if Resolve(defs, d, fuel - 1).Done? {
          MoreFuelOverride(defs, Resolve(defs, d, fuel - 1).value, fields, fuel, more);
        }
      }
    case _ =>
  }

  lemma {:induction false} MoreFuelItems(defs: Fields, items: Items, fuel: nat, more: nat)
    requires fuel <= more && !ResolveItems(defs, items, fuel).NoEnd?
    ensures ResolveItems(defs, items, more) == ResolveItems(defs, items, fuel)
    decreases fuel, items
  {
    if items.Item? {
      MoreFuel(defs, items.head, fuel, more);
      if Resolve(defs, items.head, fuel).Done? { MoreFuelItems(defs, items.tail, fuel, more); }
    }
  }

  lemma {:induction false} MoreFuelFields(defs: Fields, fields: Fields, fuel: nat, more: nat)
    requires fuel <= more && !ResolveFields(defs, fields, fuel).NoEnd?
    ensures ResolveFields(defs, fields, more) == ResolveFields(defs, fields, fuel)
    decreases fuel, fields
  {
    if fields.Field? {
      MoreFuel(defs, fields.value, fuel, more);
      if Resolve(defs, fields.value, fuel).Done? { MoreFuelFields(defs, fields.rest, fuel, more); }
    }
  }

  lemma {:induction false} MoreFuelOverride(defs: Fields, base: Json, fields: Fields, fuel: nat, more: nat)
    requires fuel <= more && !Override(defs, base, fields, fuel).NoEnd?
    ensures Override(defs, base, fields, more) == Override(defs, base, fields, fuel)
    decreases fuel, fields
  {
    if fields.Field? {
      if fields.key == "$ref" {
        MoreFuelOverride(defs, base, fields.rest, fuel, more);
      } else {
        MoreFuel(defs, fields.value, fuel, more);
        var v := Resolve(defs, fields.value, fuel);
        if v.Done? && base.Obj? {
          MoreFuelOverride(defs, Obj(SetKey(base.fields, fields.key, v.value)), fields.rest, fuel, more);
        }
      }
    }
  }

  // ---------- chains of references ----------

  // The definitions that a node refers to directly.
  function Refs(defs: Fields, node: Json): (keys: set<string>)
    ensures forall k :: k in keys ==> HasKey(defs, k)
    decreases node
  {
    match node
    case Arr(items) => RefsItems(defs, items)
    case Obj(fields) =>
      var known := KnownRef(defs, fields);
      if known.Some? then {known.value} + RefsFields(defs, fields, true) else RefsFields(defs, fields, false)
    case _ => {}
  }

  function RefsItems(defs: Fields, items: Items): (keys: set<string>)
    ensures forall k :: k in keys ==> HasKey(defs, k)
    decreases items
  {
    if items.Nil? then {} else Refs(defs, items.head) + RefsItems(defs, items.tail)
  }

  // siblings: without what stands under "$ref".
  function RefsFields(defs: Fields, fields: Fields, siblings: bool): (keys: set<string>)
    ensures forall k :: k in keys ==> HasKey(defs, k)
    decreases fields
  {
    if fields.End? then {}
    else (if siblings && fields.key == "$ref" then {} else Refs(defs, fields.value)) + RefsFields(defs, fields.rest, siblings)
  }

  function Def(defs: Fields, key: string): Json {
    if HasKey(defs, key) then Lookup(defs, key).value else Null
  }

  // Definitions passed one after the other, from a node on.
  ghost predicate RefPath(defs: Fields, node: Json, p: seq<string>) {
    (p != [] ==> p[0] in Refs(defs, node)) && forall i :: 0 < i < |p| ==> p[i] in Refs(defs, Def(defs, p[i - 1]))
  }

  ghost predicate Acyclic(defs: Fields, node: Json) {
    forall p {:trigger RefPath(defs, node, p)} :: RefPath(defs, node, p) ==> NoDuplicates(p)
  }

  // What a finished node refers to is finished with less fuel.
  lemma {:induction false} DoneRefs(defs: Fields, node: Json, fuel: nat, key: string)
    requires Resolve(defs, node, fuel).Done? && key in Refs(defs, node)
    ensures fuel > 0 && Resolve(defs, Def(defs, key), fuel - 1).Done?
    decreases node
  {
    match node
    case Arr(items) => DoneRefsItems(defs, items, fuel, key);
    case Obj(fields) =>
      var known := KnownRef(defs, fields);
      if known.None? {
        DoneRefsFields(defs, fields, fuel, key);
      } else if key != known.value {
        DoneRefsOverride(defs, Resolve(defs, Def(defs, known.value), fuel - 1).value, fields, fuel, key);
      }
    case _ =>
  }

  lemma {:induction false} DoneRefsItems(defs: Fields, items: Items, fuel: nat, key: string)
    requires ResolveItems(defs, items, fuel).Done? && key in RefsItems(defs, items)
    ensures fuel > 0 && Resolve(defs, Def(defs, key), fuel - 1).Done?
    decreases items
  {
    if key in Refs(defs, items.head) {
      DoneRefs(defs, items.head, fuel, key);
    } else {
      DoneRefsItems(defs, items.tail, fuel, key);
    }
  }

  lemma {:induction false} DoneRefsFields(defs: Fields, fields: Fields, fuel: nat, key: string)
    requires ResolveFields(defs, fields, fuel).Done? && key in RefsFields(defs, fields, false)
    ensures fuel > 0 && Resolve(defs, Def(defs, key), fuel - 1).Done?
    decreases fields
  {
    if key in Refs(defs, fields.value) {
      DoneRefs(defs, fields.value, fuel, key);
    } else {
      DoneRefsFields(defs, fields.rest, fuel, key);
    }
  }

  lemma {:induction false} DoneRefsOverride(defs: Fields, base: Json, fields: Fields, fuel: nat, key: string)
    requires Override(defs, base, fields, fuel).Done? && key in RefsFields(defs, fields, true)
    ensures fuel > 0 && Resolve(defs, Def(defs, key), fuel - 1).Done?
    decreases fields
  {
    if fields.key == "$ref" {
      DoneRefsOverride(defs, base, fields.rest, fuel, key);
    } else if key in Refs(defs, fields.value) {
      DoneRefs(defs, fields.value, fuel, key);
    } else {
      DoneRefsOverride(defs, Obj(SetKey(base.fields, fields.key, Resolve(defs, fields.value, fuel).value)),
                       fields.rest, fuel, key);
    }
  }

  lemma {:induction false} DoneBoundsPaths(defs: Fields, node: Json, fuel: nat, p: seq<string>)
    requires Resolve(defs, node, fuel).Done? && RefPath(defs, node, p)
    ensures |p| <= fuel
    decreases fuel
  {
    if p != [] {
      DoneRefs(defs, node, fuel, p[0]);
      DoneBoundsPaths(defs, Def(defs, p[0]), fuel - 1, p[1..]);
    }
  }

  // A node that does not finish refers to one that does not finish with less fuel.
  lemma {:induction false} StuckRef(defs: Fields, node: Json, fuel: nat) returns (key: string)
    requires Resolve(defs, node, fuel).NoEnd?
    ensures key in Refs(defs, node) && (fuel > 0 ==> Resolve(defs, Def(defs, key), fuel - 1).NoEnd?)
    decreases node
  {
    match node
    case Arr(items) => key := StuckRefItems(defs, items, fuel);
    case Obj(fields) =>
      var known := KnownRef(defs, fields);
      if known.None? {
        key := StuckRefFields(defs, fields, fuel);
      } else if fuel == 0 || Resolve(defs, Def(defs, known.value), fuel - 1).NoEnd? {
        key := known.value;
      } else {
        key := StuckRefOverride(defs, Resolve(defs, Def(defs, known.value), fuel - 1).value, fields, fuel);
      }
  }

  lemma {:induction false} StuckRefItems(defs: Fields, items: Items, fuel: nat) returns (key: string)
    requires ResolveItems(defs, items, fuel).NoEnd?
    ensures key in RefsItems(defs, items) && (fuel > 0 ==> Resolve(defs, Def(defs, key), fuel - 1).NoEnd?)
    decreases items
  {
    if Resolve(defs, items.head, fuel).NoEnd? {
      key := StuckRef(defs, items.head, fuel);
    } else {
      key := StuckRefItems(defs, items.tail, fuel);
    }
  }

  lemma {:induction false} StuckRefFields(defs: Fields, fields: Fields, fuel: nat) returns (key: string)
    requires ResolveFields(defs, fields, fuel).NoEnd?
    ensures key in RefsFields(defs, fields, false) && (fuel > 0 ==> Resolve(defs, Def(defs, key), fuel - 1).NoEnd?)
    decreases fields
  {
    if Resolve(defs, fields.value, fuel).NoEnd? {
      key := StuckRef(defs, fields.value, fuel);
    } else {
      key := StuckRefFields(defs, fields.rest, fuel);
    }
  }

  lemma {:induction false} StuckRefOverride(defs: Fields, base: Json, fields: Fields, fuel: nat) returns (key: string)
    requires Override(defs, base, fields, fuel).NoEnd?
    ensures key in RefsFields(defs, fields, true) && (fuel > 0 ==> Resolve(defs, Def(defs, key), fuel - 1).NoEnd?)
    decreases fields
  {
    if fields.key == "$ref" {
      key := StuckRefOverride(defs, base, fields.rest, fuel);
    } else if Resolve(defs, fields.value, fuel).NoEnd? {
      key := StuckRef(defs, fields.value, fuel);
    } else {
      key := StuckRefOverride(defs, Obj(SetKey(base.fields, fields.key, Resolve(defs, fields.value, fuel).value)),
                              fields.rest, fuel);
    }
  }

  lemma {:induction false} StuckPath(defs: Fields, node: Json, fuel: nat) returns (p: seq<string>)
    requires Resolve(defs, node, fuel).NoEnd?
    ensures RefPath(defs, node, p) && |p| == fuel + 1
    decreases fuel
  {
    var key := StuckRef(defs, node, fuel);
    if fuel == 0 {
      p := [key];
    } else {
      var rest := StuckPath(defs, Def(defs, key), fuel - 1);
      p := [key] + rest;
    }
  }

  // ---------- it ends exactly without cycles ----------

  function KeySet(defs: Fields): (keys: set<string>)
    ensures |keys| <= Count(defs) && forall k :: k in keys <==> HasKey(defs, k)
  {
    if defs.End? then {} else {defs.key} + KeySet(defs.rest)
  }

  function Count(fields: Fields): nat { if fields.End? then 0 else 1 + Count(fields.rest) }

  lemma {:induction false} Pigeonhole(p: seq<string>, keys: set<string>)
    requires NoDuplicates(p) && forall i :: 0 <= i < |p| ==> p[i] in keys
    ensures |p| <= |keys|
  {
    if p != [] {
      var n := |p| - 1;
      Pigeonhole(p[..n], keys - {p[n]});
    }
  }

  // Going round a cycle gives paths of any length.
  lemma {:induction false} Pump(defs: Fields, node: Json, p: seq<string>, i: nat, j: nat, n: nat) returns (q: seq<string>)
    requires RefPath(defs, node, p) && i < j < |p| && p[i] == p[j]
    ensures RefPath(defs, node, q) && |q| > n
    decreases n - |p|
  {
    if |p| > n {
      q := p;
    } else {
      var longer := p[..j] + p[i..];
      forall k | 0 < k < |longer| ensures longer[k] in Refs(defs, Def(defs, longer[k - 1])) {
        if k > j { assert longer[k] == p[k - j + i] && longer[k - 1] == p[k - 1 - j + i]; }
      }
      assert longer[0] == p[0];
      assert longer[j] == p[i] && longer[i] == p[i];
      q := Pump(defs, node, longer, i, j, n);
    }
  }

  predicate AllObjects(defs: Fields) { defs.End? || (defs.value.Obj? && AllObjects(defs.rest)) }

  // Inlining ends exactly when no reachable chain of references passes a definition twice; then as
  // many nested expansions as there are definitions suffice.
  lemma EndsIffAcyclic(defs: Fields, node: Json)
    ensures Acyclic(defs, node) ==> forall fuel :: fuel >= Count(defs) ==> !Resolve(defs, node, fuel).NoEnd?
    ensures !Acyclic(defs, node) ==> forall fuel :: !Resolve(defs, node, fuel).Done?
  {
    if Acyclic(defs, node) {
      forall fuel: nat | fuel >= Count(defs) ensures !Resolve(defs, node, fuel).NoEnd? {
        if Resolve(defs, node, fuel).NoEnd? {
          var p := StuckPath(defs, node, fuel);
          forall i | 0 <= i < |p| ensures p[i] in KeySet(defs) {
            assert i > 0 ==> p[i] in Refs(defs, Def(defs, p[i - 1]));
          }
          Pigeonhole(p, KeySet(defs));
        }
      }
    } else {
      var p :| RefPath(defs, node, p) && !NoDuplicates(p);
      var i, j :| 0 <= i < j < |p| && p[i] == p[j];
      forall fuel: nat ensures !Resolve(defs, node, fuel).Done? {
        if Resolve(defs, node, fuel).Done? {
          var q := Pump(defs, node, p, i, j, fuel);
          DoneBoundsPaths(defs, node, fuel, q);
        }
      }
    }
  }

  lemma {:induction false} ObjectDefs(defs: Fields, key: string)
    requires AllObjects(defs) && HasKey(defs, key)
    ensures Lookup(defs, key).value.Obj?
  {
    if defs.key != key { ObjectDefs(defs.rest, key); }
  }

  // When every definition is an object, overwriting never meets anything else.
  lemma {:induction false} NoTypeError(defs: Fields, node: Json, fuel: nat)
    requires AllObjects(defs)
    ensures !Resolve(defs, node, fuel).TypeError?
    ensures node.Obj? && Resolve(defs, node, fuel).Done? ==> Resolve(defs, node, fuel).value.Obj?
    decreases fuel, node
  {
    match node
    case Arr(items) => NoTypeErrorItems(defs, items, fuel);
    case Obj(fields) =>
      var known := KnownRef(defs, fields);
      if known.None? {
        NoTypeErrorFields(defs, fields, fuel);
      } else if fuel > 0 {
        var d := Lookup(defs, known.value).value;
        ObjectDefs(defs, known.value);
        NoTypeError(defs, d, fuel - 1);
        if Resolve(defs, d, fuel - 1).Done? {
          NoTypeErrorOverride(defs, Resolve(defs, d, fuel - 1).value, fields, fuel);
        }
      }
    case _ =>
  }

  lemma {:induction false} NoTypeErrorItems(defs: Fields, items: Items, fuel: nat)
    requires AllObjects(defs)
    ensures !ResolveItems(defs, items, fuel).TypeError?
    decreases fuel, items
  {
    if items.Item? {
      NoTypeError(defs, items.head, fuel);
      NoTypeErrorItems(defs, items.tail, fuel);
    }
  }

  lemma {:induction false} NoTypeErrorFields(defs: Fields, fields: Fields, fuel: nat)
    requires AllObjects(defs)
    ensures !ResolveFields(defs, fields, fuel).TypeError?
    decreases fuel, fields
  {
    if fields.Field? {
      NoTypeError(defs, fields.value, fuel);
      NoTypeErrorFields(defs, fields.rest, fuel);
    }
  }

  lemma {:induction false} NoTypeErrorOverride(defs: Fields, base: Json, fields: Fields, fuel: nat)
    requires AllObjects(defs) && base.Obj?
    ensures !Override(defs, base, fields, fuel).TypeError?
    ensures Override(defs, base, fields, fuel).Done? ==> Override(defs, base, fields, fuel).value.Obj?
    decreases fuel, fields
  {
    if fields.Field? {
      if fields.key == "$ref" {
        NoTypeErrorOverride(defs, base, fields.rest, fuel);
      } else {
        NoTypeError(defs, fields.value, fuel);
        var v := Resolve(defs, fields.value, fuel);
        if v.Done? {
          NoTypeErrorOverride(defs, Obj(SetKey(base.fields, fields.key, v.value)), fields.rest, fuel);
        }
      }
    }
  }

  // So with object definitions a schema is inlined exactly when its references are acyclic, and
  // otherwise no bound is enough.
  lemma InlinedIffAcyclic(schema: Fields, fuel: nat)
    requires AllObjects(DefsOf(schema)) && fuel >= Count(DefsOf(schema))
    ensures Dereference(schema, fuel).Done? <==> Acyclic(DefsOf(schema), Obj(RemoveKey(schema, "$defs")))
    ensures Dereference(schema, fuel).Done? ==> forall more :: more >= fuel ==> Dereference(schema, more) == Dereference(schema, fuel)
    ensures !Dereference(schema, fuel).Done? ==> forall more: nat :: Dereference(schema, more).NoEnd?
  {
    var defs, node := DefsOf(schema), Obj(RemoveKey(schema, "$defs"));
    EndsIffAcyclic(defs, node);
    NoTypeError(defs, node, fuel);
    forall more: nat ensures !Resolve(defs, node, more).TypeError? {
      NoTypeError(defs, node, more);
    }
    if Dereference(schema, fuel).Done? {
      forall more | more >= fuel ensures Dereference(schema, more) == Dereference(schema, fuel) {
        MoreFuel(defs, node, fuel, more);
      }
    }
  }

  // ---------- no known reference is left ----------

  predicate KnownFree(defs: Fields, node: Json)
    decreases node
  {
    match node
    case Arr(items) => KnownFreeItems(defs, items)
    case Obj(fields) => KnownRef(defs, fields).None? && KnownFreeFields(defs, fields)
    case _ => true
  }

  predicate KnownFreeItems(defs: Fields, items: Items)
    decreases items
  {
    items.Nil? || (KnownFree(defs, items.head) && KnownFreeItems(defs, items.tail))
  }

  predicate KnownFreeFields(defs: Fields, fields: Fields)
    decreases fields
  {
    fields.End? || (KnownFree(defs, fields.value) && KnownFreeFields(defs, fields.rest))
  }

  lemma {:induction false} LookupSetKey(fields: Fields, key: string, value: Json, k: string)
    ensures Lookup(SetKey(fields, key, value), k) == if k == key then Some(value) else Lookup(fields, k)
  {
    if fields.Field? && fields.key != key { LookupSetKey(fields.rest, key, value, k); }
  }

  lemma {:induction false} KnownFreeSetKey(defs: Fields, fields: Fields, key: string, value: Json)
    requires KnownFreeFields(defs, fields) && KnownFree(defs, value)
    ensures KnownFreeFields(defs, SetKey(fields, key, value))
  {
    if fields.Field? && fields.key != key { KnownFreeSetKey(defs, fields.rest, key, value); }
  }

  lemma {:induction false} ResolvedFields(defs: Fields, fields: Fields, fuel: nat, key: string)
    requires ResolveFields(defs, fields, fuel).Done?
    ensures var v, v' := Lookup(fields, key), Lookup(ResolveFields(defs, fields, fuel).value, key);
            && (v.Some? <==> v'.Some?)
            && (v.Some? ==> Resolve(defs, v.value, fuel) == Done(v'.value))
  {
    if fields.Field? && fields.key != key { ResolvedFields(defs, fields.rest, fuel, key); }
  }

  // After inlining, no reference to a known definition is left anywhere.
  lemma {:induction false} NoKnownRefLeft(defs: Fields, node: Json, fuel: nat)
    requires AllObjects(defs) && Resolve(defs, node, fuel).Done?
    ensures KnownFree(defs, Resolve(defs, node, fuel).value)
    decreases fuel, node
  {
    hide AllObjects, Override, LastSegment;
    match node
    case Arr(items) => NoKnownRefLeftItems(defs, items, fuel);
    case Obj(fields) =>
      var known := KnownRef(defs, fields);
      if known.None? {
        NoKnownRefLeftFields(defs, fields, fuel);
        ResolvedFields(defs, fields, fuel, "$ref");
        if HasKey(fields, "$ref") { NoTypeError(defs, Lookup(fields, "$ref").value, fuel); }
      } else {
        var d := Lookup(defs, known.value).value;
        ObjectDefs(defs, known.value);
        NoTypeError(defs, d, fuel - 1);
        NoKnownRefLeft(defs, d, fuel - 1);
        NoKnownRefLeftOverride(defs, Resolve(defs, d, fuel - 1).value, fields, fuel);
      }
    case _ =>
  }

  lemma {:induction false} NoKnownRefLeftItems(defs: Fields, items: Items, fuel: nat)
    requires AllObjects(defs) && ResolveItems(defs, items, fuel).Done?
    ensures KnownFreeItems(defs, ResolveItems(defs, items, fuel).value)
    decreases fuel, items
  {
    if items.Item? {
      NoKnownRefLeft(defs, items.head, fuel);
      NoKnownRefLeftItems(defs, items.tail, fuel);
    }
  }

  lemma {:induction false} NoKnownRefLeftFields(defs: Fields, fields: Fields, fuel: nat)
    requires AllObjects(defs) && ResolveFields(defs, fields, fuel).Done?
    ensures KnownFreeFields(defs, ResolveFields(defs, fields, fuel).value)
    decreases fuel, fields
  {
    if fields.Field? {
      NoKnownRefLeft(defs, fields.value, fuel);
      NoKnownRefLeftFields(defs, fields.rest, fuel);
    }
  }

  lemma {:induction false} NoKnownRefLeftOverride(defs: Fields, base: Json, fields: Fields, fuel: nat)
    requires AllObjects(defs) && Override(defs, base, fields, fuel).Done? && base.Obj? && KnownFree(defs, base)
    ensures KnownFree(defs, Override(defs, base, fields, fuel).value)
    decreases fuel, fields
  {
    if fields.Field? {
      if fields.key == "$ref" {
        NoKnownRefLeftOverride(defs, base, fields.rest, fuel);
      } else {
        var v := Resolve(defs, fields.value, fuel).value;
        NoKnownRefLeft(defs, fields.value, fuel);
        KnownFreeSetKey(defs, base.fields, fields.key, v);
        LookupSetKey(base.fields, fields.key, v, "$ref");
        NoKnownRefLeftOverride(defs, Obj(SetKey(base.fields, fields.key, v)), fields.rest, fuel);
      }
    }
  }

  // Without known references nothing is changed.
  lemma {:induction false} FreeIsKept(defs: Fields, node: Json, fuel: nat)
    requires KnownFree(defs, node)
    ensures Resolve(defs, node, fuel) == Done(node)
    decreases node
  {
    match node
    case Arr(items) => FreeIsKeptItems(defs, items, fuel);
    case Obj(fields) => FreeIsKeptFields(defs, fields, fuel);
    case _ =>
  }

  lemma {:induction false} FreeIsKeptItems(defs: Fields, items: Items, fuel: nat)
    requires KnownFreeItems(defs, items)
    ensures ResolveItems(defs, items, fuel) == Done(items)
    decreases items
  {
    if items.Item? {
      FreeIsKept(defs, items.head, fuel);
      FreeIsKeptItems(defs, items.tail, fuel);
    }
  }

  lemma {:induction false} FreeIsKeptFields(defs: Fields, fields: Fields, fuel: nat)
    requires KnownFreeFields(defs, fields)
    ensures ResolveFields(defs, fields, fuel) == Done(fields)
    decreases fields
  {
    if fields.Field? {
      FreeIsKept(defs, fields.value, fuel);
      FreeIsKeptFields(defs, fields.rest, fuel);
    }
  }

  // Data inside a schema (the value of "const", say) is treated like a schema: it is kept exactly
  // when it holds nothing that looks like a reference to a known definition.
  lemma LiteralKeptIff(defs: Fields, v: Json, fuel: nat)
    requires AllObjects(defs)
    ensures Resolve(defs, v, fuel) == Done(v) <==> KnownFree(defs, v)
  {
    if KnownFree(defs, v) {
      FreeIsKept(defs, v, fuel);
    } else if Resolve(defs, v, fuel) == Done(v) {
      NoKnownRefLeft(defs, v, fuel);
    }
  }

  lemma {:induction false} NothingKnown(node: Json)
    ensures KnownFree(End, node)
    decreases node
  {
    match node
    case Arr(items) => NothingKnownItems(items);
    case Obj(fields) => NothingKnownFields(fields);
    case _ =>
  }

  lemma {:induction false} NothingKnownItems(items: Items)
    ensures KnownFreeItems(End, items)
    decreases items
  {
    if items.Item? {
      NothingKnown(items.head);
      NothingKnownItems(items.tail);
    }
  }

  lemma {:induction false} NothingKnownFields(fields: Fields)
    ensures KnownFreeFields(End, fields)
    decreases fields
  {
    if fields.Field? {
      NothingKnown(fields.value);
      NothingKnownFields(fields.rest);
    }
  }

  lemma {:induction false} LookupRemoveKey(fields: Fields, key: string, k: string)
    ensures Lookup(RemoveKey(fields, key), k) == if k == key then None else Lookup(fields, k)
    ensures !HasKey(fields, key) ==> RemoveKey(fields, key) == fields
  {
    if fields.Field? { LookupRemoveKey(fields.rest, key, k); }
  }

  // Dereferencing a dereferenced schema changes nothing, unless inlining brought a "$defs" of some
  // definition to the top: that one is taken off.
  lemma DereferenceTwice(schema: Fields, fuel: nat, again: nat)
    requires AllObjects(DefsOf(schema)) && Dereference(schema, fuel).Done?
    ensures Dereference(schema, fuel).value.Obj?
    ensures var out := Dereference(schema, fuel).value.fields;
            AllObjects(DefsOf(out)) ==> (Dereference(out, again) == Done(Obj(out)) <==> !HasKey(out, "$defs"))
  {
    NoTypeError(DefsOf(schema), Obj(RemoveKey(schema, "$defs")), fuel);
    var out := Dereference(schema, fuel).value.fields;
    LookupRemoveKey(out, "$defs", "$ref");
    LookupRemoveKey(out, "$defs", "$defs");
    var defs, rest := DefsOf(out), RemoveKey(out, "$defs");
    if !HasKey(out, "$defs") {
      NothingKnown(Obj(out));
      FreeIsKept(End, Obj(out), again);
    } else if AllObjects(defs) && Resolve(defs, Obj(rest), again).Done? {
      NoKnownRefLeft(defs, Obj(rest), again);
      if KnownRef(defs, rest).None? {
        ResolvedFields(defs, rest, again, "$defs");
      }
    }
  }

  // ---------- unknown references survive ----------

  // The reference strings in a node that name no definition.
  function UnknownRefs(defs: Fields, node: Json): set<string>
    decreases node
  {
    match node
    case Arr(items) => UnknownRefsItems(defs, items)
    case Obj(fields) => OwnUnknownRef(defs, fields) + UnknownRefsFields(defs, fields)
    case _ => {}
  }

  function OwnUnknownRef(defs: Fields, fields: Fields): set<string> {
    var ref := Lookup(fields, "$ref");
    if ref.Some? && ref.value.Str? && !HasKey(defs, LastSegment(ref.value.s)) then {ref.value.s} else {}
  }

  function UnknownRefsItems(defs: Fields, items: Items): set<string>
    decreases items
  {
    if items.Nil? then {} else UnknownRefs(defs, items.head) + UnknownRefsItems(defs, items.tail)
  }

  function UnknownRefsFields(defs: Fields, fields: Fields): set<string>
    decreases fields
  {
    if fields.End? then {} else UnknownRefs(defs, fields.value) + UnknownRefsFields(defs, fields.rest)
  }

  // A dict has each key once, at every level.
  predicate Proper(node: Json)
    decreases node
  {
    match node
    case Arr(items) => ProperItems(items)
    case Obj(fields) => ProperFields(fields)
    case _ => true
  }

  predicate ProperItems(items: Items)
    decreases items
  {
    items.Nil? || (Proper(items.head) && ProperItems(items.tail))
  }

  predicate ProperFields(fields: Fields)
    decreases fields
  {
    fields.End? || (Proper(fields.value) && !HasKey(fields.rest, fields.key) && ProperFields(fields.rest))
  }

  lemma {:induction false} UnknownRefsAt(defs: Fields, fields: Fields, key: string)
    requires HasKey(fields, key)
    ensures UnknownRefs(defs, Lookup(fields, key).value) <= UnknownRefsFields(defs, fields)
  {
    if fields.key != key { UnknownRefsAt(defs, fields.rest, key); }
  }

  lemma {:induction false} OverrideKeeps(defs: Fields, base: Json, fields: Fields, fuel: nat, key: string)
    requires Override(defs, base, fields, fuel).Done? && base.Obj?
    requires key == "$ref" || !HasKey(fields, key)
    ensures Override(defs, base, fields, fuel).value.Obj?
    ensures Lookup(Override(defs, base, fields, fuel).value.fields, key) == Lookup(base.fields, key)
    decreases fields
  {
    if fields.Field? {
      if fields.key == "$ref" {
        OverrideKeeps(defs, base, fields.rest, fuel, key);
      } else {
        var v := Resolve(defs, fields.value, fuel).value;
        LookupSetKey(base.fields, fields.key, v, key);
        OverrideKeeps(defs, Obj(SetKey(base.fields, fields.key, v)), fields.rest, fuel, key);
      }
    }
  }

  // Every unknown reference of the schema itself is still there; definitions that it does not reach
  // may lose theirs, and overwritten fields of a definition too.
  lemma {:induction false} UnknownRefsSurvive(defs: Fields, node: Json, fuel: nat)
    requires Proper(node) && Resolve(defs, node, fuel).Done?
    ensures UnknownRefs(defs, node) <= UnknownRefs(defs, Resolve(defs, node, fuel).value)
    decreases node
  {
    match node
    case Arr(items) => UnknownRefsSurviveItems(defs, items, fuel);
    case Obj(fields) =>
      var known := KnownRef(defs, fields);
      if known.None? {
        UnknownRefsSurviveFields(defs, fields, fuel);
        ResolvedFields(defs, fields, fuel, "$ref");
      } else {
        UnknownRefsOverride(defs, Resolve(defs, Lookup(defs, known.value).value, fuel - 1).value, fields, fuel);
      }
    case _ =>
  }

  lemma {:induction false} UnknownRefsSurviveItems(defs: Fields, items: Items, fuel: nat)
    requires ProperItems(items) && ResolveItems(defs, items, fuel).Done?
    ensures UnknownRefsItems(defs, items) <= UnknownRefsItems(defs, ResolveItems(defs, items, fuel).value)
    decreases items
  {
    if items.Item? {
      UnknownRefsSurvive(defs, items.head, fuel);
      UnknownRefsSurviveItems(defs, items.tail, fuel);
    }
  }

  lemma {:induction false} UnknownRefsSurviveFields(defs: Fields, fields: Fields, fuel: nat)
    requires ProperFields(fields) && ResolveFields(defs, fields, fuel).Done?
    ensures UnknownRefsFields(defs, fields) <= UnknownRefsFields(defs, ResolveFields(defs, fields, fuel).value)
    decreases fields
  {
    if fields.Field? {
      UnknownRefsSurvive(defs, fields.value, fuel);
      UnknownRefsSurviveFields(defs, fields.rest, fuel);
    }
  }

  // Beside a known reference, which is a string itself.
  lemma {:induction false} UnknownRefsOverride(defs: Fields, base: Json, fields: Fields, fuel: nat)
    requires ProperFields(fields) && Override(defs, base, fields, fuel).Done?
    requires HasKey(fields, "$ref") ==> Lookup(fields, "$ref").value.Str?
    ensures UnknownRefsFields(defs, fields) <= UnknownRefs(defs, Override(defs, base, fields, fuel).value)
    decreases fields
  {
    if fields.Field? {
      if fields.key == "$ref" {
        UnknownRefsOverride(defs, base, fields.rest, fuel);
      } else {
        var v := Resolve(defs, fields.value, fuel).value;
        var next := Obj(SetKey(base.fields, fields.key, v));
        UnknownRefsSurvive(defs, fields.value, fuel);
        UnknownRefsOverride(defs, next, fields.rest, fuel);
        LookupSetKey(base.fields, fields.key, v, fields.key);
        OverrideKeeps(defs, next, fields.rest, fuel, fields.key);
        UnknownRefsAt(defs, Override(defs, next, fields.rest, fuel).value.fields, fields.key);
      }
    }
  }

  // ---------- also those of the definitions that are reached ----------

  // The unknown references of a node and of every definition inlined into it.
  function Reached(defs: Fields, node: Json, fuel: nat): set<string>
    decreases fuel, node
  {
    match node
    case Arr(items) => ReachedItems(defs, items, fuel)
    case Obj(fields) =>
      var known := KnownRef(defs, fields);
      if known.None? then OwnUnknownRef(defs, fields) + ReachedFields(defs, fields, false, fuel)
      else (if fuel > 0 then Reached(defs, Def(defs, known.value), fuel - 1) else {})
           + ReachedFields(defs, fields, true, fuel)
    case _ => {}
  }

  function ReachedItems(defs: Fields, items: Items, fuel: nat): set<string>
    decreases fuel, items
  {
    if items.Nil? then {} else Reached(defs, items.head, fuel) + ReachedItems(defs, items.tail, fuel)
  }

  function ReachedFields(defs: Fields, fields: Fields, siblings: bool, fuel: nat): set<string>
    decreases fuel, fields
  {
    if fields.End? then {}
    else (if siblings && fields.key == "$ref" then {} else Reached(defs, fields.value, fuel))
         + ReachedFields(defs, fields.rest, siblings, fuel)
  }

  // No sibling overwrites a field of an inlined definition that holds an unknown reference.  Siblings
  // that are annotations, over annotations of plain text, never do.
  predicate Lossless(defs: Fields, node: Json, fuel: nat)
    decreases fuel, node
  {
    match node
    case Arr(items) => LosslessItems(defs, items, fuel)
    case Obj(fields) =>
      var known := KnownRef(defs, fields);
      && LosslessFields(defs, fields, fuel)
      && (known.Some? ==>
            && fuel > 0 && Lossless(defs, Def(defs, known.value), fuel - 1)
            && var base := Resolve(defs, Def(defs, known.value), fuel - 1);
            (base.Done? && base.value.Obj? ==> LosslessSiblings(defs, base.value.fields, fields)))
    case _ => true
  }

  predicate LosslessItems(defs: Fields, items: Items, fuel: nat)
    decreases fuel, items
  {
    items.Nil? || (Lossless(defs, items.head, fuel) && LosslessItems(defs, items.tail, fuel))
  }

  predicate LosslessFields(defs: Fields, fields: Fields, fuel: nat)
    decreases fuel, fields
  {
    fields.End? || (Lossless(defs, fields.value, fuel) && LosslessFields(defs, fields.rest, fuel))
  }

  predicate LosslessSiblings(defs: Fields, base: Fields, siblings: Fields) {
    siblings.End?
    || ((siblings.key == "$ref"
         || (!HasKey(siblings.rest, siblings.key)
             && (HasKey(base, siblings.key) ==> UnknownRefs(defs, Lookup(base, siblings.key).value) == {})))
        && LosslessSiblings(defs, base, siblings.rest))
  }

  lemma {:induction false} SetKeyKeepsRefs(defs: Fields, fields: Fields, key: string, value: Json)
    requires HasKey(fields, key) ==> UnknownRefs(defs, Lookup(fields, key).value) == {}
    ensures UnknownRefsFields(defs, fields) + UnknownRefs(defs, value) <= UnknownRefsFields(defs, SetKey(fields, key, value))
  {
    if fields.Field? && fields.key != key { SetKeyKeepsRefs(defs, fields.rest, key, value); }
  }

  lemma {:induction false} StillLossless(defs: Fields, base: Fields, key: string, value: Json, siblings: Fields)
    requires LosslessSiblings(defs, base, siblings) && !HasKey(siblings, key)
    ensures LosslessSiblings(defs, SetKey(base, key, value), siblings)
  {
    if siblings.Field? {
      LookupSetKey(base, key, value, siblings.key);
      StillLossless(defs, base, key, value, siblings.rest);
    }
  }

  // Every unknown reference met on the way, in the schema or in a definition it reaches, is in the result.
  lemma {:induction false} ReachedRefsSurvive(defs: Fields, node: Json, fuel: nat)
    requires Lossless(defs, node, fuel) && Resolve(defs, node, fuel).Done?
    ensures Reached(defs, node, fuel) <= UnknownRefs(defs, Resolve(defs, node, fuel).value)
    decreases fuel, node
  {
    match node
    case Arr(items) => ReachedItemsSurvive(defs, items, fuel);
    case Obj(fields) =>
      var known := KnownRef(defs, fields);
      if known.None? {
        ReachedFieldsSurvive(defs, fields, fuel);
        ResolvedFields(defs, fields, fuel, "$ref");
      } else {
        var d := Def(defs, known.value);
        ReachedRefsSurvive(defs, d, fuel - 1);
        ReachedOverride(defs, Resolve(defs, d, fuel - 1).value, fields, fuel);
      }
    case _ =>
  }

  lemma {:induction false} ReachedItemsSurvive(defs: Fields, items: Items, fuel: nat)
    requires LosslessItems(defs, items, fuel) && ResolveItems(defs, items, fuel).Done?
    ensures ReachedItems(defs, items, fuel) <= UnknownRefsItems(defs, ResolveItems(defs, items, fuel).value)
    decreases fuel, items
  {
    if items.Item? {
      ReachedRefsSurvive(defs, items.head, fuel);
      ReachedItemsSurvive(defs, items.tail, fuel);
    }
  }

  lemma {:induction false} ReachedFieldsSurvive(defs: Fields, fields: Fields, fuel: nat)
    requires LosslessFields(defs, fields, fuel) && ResolveFields(defs, fields, fuel).Done?
    ensures ReachedFields(defs, fields, false, fuel) <= UnknownRefsFields(defs, ResolveFields(defs, fields, fuel).value)
    decreases fuel, fields
  {
    if fields.Field? {
      ReachedRefsSurvive(defs, fields.value, fuel);
      ReachedFieldsSurvive(defs, fields.rest, fuel);
    }
  }

  lemma {:induction false} ReachedOverride(defs: Fields, base: Json, siblings: Fields, fuel: nat)
    requires Override(defs, base, siblings, fuel).Done? && LosslessFields(defs, siblings, fuel)
    requires base.Obj? ==> LosslessSiblings(defs, base.fields, siblings)
    ensures UnknownRefs(defs, base) + ReachedFields(defs, siblings, true, fuel)
            <= UnknownRefs(defs, Override(defs, base, siblings, fuel).value)
    decreases fuel, siblings
  {
    if siblings.Field? {
      if siblings.key == "$ref" {
        ReachedOverride(defs, base, siblings.rest, fuel);
      } else {
        var v := Resolve(defs, siblings.value, fuel).value;
        ReachedRefsSurvive(defs, siblings.value, fuel);
        SetKeyKeepsRefs(defs, base.fields, siblings.key, v);
        LookupSetKey(base.fields, siblings.key, v, "$ref");
        StillLossless(defs, base.fields, siblings.key, v, siblings.rest);
        ReachedOverride(defs, Obj(SetKey(base.fields, siblings.key, v)), siblings.rest, fuel);
      }
    }
  }
}
