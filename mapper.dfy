/** The object mapper (Application/Services/Mapper/Mapper.cs).

    Objects are maps from property name to value, and a type is its list of
    public properties plus the values `new T()` gives them. The compiled
    expression trees become lists of mapping actions, each of which reads the
    source, converts the value and assigns one target property. The two .NET
    conversions the mapper relies on, `Convert.ChangeType` and the cast that
    `Expression.Convert` compiles, are supplied from outside and may fail;
    so is the test `Expression.Convert` makes, when the tree is built, that a
    conversion between two types exists at all. */
module Mapper {
  import opened Wrappers

  datatype Value = Null | Bool(b: bool) | Int(i: int) | Str(s: string) | Date(ticks: int)

  /** An object: its property values by name. */
  type Obj = map<string, Value>

  /** A property the object does not hold reads as null. */
  function Read(o: Obj, name: string): Value
  {
    if name in o then o[name] else Null
  }

  datatype Property = Property(name: string, propertyType: TypeTag, canRead: bool, canWrite: bool)

  /** A type: its public instance properties in declaration order, and the
      object its parameterless constructor builds. */
  datatype TypeInfo = TypeInfo(properties: seq<Property>, defaults: Obj)

  /** `GetProperty(name)`: the property of that name, if the type has one. */
  function FindProperty(properties: seq<Property>, name: string): (r: Option<Property>)
    ensures r.Some? ==> r.value in properties && r.value.name == name
    ensures r.None? ==> forall i :: 0 <= i < |properties| ==> properties[i].name != name
  {
    if |properties| == 0 then None
    else if properties[0].name == name then Some(properties[0])
    else FindProperty(properties[1..], name)
  }

  /** No two properties share a name. Reflection can list two (a base
      property hidden with `new` at another type), and `GetProperty` then
      throws `AmbiguousMatchException`. The direct-mapping lemmas take
      unique names as a precondition and do not cover that case. */
  predicate UniqueNames(properties: seq<Property>)
  {
    forall i, j :: 0 <= i < j < |properties| ==> properties[i].name != properties[j].name
  }

  /** `Convert.ChangeType(value, type)`, the compiled `Expression.Convert(value, type)`,
      and whether `Expression.Convert` accepts a conversion from one type to another. */
  datatype Conversions = Conversions(
    changeType: (Value, TypeTag) -> Outcome<Value>,
    convert: (Value, TypeTag) -> Outcome<Value>,
    coercible: (TypeTag, TypeTag) -> bool)

  /** How a mapping turns the source value into the target value. */
  datatype Conversion =
    | Unconverted
    | Custom(converter: Value -> Outcome<Value>)
    | ChangeTypeTo(targetType: TypeTag)
    | ConvertTo(targetType: TypeTag)

  /** A compiled mapping: read the source, convert, assign one target property. */
  datatype MappingAction = MappingAction(
    sourceGetter: Option<Obj> -> Outcome<Value>,
    targetProperty: string,
    conversion: Conversion)

  /** `src => src.Name`: reading a property of a null source throws. */
  function PropertyGetter(name: string): Option<Obj> -> Outcome<Value>
  {
    (source: Option<Obj>) => if source.None? then Thrown(NullReference) else Ok(Read(source.value, name))
  }

  function Convert(c: Conversion, rt: Conversions, v: Value): Outcome<Value>
  {
    match c
    case Unconverted => Ok(v)
    case Custom(f) => f(v)
    case ChangeTypeTo(t) => rt.changeType(v, t)
    case ConvertTo(t) => rt.convert(v, t)
  }

  /** The value an action assigns, or what it throws. */
  function Written(a: MappingAction, rt: Conversions, source: Option<Obj>): Outcome<Value>
  {
    match a.sourceGetter(source)
    case Thrown(x) => Thrown(x)
    case Ok(v) => Convert(a.conversion, rt, v)
  }

  function ApplyAction(a: MappingAction, rt: Conversions, source: Option<Obj>, target: Obj): Outcome<Obj>
  {
    match Written(a, rt, source)
    case Thrown(x) => Thrown(x)
    case Ok(v) => Ok(target[a.targetProperty := v])
  }

  /** Whether some action assigns the property `p`. */
  predicate Assigns(actions: seq<MappingAction>, p: string)
  {
    exists i :: 0 <= i < |actions| && actions[i].targetProperty == p
  }

  /** The actions applied to `target` in order. The first action that throws
      ends the run with its exception; when none throws, a property no action
      assigns keeps its value. */
  function ApplyAll(actions: seq<MappingAction>, rt: Conversions, source: Option<Obj>, target: Obj): (r: Outcome<Obj>)
    ensures r.Ok? <==> forall i :: 0 <= i < |actions| ==> Written(actions[i], rt, source).Ok?
    ensures r.Ok? ==> forall p :: !Assigns(actions, p) ==> Read(r.value, p) == Read(target, p)
    ensures r.Thrown? ==>
      exists i :: 0 <= i < |actions| && Written(actions[i], rt, source) == Thrown(r.exception) && forall j :: 0 <= j < i ==> Written(actions[j], rt, source).Ok?
    decreases |actions|
  {
    if |actions| == 0 then Ok(target)
    else
      var rest := actions[1..];
      assert forall j :: 1 <= j < |actions| ==> actions[j] == rest[j - 1];
      match ApplyAction(actions[0], rt, source, target)
      case Thrown(x) => Thrown(x)
      case Ok(t) =>
        var r := ApplyAll(rest, rt, source, t);
        assert forall p :: !Assigns(actions, p) ==> !Assigns(rest, p) && p != actions[0].targetProperty;
        r
  }

  /** A property ends up with what the last action assigning it wrote: a
      later mapping to the same property overwrites an earlier one. */
  lemma {:induction false} LastMappingWins(actions: seq<MappingAction>, rt: Conversions, source: Option<Obj>, target: Obj, k: nat)
    requires ApplyAll(actions, rt, source, target).Ok?
    requires k < |actions|
    requires forall j :: k < j < |actions| ==> actions[j].targetProperty != actions[k].targetProperty
    ensures Read(ApplyAll(actions, rt, source, target).value, actions[k].targetProperty) == Written(actions[k], rt, source).value
  {
    var t := ApplyAction(actions[0], rt, source, target).value;
    var rest := actions[1..];
    if k == 0 {
      assert !Assigns(rest, actions[0].targetProperty) by {
        forall j | 0 <= j < |rest| ensures rest[j].targetProperty != actions[0].targetProperty {
          assert rest[j] == actions[j + 1];
        }
      }
    } else {
      forall j | k - 1 < j < |rest| ensures rest[j].targetProperty != rest[k - 1].targetProperty {
        assert rest[j] == actions[j + 1];
      }
      LastMappingWins(rest, rt, source, t, k - 1);
    }
  }

  /** With no mapping registered, the result is the default target, even
      for a null source. */
  lemma NoMappingsGiveDefaults(rt: Conversions, source: Option<Obj>, defaults: Obj)
    ensures ApplyAll([], rt, source, defaults) == Ok(defaults)
  {
  }

  /** A null source fails with a null reference as soon as the first action
      reads a property of it. */
  lemma NullSourceFails(actions: seq<MappingAction>, rt: Conversions, target: Obj, name: string)
    requires |actions| > 0 && actions[0].sourceGetter == PropertyGetter(name)
    ensures ApplyAll(actions, rt, None, target) == Thrown(NullReference)
  {
    assert Written(actions[0], rt, None) == Thrown(NullReference);
  }

  /** `MappingConfig.Map`'s target check: a member access to a writable property. */
  datatype TargetExpr = PropertyAccess(name: string) | FieldAccess(name: string) | OtherExpression

  function WritableTarget(target: TypeInfo, e: TargetExpr): (r: Option<Property>)
    ensures r.Some? ==> e.PropertyAccess? && r.value.canWrite && r.value.name == e.name && r.value in target.properties
  {
    if e.PropertyAccess? then
      match FindProperty(target.properties, e.name)
      case Some(p) => if p.canWrite then Some(p) else None
      case None => None
    else None
  }

  const NotWritableMessage: string := "Target must be a writable property."

  /** The compiled configured mapper: the registered actions and the target type. */
  datatype Compiled = Compiled(mappings: seq<MappingAction>, target: TypeInfo)

  class MappingConfig {
    const target: TypeInfo
    var mappings: seq<MappingAction>

    constructor (target: TypeInfo)
      ensures this.target == target && mappings == []
    {
      this.target := target;
      mappings := [];
    }

    /** `Map(sourceProperty, targetProperty, converter)`: rejects a target
        that is not a writable property, else appends one action, which
        converts with `converter` when given and with `Convert.ChangeType`
        to the property's type otherwise. */
    method Map(sourceGetter: Option<Obj> -> Outcome<Value>, targetProperty: TargetExpr, converter: Option<Value -> Outcome<Value>>)
      returns (r: Outcome<()>)
      modifies this
      ensures WritableTarget(target, targetProperty).None? ==>
        r == Thrown(Argument(NotWritableMessage)) && mappings == old(mappings)
      ensures WritableTarget(target, targetProperty).Some? ==>
        var p := WritableTarget(target, targetProperty).value;
        && r == Ok(())
        && mappings == old(mappings) + [MappingAction(sourceGetter, p.name,
             if converter.Some? then Custom(converter.value) else ChangeTypeTo(p.propertyType))]
    {
      var p := WritableTarget(target, targetProperty);
      if p.None? {
        return Thrown(Argument(NotWritableMessage));
      }
      var conversion := if converter.Some? then Custom(converter.value) else ChangeTypeTo(p.value.propertyType);
      mappings := mappings + [MappingAction(sourceGetter, p.value.name, conversion)];
      r := Ok(());
    }

    /** `Compile`: the mapping function over the registered actions. */
    function Compile(): (c: Compiled)
      reads this
      ensures c.mappings == mappings && c.target == target
    {
      Compiled(mappings, target)
    }
  }

  /** The configured mapping function: a fresh default target, then every
      action in registration order. */
  method RunCompiled(c: Compiled, rt: Conversions, source: Option<Obj>) returns (r: Outcome<Obj>)
    ensures r == ApplyAll(c.mappings, rt, source, c.target.defaults)
  {
    var target := c.target.defaults;
    for i := 0 to |c.mappings|
      invariant ApplyAll(c.mappings, rt, source, c.target.defaults) == ApplyAll(c.mappings[i..], rt, source, target)
    {
      assert c.mappings[i..][1..] == c.mappings[i + 1..];
      var mapping := c.mappings[i];
      match ApplyAction(mapping, rt, source, target) {
        case Thrown(x) =>
          return Thrown(x);
        case Ok(t) =>
          target := t;
      }
    }
    r := Ok(target);
  }

  /** The assignment `BuildDirectMapper` emits for a target property, if any:
      only for a writable property with a readable source property of the
      same name, converted when the two types differ. */
  function DirectAction(source: TypeInfo, t: Property): Option<MappingAction>
  {
    if !t.canWrite then None
    else match FindProperty(source.properties, t.name)
      case None => None
      case Some(s) =>
        if !s.canRead then None
        else Some(MappingAction(PropertyGetter(t.name), t.name,
          if t.propertyType != s.propertyType then ConvertTo(t.propertyType) else Unconverted))
  }

  /** The names of a list of properties. */
  function Names(props: seq<Property>): set<string>
  {
    set p | p in props :: p.name
  }

  /** The assignment emitted for one target property, as a list of zero or one. */
  function DirectHead(source: TypeInfo, t: Property): seq<MappingAction>
  {
    match DirectAction(source, t)
    case Some(a) => [a]
    case None => []
  }

  /** The assignments `BuildDirectMapper` emits for `targets`, in order. */
  function DirectActions(source: TypeInfo, targets: seq<Property>): (r: seq<MappingAction>)
    ensures forall i :: 0 <= i < |r| ==> r[i].targetProperty in Names(targets)
  {
    if |targets| == 0 then []
    else
      var init := targets[..|targets| - 1];
      assert Names(init) <= Names(targets) by {
        forall n | n in Names(init) ensures n in Names(targets) {
          var p :| p in init && p.name == n;
          assert p in targets;
        }
      }
      DirectActions(source, init) + DirectHead(source, targets[|targets| - 1])
  }

  /** The exception building the assignment for target property `t` raises,
      if any: `Expression.Convert` rejects a pair of types with no conversion
      between them. */
  function BuildError(source: TypeInfo, rt: Conversions, t: Property): Option<Exception>
  {
    if !t.canWrite then None
    else match FindProperty(source.properties, t.name)
      case None => None
      case Some(s) =>
        if !s.canRead || t.propertyType == s.propertyType || rt.coercible(s.propertyType, t.propertyType) then None
        else Some(NoCoercionOperator(s.propertyType, t.propertyType))
  }

  /** What building the direct mapper over `targets` gives: the first build
      error in property order, or every assignment of `DirectActions`. */
  function DirectBuild(source: TypeInfo, rt: Conversions, targets: seq<Property>): (r: Outcome<seq<MappingAction>>)
    ensures r.Ok? <==> forall i :: 0 <= i < |targets| ==> BuildError(source, rt, targets[i]).None?
    ensures r.Ok? ==> r.value == DirectActions(source, targets)
    ensures r.Thrown? ==>
      exists k :: 0 <= k < |targets| && BuildError(source, rt, targets[k]) == Some(r.exception)
        && forall j :: 0 <= j < k ==> BuildError(source, rt, targets[j]).None?
  {
    if |targets| == 0 then Ok([])
    else
      var n := |targets| - 1;
      var init := targets[..n];
      assert forall j :: 0 <= j < n ==> init[j] == targets[j];
      match DirectBuild(source, rt, init)
      case Thrown(x) => Thrown(x)
      case Ok(a) =>
        match BuildError(source, rt, targets[n])
        case Some(x) => Thrown(x)
        case None => Ok(a + DirectHead(source, targets[n]))
  }

  /** Once a prefix of the properties fails to build, the whole list fails
      with the same exception. */
  lemma {:induction false} BuildStopsAtError(source: TypeInfo, rt: Conversions, targets: seq<Property>, m: nat)
    requires m <= |targets| && DirectBuild(source, rt, targets[..m]).Thrown?
    ensures DirectBuild(source, rt, targets) == DirectBuild(source, rt, targets[..m])
    decreases |targets| - m
  {
    if m < |targets| {
      assert targets[..m + 1][..m] == targets[..m];
      BuildStopsAtError(source, rt, targets, m + 1);
    } else {
      assert targets[..m] == targets;
    }
  }

  /** One more property: its build error, or its assignment appended. */
  lemma BuildStep(source: TypeInfo, rt: Conversions, targets: seq<Property>, i: nat, built: seq<MappingAction>)
    requires i < |targets| && DirectBuild(source, rt, targets[..i]) == Ok(built)
    ensures DirectBuild(source, rt, targets[..i + 1]) ==
      match BuildError(source, rt, targets[i])
      case Some(x) => Thrown(x)
      case None => Ok(built + DirectHead(source, targets[i]))
  {
    assert targets[..i + 1][..i] == targets[..i];
  }

  /** `BuildDirectMapper`: walks the target's properties in order and emits an
      assignment for each one that has a readable same-name source property;
      an impossible conversion ends the build with its exception. */
  method BuildDirectMapper(source: TypeInfo, target: TypeInfo, rt: Conversions) returns (r: Outcome<seq<MappingAction>>)
    ensures r == DirectBuild(source, rt, target.properties)
  {
    var assignments := [];
    var props := target.properties;
    for i := 0 to |props|
      invariant DirectBuild(source, rt, props[..i]) == Ok(assignments)
    {
      var error := BuildError(source, rt, props[i]);
      if error.Some? {
        BuildStep(source, rt, props, i, assignments);
        BuildStopsAtError(source, rt, props, i + 1);
        return Thrown(error.value);
      }
      BuildStep(source, rt, props, i, assignments);
      ghost var next := assignments + DirectHead(source, props[i]);
      assert DirectBuild(source, rt, props[..i + 1]) == Ok(next);
      var action := DirectAction(source, props[i]);
      if action.Some? {
        assignments := assignments + [action.value];
      }
      assert assignments == next;
    }
    assert props[..|props|] == props;
    r := Ok(assignments);
  }

  /** Running two lists of actions one after the other. */
  lemma {:induction false} ApplyAllAppend(a: seq<MappingAction>, b: seq<MappingAction>, rt: Conversions, source: Option<Obj>, target: Obj)
    ensures ApplyAll(a + b, rt, source, target) ==
      match ApplyAll(a, rt, source, target) case Thrown(x) => Thrown(x) case Ok(t) => ApplyAll(b, rt, source, t)
  {
    if |a| == 0 {
      assert a + b == b;
    } else {
      assert (a + b)[1..] == a[1..] + b;
      match ApplyAction(a[0], rt, source, target)
      case Thrown(_) =>
      case Ok(t) => ApplyAllAppend(a[1..], b, rt, source, t);
    }
  }

  /** What `MapDirect` gives a target property: the same-name source value,
      converted when the types differ, when the property is writable and the
      source's is readable; the starting value otherwise. */
  function DirectValue(source: TypeInfo, rt: Conversions, src: Obj, t: Property, start: Obj): Outcome<Value>
  {
    match DirectAction(source, t)
    case None => Ok(Read(start, t.name))
    case Some(a) => Written(a, rt, Some(src))
  }

  /** Direct mapping sets exactly the matched properties, each from its
      same-name source property, and leaves every other one as it was. */
  lemma {:induction false} DirectMapping(source: TypeInfo, rt: Conversions, src: Obj, targets: seq<Property>, start: Obj, k: nat)
    requires UniqueNames(targets)
    requires ApplyAll(DirectActions(source, targets), rt, Some(src), start).Ok?
    requires k < |targets|
    ensures Ok(Read(ApplyAll(DirectActions(source, targets), rt, Some(src), start).value, targets[k].name))
      == DirectValue(source, rt, src, targets[k], start)
  {
    var n := |targets| - 1;
    var init := targets[..n];
    var before := DirectActions(source, init);
    ApplyAllAppend(before, DirectHead(source, targets[n]), rt, Some(src), start);
    var mid := ApplyAll(before, rt, Some(src), start).value;
    ReadAfterHead(source, rt, src, targets[n], mid, targets[k].name);
    if k == n {
      EarlierNamesDiffer(source, targets);
      assert Read(mid, targets[n].name) == Read(start, targets[n].name);
    } else {
      assert init[k] == targets[k];
      UniqueNamesPrefix(targets, n);
      DirectMapping(source, rt, src, init, start, k);
    }
  }

  lemma UniqueNamesPrefix(props: seq<Property>, n: nat)
    requires UniqueNames(props) && n <= |props|
    ensures UniqueNames(props[..n])
  {
    forall i, j | 0 <= i < j < n ensures props[..n][i].name != props[..n][j].name {
      assert props[..n][i] == props[i] && props[..n][j] == props[j];
    }
  }

  /** After the assignment for property `t`, a property reads as what that
      assignment wrote if it is `t`'s and one was emitted, and as before otherwise. */
  lemma ReadAfterHead(source: TypeInfo, rt: Conversions, src: Obj, t: Property, target: Obj, name: string)
    requires ApplyAll(DirectHead(source, t), rt, Some(src), target).Ok?
    ensures Read(ApplyAll(DirectHead(source, t), rt, Some(src), target).value, name) ==
      if name == t.name && DirectAction(source, t).Some? then Written(DirectAction(source, t).value, rt, Some(src)).value
      else Read(target, name)
  {
    if DirectAction(source, t).Some? {
      assert DirectHead(source, t)[1..] == [];
    }
  }

  /** With unique names, no assignment for the earlier properties touches the last one. */
  lemma EarlierNamesDiffer(source: TypeInfo, targets: seq<Property>)
    requires UniqueNames(targets) && |targets| > 0
    ensures !Assigns(DirectActions(source, targets[..|targets| - 1]), targets[|targets| - 1].name)
  {
    var n := |targets| - 1;
    var init := targets[..n];
    var actions := DirectActions(source, init);
    forall i | 0 <= i < |actions|
      ensures actions[i].targetProperty != targets[n].name
    {
      var p :| p in init && p.name == actions[i].targetProperty;
      var j :| 0 <= j < n && init[j] == p;
      assert targets[j] == p;
    }
  }

  /** `Select` over a collection: every element through the same mapping, in
      order; the first element that fails ends the run with its exception. */
  function MapEach(actions: seq<MappingAction>, rt: Conversions, sources: seq<Option<Obj>>, defaults: Obj)
    : (r: Outcome<seq<Obj>>)
    ensures r.Ok? ==> |r.value| == |sources|
    ensures r.Ok? ==> forall i :: 0 <= i < |sources| ==> ApplyAll(actions, rt, sources[i], defaults) == Ok(r.value[i])
    ensures r.Thrown? ==>
      exists i :: 0 <= i < |sources| && ApplyAll(actions, rt, sources[i], defaults) == Thrown(r.exception) && forall j :: 0 <= j < i ==> ApplyAll(actions, rt, sources[j], defaults).Ok?
  {
    if |sources| == 0 then Ok([])
    else match ApplyAll(actions, rt, sources[0], defaults)
      case Thrown(x) => Thrown(x)
      case Ok(t) =>
        var rest := MapEach(actions, rt, sources[1..], defaults);
        assert forall j :: 1 <= j < |sources| ==> sources[j] == sources[1..][j - 1];
        match rest
        case Thrown(x) => Thrown(x)
        case Ok(ts) => Ok([t] + ts)
  }

  /** Without registered mappings, a null element maps to a default target:
      the collection mapping does not check elements for null. */
  lemma NullElementWithoutMappings(rt: Conversions, sources: seq<Option<Obj>>, defaults: Obj, i: nat)
    requires i < |sources| && sources[i].None?
    ensures MapEach([], rt, sources, defaults).Ok?
    ensures MapEach([], rt, sources, defaults).value[i] == defaults
  {
    NoMappingsGiveDefaults(rt, sources[i], defaults);
  }

  class Mapper {
    const source: TypeInfo
    const configured: Compiled
    const direct: Outcome<seq<MappingAction>>
    const conversions: Conversions

    /** `new Mapper(configAction)` over a configuration the action filled
        (left empty for a null action). The direct mapper is built here
        rather than on first use; a failed build is kept, as the `Lazy`
        keeps its exception, and every direct call rethrows it. */
    constructor (source: TypeInfo, config: MappingConfig, conversions: Conversions)
      ensures this.source == source && this.conversions == conversions
      ensures configured == config.Compile()
      ensures direct == DirectBuild(source, conversions, config.target.properties)
    {
      var built := BuildDirectMapper(source, config.target, conversions);
      this.source := source;
      this.conversions := conversions;
      configured := config.Compile();
      direct := built;
    }

    /** `Map(source)`. */
    method Map(src: Option<Obj>) returns (r: Outcome<Obj>)
      ensures src.None? ==> r == Thrown(ArgumentNull("source"))
      ensures src.Some? ==> r == ApplyAll(configured.mappings, conversions, src, configured.target.defaults)
    {
      if src.None? {
        return Thrown(ArgumentNull("source"));
      }
      r := RunCompiled(configured, conversions, src);
    }

    /** `MapDirect(source)`: the null check comes before the direct mapper is
        needed, so a null source reports itself even when the build fails. */
    method MapDirect(src: Option<Obj>) returns (r: Outcome<Obj>)
      ensures src.None? ==> r == Thrown(ArgumentNull("source"))
      ensures src.Some? && direct.Thrown? ==> r == Thrown(direct.exception)
      ensures src.Some? && direct.Ok? ==> r == ApplyAll(direct.value, conversions, src, configured.target.defaults)
    {
      if src.None? {
        return Thrown(ArgumentNull("source"));
      }
      match direct {
        case Thrown(x) =>
          return Thrown(x);
        case Ok(actions) =>
          r := RunCompiled(Compiled(actions, configured.target), conversions, src);
      }
    }

    /** `MapCollection(sources)`. */
    function MapCollection(sources: Option<seq<Option<Obj>>>): (r: Outcome<seq<Obj>>)
      ensures sources.None? ==> r == Thrown(ArgumentNull("sources"))
      ensures sources.Some? ==> r == MapEach(configured.mappings, conversions, sources.value, configured.target.defaults)
    {
      match sources
      case None => Thrown(ArgumentNull("sources"))
      case Some(s) => MapEach(configured.mappings, conversions, s, configured.target.defaults)
    }

    /** `MapDirectCollection(sources)`: the collection mapper needs the direct
        mapper, so a failed build throws even for an empty collection. */
    function MapDirectCollection(sources: Option<seq<Option<Obj>>>): (r: Outcome<seq<Obj>>)
      reads this
      ensures sources.None? ==> r == Thrown(ArgumentNull("sources"))
      ensures sources.Some? && direct.Thrown? ==> r == Thrown(direct.exception)
      ensures sources.Some? && direct.Ok? ==> r == MapEach(direct.value, conversions, sources.value, configured.target.defaults)
    {
      match sources
      case None => Thrown(ArgumentNull("sources"))
      case Some(s) =>
        match direct
        case Thrown(x) => Thrown(x)
        case Ok(actions) => MapEach(actions, conversions, s, configured.target.defaults)
    }
  }

  /** A target property with a readable same-name source property of another
      type that `Expression.Convert` cannot convert makes the whole direct
      mapper fail to build, whatever the other properties are. */
  lemma IncompatiblePropertyFailsBuild(source: TypeInfo, rt: Conversions, targets: seq<Property>, k: nat)
    requires k < |targets| && targets[k].canWrite
    requires FindProperty(source.properties, targets[k].name).Some?
    requires FindProperty(source.properties, targets[k].name).value.canRead
    requires FindProperty(source.properties, targets[k].name).value.propertyType != targets[k].propertyType
    requires !rt.coercible(FindProperty(source.properties, targets[k].name).value.propertyType, targets[k].propertyType)
    ensures DirectBuild(source, rt, targets).Thrown?
    ensures DirectBuild(source, rt, targets).exception.NoCoercionOperator?
  {
    assert BuildError(source, rt, targets[k]).Some?;
  }
}
