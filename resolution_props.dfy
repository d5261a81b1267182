/** Properties of getService and of the manager's state, proved about the functions of
    Resolution (which the methods of ServiceManager are proved to follow). */
module ResolutionProps {
  import opened Types
  import opened Registry
  import opened Resolution
  import opened Manager

  /** `st'` keeps every registered class name, every alias with its value, and the counter
      does not go back. Instances may be replaced; aliases never are. */
  ghost predicate Extends(st: State, st': State)
  {
    && st.services.Keys <= st'.services.Keys
    && (forall k :: k in st.aliases ==> k in st'.aliases && st'.aliases[k] == st.aliases[k])
    && st.nextId <= st'.nextId
  }

  /** Every registered object was made before the counter's current value. */
  ghost predicate IdsBelow(st: State)
  {
    forall k :: k in st.services ==> st.services[k].id < st.nextId
  }

  // ---------------------------------------------------------------------------------------
  // Resolution only adds: no class name is unregistered and no alias changes.

  lemma {:induction false} ResolveGrows(meta: Meta, st: State, name: ClassName, fuel: nat)
    ensures var r := Resolve(meta, st, name, fuel);
      && Extends(st, r.1)
      && (IdsBelow(st) ==> IdsBelow(r.1) && (r.0.Ok? ==> r.0.value.id < r.1.nextId))
    decreases fuel, 5
  {
    if name !in st.services {
      var cls := AliasTarget(st, name);
      if ClassExists(meta, cls) && !Info(meta, cls).isInterface && !IsService(meta, cls) {
        InstantiateGrows(meta, st, cls, fuel);
      }
    }
  }

  lemma {:induction false} InstantiateGrows(meta: Meta, st: State, cls: ClassName, fuel: nat)
    ensures var r := Instantiate(meta, st, cls, fuel);
      && Extends(st, r.1)
      && (IdsBelow(st) ==> IdsBelow(r.1))
      && (r.0.Ok? ==> r.0.value.cls == cls && st.nextId <= r.0.value.id < r.1.nextId)
    decreases fuel, 4
  {
    ConstructGrows(meta, st, cls, fuel);
  }

  lemma {:induction false} ConstructGrows(meta: Meta, st: State, cls: ClassName, fuel: nat)
    ensures var r := Construct(meta, st, cls, fuel);
      && Extends(st, r.1)
      && (IdsBelow(st) ==> IdsBelow(r.1))
      && (r.0.Ok? ==> r.0.value.cls == cls && st.nextId <= r.0.value.id < r.1.nextId)
    decreases fuel, 3
  {
    ConstructorParamsGrows(meta, st, cls, fuel);
  }

  lemma {:induction false} ConstructorParamsGrows(meta: Meta, st: State, cls: ClassName, fuel: nat)
    ensures var r := ConstructorParams(meta, st, cls, fuel);
      Extends(st, r.1) && (IdsBelow(st) ==> IdsBelow(r.1))
    decreases fuel, 2
  {
    match Info(meta, cls).ctor
    case None =>
    case Some(ps) => BuildArgsGrows(meta, st, ps, 0, [], fuel);
  }

  lemma {:induction false} BuildArgsGrows(meta: Meta, st: State, ps: seq<Param>, i: nat, acc: seq<Value>, fuel: nat)
    requires i <= |ps|
    ensures var r := BuildArgs(meta, st, ps, i, acc, fuel);
      Extends(st, r.1) && (IdsBelow(st) ==> IdsBelow(r.1))
    decreases fuel, 1, |ps| - i
  {
    if i < |ps| {
      var v := ParamValue(meta, st, ps[i], fuel);
      ParamValueGrows(meta, st, ps[i], fuel);
      if v.0.Ok? {
        BuildArgsGrows(meta, v.1, ps, i + 1, acc + [v.0.value], fuel);
      }
    }
  }

  lemma {:induction false} ParamValueGrows(meta: Meta, st: State, p: Param, fuel: nat)
    ensures var r := ParamValue(meta, st, p, fuel);
      Extends(st, r.1) && (IdsBelow(st) ==> IdsBelow(r.1))
    decreases fuel, 0
  {
    if p.optionality.Required? && p.hint.ClassType? && fuel > 0 {
      ResolveGrows(meta, st, p.hint.cls, fuel - 1);
    }
  }

  // ---------------------------------------------------------------------------------------
  // The registry is keyed by class, and the aliases addService writes are sound.

  /** Every object is registered under its own class name, as addService stores it. */
  ghost predicate Keyed(st: State)
  {
    forall k :: k in st.services ==> st.services[k].cls == k
  }

  /** Every alias maps a type to a class whose objects are instances of it, as the aliases
      that addService derives from interfaces and parent classes do. */
  ghost predicate AliasesSound(meta: Meta, st: State)
  {
    forall k :: k in st.aliases ==> InstanceOf(meta, st.aliases[k], k)
  }

  /** `c` is `name`, or the class `name` is aliased to. */
  ghost predicate NameOrTarget(aliases: map<ClassName, ClassName>, name: ClassName, c: ClassName)
  {
    c == name || (name in aliases && c == aliases[name])
  }

  /** addService keeps the registry keyed by class and the aliases sound. */
  lemma RegisterKeeps(meta: Meta, st: State, inst: Instance)
    ensures Keyed(st) ==> Keyed(Register(meta, st, inst))
    ensures AliasesSound(meta, st) ==> AliasesSound(meta, Register(meta, st, inst))
  {
  }

  /** addAlias keeps the aliases sound when the class is an instance of the aliased type. */
  lemma SetAliasKeepsSound(meta: Meta, st: State, cls: ClassName, alias: ClassName, replace: bool)
    requires AliasesSound(meta, st) && InstanceOf(meta, cls, alias)
    ensures AliasesSound(meta, st.(aliases := SetAlias(st.aliases, cls, alias, replace)))
  {
  }

  /** Resolution keeps both invariants, and in a keyed registry getService(name) answers an
      object of class `name` or of the class `name` is aliased to. */
  lemma {:induction false} ResolveKeyed(meta: Meta, st: State, name: ClassName, fuel: nat)
    ensures var r := Resolve(meta, st, name, fuel);
      && (Keyed(st) ==> Keyed(r.1) && (r.0.Ok? ==> NameOrTarget(st.aliases, name, r.0.value.cls)))
      && (AliasesSound(meta, st) ==> AliasesSound(meta, r.1))
    decreases fuel, 5
  {
    if name !in st.services {
      var cls := AliasTarget(st, name);
      if ClassExists(meta, cls) && !Info(meta, cls).isInterface && !IsService(meta, cls) {
        var built := Instantiate(meta, st, cls, fuel);
        InstantiateKeyed(meta, st, cls, fuel);
        InstantiateGrows(meta, st, cls, fuel);
        if built.0.Ok? {
          RegisterKeeps(meta, built.1, built.0.value);
        }
      }
    }
  }

  lemma {:induction false} InstantiateKeyed(meta: Meta, st: State, cls: ClassName, fuel: nat)
    ensures var r := Instantiate(meta, st, cls, fuel);
      && (Keyed(st) ==> Keyed(r.1))
      && (AliasesSound(meta, st) ==> AliasesSound(meta, r.1))
    decreases fuel, 4
  {
    ConstructKeyed(meta, st, cls, fuel);
  }

  lemma {:induction false} ConstructKeyed(meta: Meta, st: State, cls: ClassName, fuel: nat)
    ensures var r := Construct(meta, st, cls, fuel);
      && (Keyed(st) ==> Keyed(r.1))
      && (AliasesSound(meta, st) ==> AliasesSound(meta, r.1))
    decreases fuel, 3
  {
    ConstructorParamsKeyed(meta, st, cls, fuel);
  }

  lemma {:induction false} ConstructorParamsKeyed(meta: Meta, st: State, cls: ClassName, fuel: nat)
    ensures var r := ConstructorParams(meta, st, cls, fuel);
      && (Keyed(st) ==> Keyed(r.1))
      && (AliasesSound(meta, st) ==> AliasesSound(meta, r.1))
    decreases fuel, 2
  {
    match Info(meta, cls).ctor
    case None =>
    case Some(ps) => BuildArgsKeyed(meta, st, ps, 0, [], fuel);
  }

  lemma {:induction false} BuildArgsKeyed(meta: Meta, st: State, ps: seq<Param>, i: nat, acc: seq<Value>, fuel: nat)
    requires i <= |ps|
    ensures var r := BuildArgs(meta, st, ps, i, acc, fuel);
      && (Keyed(st) ==> Keyed(r.1))
      && (AliasesSound(meta, st) ==> AliasesSound(meta, r.1))
    decreases fuel, 1, |ps| - i
  {
    if i < |ps| {
      var v := ParamValue(meta, st, ps[i], fuel);
      ParamValueKeyed(meta, st, ps[i], fuel);
      if v.0.Ok? {
        BuildArgsKeyed(meta, v.1, ps, i + 1, acc + [v.0.value], fuel);
      }
    }
  }

  /** The object injected for a required class-typed parameter is of the declared class or
      of the class that type is aliased to. */
  lemma {:induction false} ParamValueKeyed(meta: Meta, st: State, p: Param, fuel: nat)
    ensures var r := ParamValue(meta, st, p, fuel);
      && (Keyed(st) ==> Keyed(r.1))
      && (AliasesSound(meta, st) ==> AliasesSound(meta, r.1))
      && (Keyed(st) && r.0.Ok? && p.optionality.Required? && p.hint.ClassType? ==>
            r.0.value.Obj? && NameOrTarget(st.aliases, p.hint.cls, r.0.value.inst.cls))
    decreases fuel, 0
  {
    if p.optionality.Required? && p.hint.ClassType? && fuel > 0 {
      ResolveKeyed(meta, st, p.hint.cls, fuel - 1);
    }
  }

  // ---------------------------------------------------------------------------------------
  // The registry check, the guards and the registration of a new instance.

  /** The name under which a successful getService(name) leaves its result registered. */
  function Concrete(st: State, name: ClassName): (cls: ClassName)
  {
    if name in st.services then name else AliasTarget(st, name)
  }

  /** A registered name is answered from the registry and nothing changes. */
  lemma ResolveRegistered(meta: Meta, st: State, name: ClassName, fuel: nat)
    requires name in st.services
    ensures Resolve(meta, st, name, fuel) == (Ok(st.services[name]), st)
  {
  }

  /** The guards run after one alias hop, in this order, and leave the state as it was. */
  lemma ResolveGuards(meta: Meta, st: State, name: ClassName, fuel: nat)
    requires name !in st.services
    ensures var cls := AliasTarget(st, name);
      && (!ClassExists(meta, cls) ==>
            Resolve(meta, st, name, fuel) == (Err(ClassNotFound(cls)), st))
      && (ClassExists(meta, cls) && Info(meta, cls).isInterface ==>
            Resolve(meta, st, name, fuel) == (Err(InterfaceWithoutAlias(cls)), st))
      && (ClassExists(meta, cls) && !Info(meta, cls).isInterface && IsService(meta, cls) ==>
            Resolve(meta, st, name, fuel) == (Err(NotAnObject(cls)), st))
  {
  }

  /** A successful getService(name) leaves its result registered under the name it resolved
      to, and the object is of that class unless it came from the registry. */
  lemma ResolveRegisters(meta: Meta, st: State, name: ClassName, fuel: nat)
    ensures var r := Resolve(meta, st, name, fuel);
      r.0.Ok? ==>
        && Concrete(st, name) in r.1.services
        && r.1.services[Concrete(st, name)] == r.0.value
        && (name !in st.services ==> r.0.value.cls == AliasTarget(st, name))
  {
    if name !in st.services {
      var cls := AliasTarget(st, name);
      if ClassExists(meta, cls) && !Info(meta, cls).isInterface && !IsService(meta, cls) {
        InstantiateGrows(meta, st, cls, fuel);
      }
    }
  }

  /** Singleton: once getService(name) succeeds for a name that is not an alias of another
      class, asking again returns the same object and changes nothing. */
  lemma ResolveTwice(meta: Meta, st: State, name: ClassName, fuel: nat, fuel': nat)
    requires name in st.services || name !in st.aliases || st.aliases[name] == name
    ensures var r := Resolve(meta, st, name, fuel);
      r.0.Ok? ==> Resolve(meta, r.1, name, fuel') == r
  {
    ResolveRegisters(meta, st, name, fuel);
  }

  /** An object given to addService is what getService of its class then returns. */
  lemma AddedServiceIsResolved(meta: Meta, st: State, inst: Instance, fuel: nat)
    ensures var st' := Registry.AddService(meta, st, Obj(inst)).1;
      Resolve(meta, st', inst.cls, fuel) == (Ok(inst), st')
  {
  }

  /** getService through an alias does not look in the registry under the class name: even
      when that class is registered, a new object is built and replaces it there. */
  lemma AliasedNameRebuilds(meta: Meta, st: State, name: ClassName, fuel: nat)
    requires IdsBelow(st)
    requires name !in st.services && name in st.aliases && st.aliases[name] in st.services
    ensures var r := Resolve(meta, st, name, fuel);
      r.0.Ok? ==>
        && r.0.value != st.services[st.aliases[name]]
        && st.aliases[name] in r.1.services
        && r.1.services[st.aliases[name]] == r.0.value
  {
    var cls := st.aliases[name];
    if ClassExists(meta, cls) && !Info(meta, cls).isInterface && !IsService(meta, cls) {
      InstantiateGrows(meta, st, cls, fuel);
    }
    ResolveRegisters(meta, st, name, fuel);
  }

  /** class_exists() as PHP answers it: true for classes, false for interfaces. */
  ghost predicate PhpClassExists(meta: Meta)
  {
    forall c :: c in meta.existing <==> c in meta.classes && !meta.classes[c].isInterface
  }

  /** With PHP's class_exists(), an interface that is neither registered nor aliased fails the
      existence check, before the interface check is reached. */
  lemma UnaliasedInterfaceNotFound(meta: Meta, st: State, name: ClassName, fuel: nat)
    requires PhpClassExists(meta)
    requires name in meta.classes && meta.classes[name].isInterface
    requires name !in st.services && name !in st.aliases
    ensures Resolve(meta, st, name, fuel) == (Err(ClassNotFound(name)), st)
  {
  }

  // ---------------------------------------------------------------------------------------
  // instantiate(): the catch clauses, and the failures that come after the arguments.

  /** The manager's exceptions pass through instantiate() unchanged; any other throwable is
      wrapped with the class name; the state is that left by the try block. */
  lemma InstantiateCatches(meta: Meta, st: State, cls: ClassName, fuel: nat)
    ensures var c := Construct(meta, st, cls, fuel);
      var r := Instantiate(meta, st, cls, fuel);
      && r.1 == c.1
      && (r.0.Ok? <==> c.0.Ok?)
      && (c.0.Ok? ==> r.0.value == c.0.value)
      && (c.0.Err? && c.0.error.Managed? ==> r.0.error == c.0.error.error)
      && (c.0.Err? && c.0.error.Foreign? ==> r.0.error == InstantiationFailed(cls, c.0.error.fault))
  {
  }

  /** A class without __construct cannot be instantiated, and nothing changes. */
  lemma MissingConstructorFails(meta: Meta, st: State, cls: ClassName, fuel: nat)
    requires Info(meta, cls).ctor.None?
    ensures Instantiate(meta, st, cls, fuel) == (Err(InstantiationFailed(cls, MissingConstructor)), st)
  {
    assert ConstructorParams(meta, st, cls, fuel) == (Err(Foreign(MissingConstructor)), st);
  }

  /** An abstract class passes the guards; its constructor arguments are still built (and
      their dependencies registered) before newInstanceArgs refuses it. */
  lemma AbstractClassFailsAfterArguments(meta: Meta, st: State, cls: ClassName, fuel: nat)
    requires Info(meta, cls).isAbstract
    ensures var p := ConstructorParams(meta, st, cls, fuel);
      var r := Instantiate(meta, st, cls, fuel);
      && r.0.Err?
      && r.1 == p.1
      && (p.0.Ok? ==> r.0.error == InstantiationFailed(cls, AbstractClass))
  {
  }

  /** A constructor that throws, once its arguments are built, raises its exception through
      the catch clauses: one of the manager's own passes unchanged, any other is wrapped. */
  lemma ConstructorExceptionCaught(meta: Meta, st: State, cls: ClassName, fuel: nat)
    requires !Info(meta, cls).isAbstract && Info(meta, cls).ctorThrows.Some?
    requires var p := ConstructorParams(meta, st, cls, fuel);
      p.0.Ok? && ArgsTypeCheck(meta, cls, p.0.value)
    ensures var thrown := Info(meta, cls).ctorThrows.value;
      var r := Instantiate(meta, st, cls, fuel);
      && r.1 == ConstructorParams(meta, st, cls, fuel).1
      && (thrown.Managed? ==> r.0 == Err(thrown.error))
      && (thrown.Foreign? ==> r.0 == Err(InstantiationFailed(cls, thrown.fault)))
  {
  }

  /** Arguments that fail PHP's type check make newInstanceArgs throw a TypeError, which
      instantiate() wraps; the state is the one building the arguments left. */
  lemma ArgumentTypeErrorCaught(meta: Meta, st: State, cls: ClassName, fuel: nat)
    requires !Info(meta, cls).isAbstract
    requires var p := ConstructorParams(meta, st, cls, fuel);
      p.0.Ok? && !ArgsTypeCheck(meta, cls, p.0.value)
    ensures Instantiate(meta, st, cls, fuel)
      == (Err(InstantiationFailed(cls, ArgumentTypeError)), ConstructorParams(meta, st, cls, fuel).1)
  {
  }

  // ---------------------------------------------------------------------------------------
  // getCustructorParams(): one argument per parameter, in order; the first failure stops.

  /** What argument a parameter receives when the arguments are built successfully. */
  ghost predicate ArgFits(p: Param, v: Value)
  {
    match p.optionality
    case Optional(d) => v == d
    case Variadic => false
    case Required => p.hint.ClassType? && v.Obj?
  }

  /** The argument for a required class-typed parameter is an object of the declared class or
      of the class that type is aliased to. */
  ghost predicate ArgResolved(aliases: map<ClassName, ClassName>, p: Param, v: Value)
  {
    p.optionality.Required? && p.hint.ClassType? ==> v.Obj? && NameOrTarget(aliases, p.hint.cls, v.inst.cls)
  }

  lemma {:induction false} BuildArgsShape(meta: Meta, st: State, ps: seq<Param>, i: nat, acc: seq<Value>, fuel: nat)
    requires i <= |ps|
    ensures var r := BuildArgs(meta, st, ps, i, acc, fuel);
      r.0.Ok? ==>
        && |r.0.value| == |acc| + |ps| - i
        && r.0.value[..|acc|] == acc
        && (forall j :: i <= j < |ps| ==> ArgFits(ps[j], r.0.value[|acc| + j - i]))
        && (Keyed(st) ==> forall j :: i <= j < |ps| ==> ArgResolved(r.1.aliases, ps[j], r.0.value[|acc| + j - i]))
    decreases |ps| - i
  {
    if i < |ps| {
      var v := ParamValue(meta, st, ps[i], fuel);
      if v.0.Ok? {
        var acc' := acc + [v.0.value];
        BuildArgsShape(meta, v.1, ps, i + 1, acc', fuel);
        var r := BuildArgs(meta, v.1, ps, i + 1, acc', fuel);
        if r.0.Ok? {
          assert r.0.value[..|acc'|][..|acc|] == r.0.value[..|acc|];
          assert r.0.value[|acc|] == r.0.value[..|acc'|][|acc|];
          if Keyed(st) {
            ParamValueKeyed(meta, st, ps[i], fuel);
            ParamValueGrows(meta, st, ps[i], fuel);
            BuildArgsGrows(meta, v.1, ps, i + 1, acc', fuel);
            assert ArgResolved(r.1.aliases, ps[i], r.0.value[|acc|]);
          }
        }
      }
    }
  }

  /** A constructed object holds one argument per constructor parameter, in declaration
      order: the default for an optional one, and for a required class-typed one an object of
      the declared class or of the class it is aliased to. */
  lemma ConstructedArgsFitParams(meta: Meta, st: State, cls: ClassName, fuel: nat)
    ensures var r := Construct(meta, st, cls, fuel);
      r.0.Ok? ==>
        && Info(meta, cls).ctor.Some?
        && var ps := Info(meta, cls).ctor.value;
        && |r.0.value.args| == |ps|
        && (forall j :: 0 <= j < |ps| ==> ArgFits(ps[j], r.0.value.args[j]))
        && (Keyed(st) ==> forall j :: 0 <= j < |ps| ==> ArgResolved(r.1.aliases, ps[j], r.0.value.args[j]))
  {
    if Info(meta, cls).ctor.Some? {
      BuildArgsShape(meta, st, Info(meta, cls).ctor.value, 0, [], fuel);
    }
  }

  /** With a keyed registry and sound aliases, the arguments built for a constructor always
      pass PHP's type check: a TypeError needs an alias written by addAlias to a class that
      is not an instance of the aliased type. */
  lemma SoundAliasesTypeCheck(meta: Meta, st: State, cls: ClassName, fuel: nat)
    requires Keyed(st) && AliasesSound(meta, st)
    ensures var p := ConstructorParams(meta, st, cls, fuel);
      p.0.Ok? ==> ArgsTypeCheck(meta, cls, p.0.value)
  {
    var p := ConstructorParams(meta, st, cls, fuel);
    if p.0.Ok? {
      var ps := Info(meta, cls).ctor.value;
      BuildArgsShape(meta, st, ps, 0, [], fuel);
      ConstructorParamsKeyed(meta, st, cls, fuel);
      assert forall j :: 0 <= j < |ps| ==> ArgResolved(p.1.aliases, ps[j], p.0.value[j]);
    }
  }

  /** Once a parameter fails, the parameters after it are never looked at. */
  lemma {:induction false} FailureStopsArgs(meta: Meta, st: State, ps: seq<Param>, more: seq<Param>, i: nat, acc: seq<Value>, fuel: nat)
    requires i <= |ps|
    requires BuildArgs(meta, st, ps, i, acc, fuel).0.Err?
    ensures BuildArgs(meta, st, ps + more, i, acc, fuel) == BuildArgs(meta, st, ps, i, acc, fuel)
    decreases |ps| - i
  {
    assert (ps + more)[i] == ps[i];
    var v := ParamValue(meta, st, ps[i], fuel);
    if v.0.Ok? {
      FailureStopsArgs(meta, v.1, ps, more, i + 1, acc + [v.0.value], fuel);
    }
  }

  /** A required parameter that is untyped or has a builtin type. */
  predicate NotInjectable(p: Param)
  {
    p.optionality.Required? && !p.hint.ClassType?
  }

  function ParamTypeReasonOf(p: Param): (reason: ParamTypeReason)
    requires NotInjectable(p)
  {
    if p.hint.Untyped? then MissingTypeHint else BuiltinTypeHint(p.hint.typeName)
  }

  /** If parameter k is not injectable and all before it are optional with defaults, building
      the arguments fails with k's 1-based position and changes nothing. */
  lemma {:induction false} ParamTypeErrorAt(meta: Meta, st: State, ps: seq<Param>, k: nat, i: nat, acc: seq<Value>, fuel: nat)
    requires i <= k < |ps|
    requires forall j :: i <= j < k ==> ps[j].optionality.Optional?
    requires NotInjectable(ps[k])
    ensures BuildArgs(meta, st, ps, i, acc, fuel)
      == (Err(Managed(ParamFailed(ps[k].name, k + 1, ParamTypeReasonOf(ps[k])))), st)
    decreases k - i
  {
    if i < k {
      ParamTypeErrorAt(meta, st, ps, k, i + 1, acc + [ps[i].optionality.default], fuel);
    }
  }

  /** Building the arguments of `ps` runs the first k parameters, then carries on from k
      with what they built and the state they left. */
  lemma {:induction false} BuildArgsPrefix(meta: Meta, st: State, ps: seq<Param>, k: nat, i: nat, acc: seq<Value>, fuel: nat)
    requires i <= k <= |ps|
    requires BuildArgs(meta, st, ps[..k], i, acc, fuel).0.Ok?
    ensures var pre := BuildArgs(meta, st, ps[..k], i, acc, fuel);
      BuildArgs(meta, st, ps, i, acc, fuel) == BuildArgs(meta, pre.1, ps, k, pre.0.value, fuel)
    decreases k - i
  {
    if i < k {
      assert ps[..k][i] == ps[i];
      var v := ParamValue(meta, st, ps[i], fuel);
      BuildArgsPrefix(meta, v.1, ps, k, i + 1, acc + [v.0.value], fuel);
    }
  }

  /** getService of a class whose constructor parameter k is required and untyped or
      builtin-typed: once the parameters before it are built (their dependencies resolved and
      registered), it fails with a ServiceManagerException naming parameter k, and the state
      is the one those earlier parameters left. */
  lemma ResolveParamTypeError(meta: Meta, st: State, name: ClassName, k: nat, fuel: nat)
    requires name !in st.services
    requires var cls := AliasTarget(st, name);
      && ClassExists(meta, cls) && !Info(meta, cls).isInterface && !IsService(meta, cls)
      && Info(meta, cls).ctor.Some? && k < |Info(meta, cls).ctor.value|
    requires var ps := Info(meta, AliasTarget(st, name)).ctor.value;
      && BuildArgs(meta, st, ps[..k], 0, [], fuel).0.Ok?
      && NotInjectable(ps[k])
    ensures var ps := Info(meta, AliasTarget(st, name)).ctor.value;
      Resolve(meta, st, name, fuel)
        == (Err(ParamFailed(ps[k].name, k + 1, ParamTypeReasonOf(ps[k]))), BuildArgs(meta, st, ps[..k], 0, [], fuel).1)
  {
    var cls := AliasTarget(st, name);
    var ps := Info(meta, cls).ctor.value;
    var pre := BuildArgs(meta, st, ps[..k], 0, [], fuel);
    var failure := Managed(ParamFailed(ps[k].name, k + 1, ParamTypeReasonOf(ps[k])));
    BuildArgsPrefix(meta, st, ps, k, 0, [], fuel);
    ParamTypeErrorAt(meta, pre.1, ps, k, k, pre.0.value, fuel);
    assert ConstructorParams(meta, st, cls, fuel) == (Err(failure), pre.1);
    assert Construct(meta, st, cls, fuel) == (Err(failure), pre.1);
    assert Instantiate(meta, st, cls, fuel) == (Err(failure.error), pre.1);
  }

  /** A class with any required untyped or builtin-typed constructor parameter can never be
      built: getService of it fails, whichever error comes first. */
  lemma NotInjectableParamFails(meta: Meta, st: State, name: ClassName, k: nat, fuel: nat)
    requires name !in st.services
    requires var ctor := Info(meta, AliasTarget(st, name)).ctor;
      ctor.Some? && k < |ctor.value| && NotInjectable(ctor.value[k])
    ensures Resolve(meta, st, name, fuel).0.Err?
  {
    var cls := AliasTarget(st, name);
    InstantiateCatches(meta, st, cls, fuel);
    ConstructedArgsFitParams(meta, st, cls, fuel);
  }

  // ---------------------------------------------------------------------------------------
  // Fuel only bounds the depth: a run that does not run out gives the same answer with more.

  predicate OutOfFuel<T>(r: Result<T, Error>)
  {
    r.Err? && r.error.DepthExceeded?
  }

  predicate RaisedOutOfFuel<T>(r: Result<T, Raised>)
  {
    r.Err? && r.error.Managed? && r.error.error.DepthExceeded?
  }

  lemma {:induction false} ResolveFuel(meta: Meta, st: State, name: ClassName, fuel: nat, more: nat)
    requires fuel <= more
    requires !OutOfFuel(Resolve(meta, st, name, fuel).0)
    ensures Resolve(meta, st, name, more) == Resolve(meta, st, name, fuel)
    decreases fuel, 5
  {
    if name !in st.services {
      var cls := AliasTarget(st, name);
      if ClassExists(meta, cls) && !Info(meta, cls).isInterface && !IsService(meta, cls) {
        InstantiateFuel(meta, st, cls, fuel, more);
      }
    }
  }

  lemma {:induction false} InstantiateFuel(meta: Meta, st: State, cls: ClassName, fuel: nat, more: nat)
    requires fuel <= more
    requires !OutOfFuel(Instantiate(meta, st, cls, fuel).0)
    ensures Instantiate(meta, st, cls, more) == Instantiate(meta, st, cls, fuel)
    decreases fuel, 4
  {
    ConstructFuel(meta, st, cls, fuel, more);
  }

  lemma {:induction false} ConstructFuel(meta: Meta, st: State, cls: ClassName, fuel: nat, more: nat)
    requires fuel <= more
    requires !RaisedOutOfFuel(Construct(meta, st, cls, fuel).0)
    ensures Construct(meta, st, cls, more) == Construct(meta, st, cls, fuel)
    decreases fuel, 3
  {
    ConstructorParamsFuel(meta, st, cls, fuel, more);
  }

  lemma {:induction false} ConstructorParamsFuel(meta: Meta, st: State, cls: ClassName, fuel: nat, more: nat)
    requires fuel <= more
    requires !RaisedOutOfFuel(ConstructorParams(meta, st, cls, fuel).0)
    ensures ConstructorParams(meta, st, cls, more) == ConstructorParams(meta, st, cls, fuel)
    decreases fuel, 2
  {
    match Info(meta, cls).ctor
    case None =>
    case Some(ps) => BuildArgsFuel(meta, st, ps, 0, [], fuel, more);
  }

  lemma {:induction false} BuildArgsFuel(meta: Meta, st: State, ps: seq<Param>, i: nat, acc: seq<Value>, fuel: nat, more: nat)
    requires i <= |ps|
    requires fuel <= more
    requires !RaisedOutOfFuel(BuildArgs(meta, st, ps, i, acc, fuel).0)
    ensures BuildArgs(meta, st, ps, i, acc, more) == BuildArgs(meta, st, ps, i, acc, fuel)
    decreases fuel, 1, |ps| - i
  {
    if i < |ps| {
      var v := ParamValue(meta, st, ps[i], fuel);
      ParamValueFuel(meta, st, ps[i], fuel, more);
      if v.0.Ok? {
        BuildArgsFuel(meta, v.1, ps, i + 1, acc + [v.0.value], fuel, more);
      }
    }
  }

  lemma {:induction false} ParamValueFuel(meta: Meta, st: State, p: Param, fuel: nat, more: nat)
    requires fuel <= more
    requires !RaisedOutOfFuel(ParamValue(meta, st, p, fuel).0)
    ensures ParamValue(meta, st, p, more) == ParamValue(meta, st, p, fuel)
    decreases fuel, 0
  {
    if p.optionality.Required? && p.hint.ClassType? {
      ResolveFuel(meta, st, p.hint.cls, fuel - 1, more - 1);
    }
  }

  // ---------------------------------------------------------------------------------------
  // The manager's own registration.

  /** What reflection says about the ServiceManager class itself. */
  ghost predicate DescribesManager(meta: Meta)
  {
    && ClassExists(meta, SERVICE_MANAGER)
    && Info(meta, SERVICE_MANAGER) == ClassInfo(false, false, [SERVICE_INTERFACE], [], Some([]), None)
  }

  /** After __construct the manager is its own service and ServiceInterface aliases to it. */
  lemma BootstrapState(meta: Meta)
    requires DescribesManager(meta)
    ensures Bootstrap(meta).aliases == map[SERVICE_INTERFACE := SERVICE_MANAGER]
  {
  }

  /** The manager's own identity is below the counter, so the freshness lemmas apply from
      construction on (and, by ResolveGrows, after every resolution). */
  lemma BootstrapIdsBelow(meta: Meta)
    ensures IdsBelow(Bootstrap(meta))
  {
  }

  /** After __construct the registry is keyed by class and its aliases are sound. */
  lemma BootstrapKeyed(meta: Meta)
    ensures Keyed(Bootstrap(meta)) && AliasesSound(meta, Bootstrap(meta))
  {
  }

  /** getService(ServiceManager) hands out the manager itself; getService(ServiceInterface)
      follows the alias to ServiceManager and is refused, as that class is a service. */
  lemma BootstrapResolution(meta: Meta, fuel: nat)
    requires DescribesManager(meta)
    ensures Resolve(meta, Bootstrap(meta), SERVICE_MANAGER, fuel) == (Ok(SELF), Bootstrap(meta))
    ensures Resolve(meta, Bootstrap(meta), SERVICE_INTERFACE, fuel) == (Err(NotAnObject(SERVICE_MANAGER)), Bootstrap(meta))
  {
  }

  // ---------------------------------------------------------------------------------------
  // Aliases written with and without `replace`.

  /** Two non-replacing addAlias calls for the same alias keep the first target; a replacing
      second call installs its own. */
  lemma SecondAliasCall(aliases: map<ClassName, ClassName>, alias: ClassName, first: ClassName, second: ClassName)
    requires alias !in aliases
    ensures SetAlias(SetAlias(aliases, first, alias, false), second, alias, false)[alias] == first
    ensures SetAlias(SetAlias(aliases, first, alias, false), second, alias, true)[alias] == second
  {
  }

  // ---------------------------------------------------------------------------------------
  // A worked example: a Service whose constructor takes a Logger.

  const LOGGER: ClassName := "App\\Logger"
  const SERVICE: ClassName := "App\\Service"

  function ExampleMeta(): (meta: Meta)
  {
    Meta(
      map[
        SERVICE_MANAGER := ClassInfo(false, false, [SERVICE_INTERFACE], [], Some([]), None),
        LOGGER := ClassInfo(false, false, [], [], Some([]), None),
        SERVICE := ClassInfo(false, false, [], [], Some([Param("logger", ClassType(LOGGER), Required)]), None)],
      {SERVICE_MANAGER, LOGGER, SERVICE})
  }

  /** getService(Service) builds one Logger, injects it and returns the Service; getService(Logger)
      afterwards returns that same Logger. */
  lemma LoggerServiceExample(fuel: nat)
    requires fuel >= 1
    ensures var r := Resolve(ExampleMeta(), Bootstrap(ExampleMeta()), SERVICE, fuel);
      var logger := Instance(1, LOGGER, []);
      && r.0 == Ok(Instance(2, SERVICE, [Obj(logger)]))
      && Resolve(ExampleMeta(), r.1, LOGGER, 0) == (Ok(logger), r.1)
  {
    var meta := ExampleMeta();
    var st0 := Bootstrap(meta);
    BootstrapState(meta);
    assert SERVICE !in st0.services && SERVICE !in st0.aliases;
    assert LOGGER !in st0.services && LOGGER !in st0.aliases;
    var logger := Instance(1, LOGGER, []);
    assert Info(meta, LOGGER) == ClassInfo(false, false, [], [], Some([]), None);
    assert ConstructorParams(meta, st0, LOGGER, fuel - 1) == (Ok([]), st0);
    assert Construct(meta, st0, LOGGER, fuel - 1) == (Ok(logger), st0.(nextId := 2));
    var st1 := Register(meta, st0.(nextId := 2), logger);
    assert Resolve(meta, st0, LOGGER, fuel - 1) == (Ok(logger), st1);
    var p := Param("logger", ClassType(LOGGER), Required);
    assert ParamValue(meta, st0, p, fuel) == (Ok(Obj(logger)), st1);
    assert BuildArgs(meta, st1, [p], 1, [Obj(logger)], fuel) == (Ok([Obj(logger)]), st1);
    assert [p][0] == p && [] + [Obj(logger)] == [Obj(logger)];
    assert BuildArgs(meta, st0, [p], 0, [], fuel) == (Ok([Obj(logger)]), st1);
    var service := Instance(2, SERVICE, [Obj(logger)]);
    assert Construct(meta, st0, SERVICE, fuel) == (Ok(service), st1.(nextId := 3));
    var st2 := Register(meta, st1.(nextId := 3), service);
    assert Resolve(meta, st0, SERVICE, fuel) == (Ok(service), st2);
    assert LOGGER in st2.services && st2.services[LOGGER] == logger;
  }

  // ---------------------------------------------------------------------------------------
  // A worked example: addAlias to a class that does not implement the aliased interface.

  const FOO_INTERFACE: ClassName := "App\\FooInterface"
  const UNRELATED: ClassName := "App\\Unrelated"
  const CLIENT: ClassName := "App\\Client"

  function MisaliasMeta(): (meta: Meta)
  {
    Meta(
      map[
        SERVICE_MANAGER := ClassInfo(false, false, [SERVICE_INTERFACE], [], Some([]), None),
        FOO_INTERFACE := ClassInfo(true, false, [], [], None, None),
        UNRELATED := ClassInfo(false, false, [], [], Some([]), None),
        CLIENT := ClassInfo(false, false, [], [], Some([Param("foo", ClassType(FOO_INTERFACE), Required)]), None)],
      {SERVICE_MANAGER, UNRELATED, CLIENT})
  }

  /** After addAlias(Unrelated, FooInterface), getService(Client) builds and registers an
      Unrelated for Client's FooInterface parameter, and then newInstanceArgs throws a
      TypeError, which instantiate() wraps. */
  lemma MisaliasedDependencyFails(fuel: nat)
    requires fuel >= 1
    ensures var meta := MisaliasMeta();
      var st := Bootstrap(meta).(aliases := SetAlias(Bootstrap(meta).aliases, UNRELATED, FOO_INTERFACE, true));
      var r := Resolve(meta, st, CLIENT, fuel);
      && !AliasesSound(meta, st)
      && r.0 == Err(InstantiationFailed(CLIENT, ArgumentTypeError))
      && UNRELATED in r.1.services && r.1.services[UNRELATED] == Instance(1, UNRELATED, [])
  {
    var meta := MisaliasMeta();
    var st0 := Bootstrap(meta);
    BootstrapState(meta);
    var st := st0.(aliases := SetAlias(st0.aliases, UNRELATED, FOO_INTERFACE, true));
    assert st.aliases == map[SERVICE_INTERFACE := SERVICE_MANAGER, FOO_INTERFACE := UNRELATED];
    assert !InstanceOf(meta, UNRELATED, FOO_INTERFACE);
    var unrelated := Instance(1, UNRELATED, []);
    assert Info(meta, UNRELATED) == ClassInfo(false, false, [], [], Some([]), None);
    assert ConstructorParams(meta, st, UNRELATED, fuel - 1) == (Ok([]), st);
    assert Construct(meta, st, UNRELATED, fuel - 1) == (Ok(unrelated), st.(nextId := 2));
    var st1 := Register(meta, st.(nextId := 2), unrelated);
    assert Resolve(meta, st, FOO_INTERFACE, fuel - 1) == (Ok(unrelated), st1);
    var p := Param("foo", ClassType(FOO_INTERFACE), Required);
    assert ParamValue(meta, st, p, fuel) == (Ok(Obj(unrelated)), st1);
    assert BuildArgs(meta, st1, [p], 1, [Obj(unrelated)], fuel) == (Ok([Obj(unrelated)]), st1);
    assert [p][0] == p && [] + [Obj(unrelated)] == [Obj(unrelated)];
    assert BuildArgs(meta, st, [p], 0, [], fuel) == (Ok([Obj(unrelated)]), st1);
    assert !ArgsTypeCheck(meta, CLIENT, [Obj(unrelated)]);
    assert Construct(meta, st, CLIENT, fuel) == (Err(Foreign(ArgumentTypeError)), st1);
    assert UNRELATED in st1.services;
  }
}
