/** The resolution algorithm of getService as functions on the manager's state: each function
    returns its result together with the state after it, so the order in which constructor
    dependencies are resolved and registered is part of the specification.

    The source recurses without bound; here the recursion into a class-typed constructor
    parameter spends one unit of `fuel`, and running out of it is the error DepthExceeded. */
module Resolution {
  import opened Types
  import opened Registry

  /** The name getService works on after following at most one alias. */
  function AliasTarget(st: State, name: ClassName): (cls: ClassName)
  {
    if name in st.aliases then st.aliases[name] else name
  }

  /** getService(name): a registered instance is returned as is; otherwise the (aliased)
      class is checked, instantiated and registered. */
  function Resolve(meta: Meta, st: State, name: ClassName, fuel: nat): (r: (Result<Instance, Error>, State))
    decreases fuel, 5
  {
    if name in st.services then (Ok(st.services[name]), st)
    else
      var cls := AliasTarget(st, name);
      if !ClassExists(meta, cls) then (Err(ClassNotFound(cls)), st)
      else if Info(meta, cls).isInterface then (Err(InterfaceWithoutAlias(cls)), st)
      else if IsService(meta, cls) then (Err(NotAnObject(cls)), st)
      else
        var built := Instantiate(meta, st, cls, fuel);
        match built.0
        case Err(e) => (Err(e), built.1)
        case Ok(inst) => (Ok(inst), Register(meta, built.1, inst))
  }

  /** The catch clauses of instantiate(): the manager's own exceptions pass unchanged,
      anything else is wrapped with the class being instantiated. */
  function Catch(cls: ClassName, x: Raised): (e: Error)
  {
    match x
    case Managed(e) => e
    case Foreign(f) => InstantiationFailed(cls, f)
  }

  /** instantiate(): the try block, with what it raises passed through Catch. */
  function Instantiate(meta: Meta, st: State, cls: ClassName, fuel: nat): (r: (Result<Instance, Error>, State))
    decreases fuel, 4
  {
    var attempt := Construct(meta, st, cls, fuel);
    match attempt.0
    case Ok(inst) => (Ok(inst), attempt.1)
    case Err(x) => (Err(Catch(cls, x)), attempt.1)
  }

  /** The try block of instantiate(): newInstanceArgs over the constructor arguments. */
  function Construct(meta: Meta, st: State, cls: ClassName, fuel: nat): (r: (Result<Instance, Raised>, State))
    decreases fuel, 3
  {
    var params := ConstructorParams(meta, st, cls, fuel);
    match params.0
    case Err(x) => (Err(x), params.1)
    case Ok(args) => NewInstance(meta, params.1, cls, args)
  }

  /** `instanceof`: an object of class `c` is an instance of type `t` when `t` is `c` itself,
      one of the interfaces `c` implements or one of its parent classes. */
  predicate InstanceOf(meta: Meta, c: ClassName, t: ClassName)
  {
    c == t || t in Info(meta, c).interfaces || t in Info(meta, c).parents
  }

  /** The check PHP makes when it calls the constructor of `cls` with `args`: the argument
      for each required class-typed parameter is an object of that type. (The defaults of
      optional parameters are checked against their types when the class is compiled.) */
  predicate ArgsTypeCheck(meta: Meta, cls: ClassName, args: seq<Value>)
  {
    match Info(meta, cls).ctor
    case None => true
    case Some(ps) =>
      forall j :: 0 <= j < |ps| && j < |args| && ps[j].optionality.Required? && ps[j].hint.ClassType? ==>
        args[j].Obj? && InstanceOf(meta, args[j].inst.cls, ps[j].hint.cls)
  }

  /** ReflectionClass::newInstanceArgs: an abstract class fails, an argument of the wrong type
      is a TypeError, a throwing constructor raises what it throws, and otherwise a fresh
      object of class `cls` holding `args` is made. */
  function NewInstance(meta: Meta, st: State, cls: ClassName, args: seq<Value>): (r: (Result<Instance, Raised>, State))
    ensures r.0.Ok? ==> r.0.value == Instance(st.nextId, cls, args) && r.1.nextId == st.nextId + 1
    ensures r.0.Err? ==> r.1 == st
    ensures r.0.Ok? <==>
      !Info(meta, cls).isAbstract && ArgsTypeCheck(meta, cls, args) && Info(meta, cls).ctorThrows.None?
    ensures !Info(meta, cls).isAbstract && !ArgsTypeCheck(meta, cls, args) ==>
      r.0 == Err(Foreign(ArgumentTypeError))
    ensures !Info(meta, cls).isAbstract && ArgsTypeCheck(meta, cls, args) && Info(meta, cls).ctorThrows.Some? ==>
      r.0 == Err(Info(meta, cls).ctorThrows.value)
    ensures r.1.services == st.services && r.1.aliases == st.aliases
  {
    var info := Info(meta, cls);
    if info.isAbstract then (Err(Foreign(AbstractClass)), st)
    else if !ArgsTypeCheck(meta, cls, args) then (Err(Foreign(ArgumentTypeError)), st)
    else if info.ctorThrows.Some? then (Err(info.ctorThrows.value), st)
    else (Ok(Instance(st.nextId, cls, args)), st.(nextId := st.nextId + 1))
  }

  /** getCustructorParams(): fails when the class has no `__construct`, otherwise builds one
      argument per parameter in declaration order. */
  function ConstructorParams(meta: Meta, st: State, cls: ClassName, fuel: nat): (r: (Result<seq<Value>, Raised>, State))
    decreases fuel, 2
  {
    match Info(meta, cls).ctor
    case None => (Err(Foreign(MissingConstructor)), st)
    case Some(ps) => BuildArgs(meta, st, ps, 0, [], fuel)
  }

  /** The loop of getCustructorParams() from parameter `i` on, with `acc` the arguments built
      so far. A ParamTypeException is rewrapped with the 1-based position of the parameter;
      the first failure ends the loop. */
  function BuildArgs(meta: Meta, st: State, ps: seq<Param>, i: nat, acc: seq<Value>, fuel: nat): (r: (Result<seq<Value>, Raised>, State))
    requires i <= |ps|
    decreases fuel, 1, |ps| - i
  {
    if i == |ps| then (Ok(acc), st)
    else
      var v := ParamValue(meta, st, ps[i], fuel);
      match v.0
      case Err(x) => (Err(Rewrap(ps[i], i, x)), v.1)
      case Ok(arg) => BuildArgs(meta, v.1, ps, i + 1, acc + [arg], fuel)
  }

  /** The catch clause of getCustructorParams(): only a ParamTypeException is rewrapped. */
  function Rewrap(p: Param, i: nat, x: Raised): (y: Raised)
  {
    if x.Managed? && x.error.ParamType? then Managed(ParamFailed(p.name, i + 1, x.error.reason))
    else x
  }

  /** getCustructorParamValue(): the default of an optional parameter, an error for a required
      parameter without a class type, and otherwise the resolved dependency. */
  function ParamValue(meta: Meta, st: State, p: Param, fuel: nat): (r: (Result<Value, Raised>, State))
    decreases fuel, 0
  {
    match p.optionality
    case Optional(d) => (Ok(d), st)
    case Variadic => (Err(Foreign(NoDefaultValue(p.name))), st)
    case Required =>
      match p.hint
      case Untyped => (Err(Managed(ParamType(MissingTypeHint))), st)
      case Builtin(t) => (Err(Managed(ParamType(BuiltinTypeHint(t)))), st)
      case ClassType(dep) =>
        if fuel == 0 then (Err(Managed(DepthExceeded(dep))), st)
        else
          var dependency := Resolve(meta, st, dep, fuel - 1);
          match dependency.0
          case Ok(inst) => (Ok(Obj(inst)), dependency.1)
          case Err(e) => (Err(Managed(e)), dependency.1)
  }
}
