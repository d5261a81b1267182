/** The ServiceManager object: its two maps are fields that the methods update in place,
    and every method is proved to leave exactly the state, and return exactly the result,
    that the functions of Registry and Resolution describe. */
module Manager {
  import opened Types
  import opened Registry
  import opened Resolution

  /** The manager as an object of its own class; it is the first object, so it has identity 0. */
  const SELF: Instance := Instance(0, SERVICE_MANAGER, [])

  /** The state __construct leaves: the manager registered under its own class name. */
  function Bootstrap(meta: Meta): (st: State)
    ensures st.services == map[SERVICE_MANAGER := SELF] && st.nextId == 1
  {
    Register(meta, State(map[], map[], 1), SELF)
  }

  class ServiceManager {
    /** The reflection metadata of the running program. */
    const meta: Meta
    var services: map<ClassName, Instance>
    var aliases: map<ClassName, ClassName>
    /** Identity of the next object this manager builds. */
    var nextId: nat

    /** The manager's fields as a value. */
    function Snapshot(): (st: State)
      reads this
    {
      State(services, aliases, nextId)
    }

    /** __construct: the manager registers itself, and so aliases its own interfaces to itself. */
    constructor (meta: Meta)
      ensures this.meta == meta
      ensures Snapshot() == Bootstrap(meta)
    {
      this.meta := meta;
      services := map[];
      aliases := map[];
      nextId := 1;
      new;
      var _ := AddService(Obj(SELF));
    }

    /** addService */
    method AddService(service: Value) returns (r: Result<(), Error>)
      modifies this
      ensures (r, Snapshot()) == Registry.AddService(meta, old(Snapshot()), service)
    {
      if !service.Obj? {
        return Err(NotAnObject(service.phpType));
      }
      var inst := service.inst;
      services := services[inst.cls := inst];
      var info := Info(meta, inst.cls);
      ghost var before := aliases;
      for i := 0 to |info.interfaces|
        invariant aliases == AddMissing(before, inst.cls, info.interfaces[..i])
        invariant services == old(services)[inst.cls := inst] && nextId == old(nextId)
      {
        assert info.interfaces[..i + 1][..i] == info.interfaces[..i];
        var _ := AddAlias(inst.cls, info.interfaces[i], false);
      }
      assert info.interfaces[..|info.interfaces|] == info.interfaces;
      ghost var withInterfaces := aliases;
      var k := 0;
      while k < |info.parents|
        invariant k <= |info.parents|
        invariant aliases == AddMissing(withInterfaces, inst.cls, info.parents[..k])
        invariant services == old(services)[inst.cls := inst] && nextId == old(nextId)
      {
        assert info.parents[..k + 1][..k] == info.parents[..k];
        var _ := AddAlias(inst.cls, info.parents[k], false);
        k := k + 1;
      }
      assert info.parents[..k] == info.parents;
      r := Ok(());
    }

    /** addAlias: the answer is always false, whether or not the alias was written. */
    method AddAlias(serviceClass: ClassName, alias: ClassName, replace: bool := true) returns (r: bool)
      modifies this
      ensures !r
      ensures aliases == SetAlias(old(aliases), serviceClass, alias, replace)
      ensures services == old(services) && nextId == old(nextId)
    {
      if replace || alias !in aliases {
        aliases := aliases[alias := serviceClass];
      }
      return false;
    }

    /** getAlias */
    function GetAlias(cls: ClassName): (r: Option<ClassName>)
      reads this
      ensures r.Some? <==> cls in aliases
      ensures r.Some? ==> r.value == aliases[cls]
    {
      if cls in aliases then Some(aliases[cls]) else None
    }

    /** getService */
    method GetService(serviceClass: ClassName, fuel: nat) returns (r: Result<Instance, Error>)
      modifies this
      ensures (r, Snapshot()) == Resolve(meta, old(Snapshot()), serviceClass, fuel)
      decreases fuel, 5
    {
      if serviceClass in services {
        return Ok(services[serviceClass]);
      }
      var cls := serviceClass;
      if serviceClass in aliases {
        cls := aliases[serviceClass];
      }
      if !ClassExists(meta, cls) {
        return Err(ClassNotFound(cls));
      }
      var info := Info(meta, cls);
      if info.isInterface {
        return Err(InterfaceWithoutAlias(cls));
      }
      if IsService(meta, cls) {
        return Err(NotAnObject(cls));
      }
      r := Instantiate(cls, fuel);
      if r.Ok? {
        var _ := AddService(Obj(r.value));
      }
    }

    /** __invoke */
    method Invoke(serviceClass: ClassName, fuel: nat) returns (r: Result<Instance, Error>)
      modifies this
      ensures (r, Snapshot()) == Resolve(meta, old(Snapshot()), serviceClass, fuel)
    {
      r := GetService(serviceClass, fuel);
    }

    /** instantiate */
    method Instantiate(cls: ClassName, fuel: nat) returns (r: Result<Instance, Error>)
      modifies this
      ensures (r, Snapshot()) == Resolution.Instantiate(meta, old(Snapshot()), cls, fuel)
      decreases fuel, 4
    {
      var attempt: Result<Instance, Raised>;
      var params := GetConstructorParams(cls, fuel);
      match params {
        case Err(x) => attempt := Err(x);
        case Ok(args) => attempt := NewInstanceArgs(cls, args);
      }
      match attempt {
        case Ok(inst) => r := Ok(inst);
        case Err(x) => r := Err(Catch(cls, x));
      }
    }

    /** ReflectionClass::newInstanceArgs, with the constructor's own effects left out. */
    method NewInstanceArgs(cls: ClassName, args: seq<Value>) returns (r: Result<Instance, Raised>)
      modifies this
      ensures (r, Snapshot()) == NewInstance(meta, old(Snapshot()), cls, args)
    {
      var info := Info(meta, cls);
      if info.isAbstract {
        return Err(Foreign(AbstractClass));
      }
      if !ArgsTypeCheck(meta, cls, args) {
        return Err(Foreign(ArgumentTypeError));
      }
      if info.ctorThrows.Some? {
        return Err(info.ctorThrows.value);
      }
      r := Ok(Instance(nextId, cls, args));
      nextId := nextId + 1;
    }

    /** getCustructorParams */
    method GetConstructorParams(cls: ClassName, fuel: nat) returns (r: Result<seq<Value>, Raised>)
      modifies this
      ensures (r, Snapshot()) == ConstructorParams(meta, old(Snapshot()), cls, fuel)
      decreases fuel, 2
    {
      var ctor := Info(meta, cls).ctor;
      if ctor.None? {
        return Err(Foreign(MissingConstructor));
      }
      var ps := ctor.value;
      var args: seq<Value> := [];
      for i := 0 to |ps|
        invariant BuildArgs(meta, Snapshot(), ps, i, args, fuel) == BuildArgs(meta, old(Snapshot()), ps, 0, [], fuel)
      {
        var v := GetParamValue(ps[i], fuel);
        match v {
          case Err(x) => return Err(Rewrap(ps[i], i, x));
          case Ok(arg) => args := args + [arg];
        }
      }
      r := Ok(args);
    }

    /** getCustructorParamValue */
    method GetParamValue(p: Param, fuel: nat) returns (r: Result<Value, Raised>)
      modifies this
      ensures (r, Snapshot()) == ParamValue(meta, old(Snapshot()), p, fuel)
      decreases fuel, 0
    {
      match p.optionality {
        case Optional(d) => return Ok(d);
        case Variadic => return Err(Foreign(NoDefaultValue(p.name)));
        case Required =>
      }
      match p.hint {
        case Untyped => return Err(Managed(ParamType(MissingTypeHint)));
        case Builtin(t) => return Err(Managed(ParamType(BuiltinTypeHint(t))));
        case ClassType(dep) =>
          if fuel == 0 {
            return Err(Managed(DepthExceeded(dep)));
          }
          var inst := GetService(dep, fuel - 1);
          match inst {
            case Ok(i) => r := Ok(Obj(i));
            case Err(e) => r := Err(Managed(e));
          }
      }
    }
  }
}
