/** Data model of the service manager: class names, the reflected class metadata the
    resolver consults, objects and other PHP values, the exception taxonomy and the
    manager's two maps. */
module Types {

  /** A fully qualified PHP class or interface name. */
  type ClassName = string

  /** The manager's own class; it registers itself under this name. */
  const SERVICE_MANAGER: ClassName := "CodeInc\\ServiceManager\\ServiceManager"

  /** The marker interface the manager implements; resolving a class that implements it is refused. */
  const SERVICE_INTERFACE: ClassName := "CodeInc\\ServiceManager\\ServiceInterface"

  datatype Option<T> = None | Some(value: T)

  datatype Result<T, E> = Ok(value: T) | Err(error: E)

  /** An object: its identity (drawn from the manager's counter), its class, and the
      constructor arguments it was built with. */
  datatype Instance = Instance(id: nat, cls: ClassName, args: seq<Value>)

  /** A PHP value: an object, or any other value, known by the name gettype() gives its type. */
  datatype Value = Obj(inst: Instance) | Scalar(phpType: string, literal: string)

  /** The declared type of a constructor parameter. */
  datatype TypeHint = Untyped | Builtin(typeName: string) | ClassType(cls: ClassName)

  /** Whether a parameter is optional; a variadic parameter is optional but has no default value. */
  datatype Optionality = Required | Optional(default: Value) | Variadic

  datatype Param = Param(name: string, hint: TypeHint, optionality: Optionality)

  /** What reflection tells about one class or interface.
      `interfaces` lists every interface it implements, inherited ones included;
      `parents` is its parent-class chain, nearest first;
      `ctor` is the parameter list of its `__construct`, declared or inherited, None when it
      declares none and inherits none;
      `ctorThrows` is what running its constructor throws, None when it returns normally. */
  datatype ClassInfo = ClassInfo(
    isInterface: bool,
    isAbstract: bool,
    interfaces: seq<ClassName>,
    parents: seq<ClassName>,
    ctor: Option<seq<Param>>,
    ctorThrows: Option<Raised>)

  /** Immutable type metadata standing for PHP reflection: `classes` describes every known
      type, and `existing` holds the names for which class_exists() answers true. */
  datatype Meta = Meta(classes: map<ClassName, ClassInfo>, existing: set<ClassName>)

  /** A name reflection knows nothing about: no interfaces, no parents, no constructor. */
  const UNKNOWN_CLASS: ClassInfo := ClassInfo(false, false, [], [], None, None)

  function Info(meta: Meta, cls: ClassName): (info: ClassInfo)
  {
    if cls in meta.classes then meta.classes[cls] else UNKNOWN_CLASS
  }

  predicate ClassExists(meta: Meta, cls: ClassName)
  {
    cls in meta.existing
  }

  /** ReflectionClass::isSubclassOf(ServiceInterface) for a class: it implements the marker interface. */
  predicate IsService(meta: Meta, cls: ClassName)
  {
    SERVICE_INTERFACE in Info(meta, cls).interfaces
  }

  /** Why a required constructor parameter cannot be injected. */
  datatype ParamTypeReason = MissingTypeHint | BuiltinTypeHint(typeName: string)

  /** ServiceManagerException and its subclasses. `ParamFailed` is the ServiceManagerException
      that wraps a ParamTypeException with the 1-based parameter position, `InstantiationFailed`
      the one that wraps any other throwable raised while instantiating, and `DepthExceeded`
      the model's own error for running out of fuel. */
  datatype Error =
    | NotAnObject(what: string)
    | ClassNotFound(cls: ClassName)
    | InterfaceWithoutAlias(cls: ClassName)
    | ParamType(reason: ParamTypeReason)
    | ParamFailed(param: string, position: nat, reason: ParamTypeReason)
    | InstantiationFailed(cls: ClassName, cause: Fault)
    | DepthExceeded(cls: ClassName)

  /** Throwables from outside the manager's exception family raised during instantiation. */
  datatype Fault =
    | MissingConstructor      // ReflectionClass::getMethod("__construct") finds no method
    | NoDefaultValue(param: string)  // getDefaultValue() on a variadic parameter
    | AbstractClass           // newInstanceArgs() on an abstract class
    | ArgumentTypeError       // a TypeError: a constructor argument is not of its parameter's class
    | ConstructorThrew        // the class's own constructor throws something else

  /** Anything thrown inside the try block of instantiate(). */
  datatype Raised = Managed(error: Error) | Foreign(fault: Fault)

  /** The manager's state: `services` maps a class name to its instance, `aliases` maps an
      interface, parent class or alias to a class name, and `nextId` is the next object identity. */
  datatype State = State(services: map<ClassName, Instance>, aliases: map<ClassName, ClassName>, nextId: nat)
}
