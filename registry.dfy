/** The two updates of the manager's maps that need no resolution: recording an alias and
    registering an instance together with the aliases derived from its class. */
module Registry {
  import opened Types

  /** addAlias: `alias` is mapped to `cls` when `replace` is set or when it has no mapping yet. */
  function SetAlias(aliases: map<ClassName, ClassName>, cls: ClassName, alias: ClassName, replace: bool): (r: map<ClassName, ClassName>)
    ensures alias in r
    ensures replace || alias !in aliases ==> r[alias] == cls
    ensures !replace && alias in aliases ==> r == aliases
    ensures forall k :: k != alias ==> (k in r <==> k in aliases)
    ensures forall k :: k != alias && k in aliases ==> r[k] == aliases[k]
  {
    if replace || alias !in aliases then aliases[alias := cls] else aliases
  }

  /** The aliases after non-replacing addAlias(target, k, false) calls for each k of `keys`, in order. */
  function AddMissing(aliases: map<ClassName, ClassName>, target: ClassName, keys: seq<ClassName>): (r: map<ClassName, ClassName>)
    ensures forall k :: k in r <==> k in aliases || k in keys
    ensures forall k :: k in aliases ==> r[k] == aliases[k]
    ensures forall k :: k in keys && k !in aliases ==> r[k] == target
    decreases |keys|
  {
    if keys == [] then aliases
    else
      var init := keys[..|keys| - 1];
      assert keys == init + [keys[|keys| - 1]];
      SetAlias(AddMissing(aliases, target, init), target, keys[|keys| - 1], false)
  }

  /** addService on an object: it is stored under its class name, and every interface and
      parent class of that class not yet aliased becomes an alias of it. */
  function Register(meta: Meta, st: State, inst: Instance): (st': State)
    ensures st'.services == st.services[inst.cls := inst]
    ensures st'.nextId == st.nextId
    ensures forall k :: k in st'.aliases <==>
      k in st.aliases || k in Info(meta, inst.cls).interfaces || k in Info(meta, inst.cls).parents
    ensures forall k :: k in st.aliases ==> st'.aliases[k] == st.aliases[k]
    ensures forall k :: k in st'.aliases && k !in st.aliases ==> st'.aliases[k] == inst.cls
  {
    var info := Info(meta, inst.cls);
    var withInterfaces := AddMissing(st.aliases, inst.cls, info.interfaces);
    st.(services := st.services[inst.cls := inst],
        aliases := AddMissing(withInterfaces, inst.cls, info.parents))
  }

  /** addService: a value that is not an object is refused and nothing changes. */
  function AddService(meta: Meta, st: State, v: Value): (r: (Result<(), Error>, State))
    ensures r.0.Err? <==> !v.Obj?
    ensures !v.Obj? ==> r.0.error == NotAnObject(v.phpType) && r.1 == st
    ensures v.Obj? ==> r.1 == Register(meta, st, v.inst)
  {
    if v.Obj? then (Ok(()), Register(meta, st, v.inst))
    else (Err(NotAnObject(v.phpType)), st)
  }
}
