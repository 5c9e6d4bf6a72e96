/** The process-wide registry through which the managers find each other. */
module LogicModules {
  import opened Wrappers

  /** The keys of `LogicModuleEnum`; it is a string enum, so each key is its value. */
  const VenvManagerKey: string := "venv_manager"
  const QureedManagerKey: string := "qureed_manager"

  /** The key the board manager evidently means to register under; the enum
      as written has no such member. */
  const BoardManagerKey: string := "board_manager"

  /** `LogicModuleEnum` as written: member name to key. */
  const EnumMembers: map<string, string> := map["VENV_MANAGER" := VenvManagerKey, "QUREED_MANAGER" := QureedManagerKey]

  /** `get_logic` on a key nobody registered raises `KeyError`; naming a
      member the enum lacks raises `AttributeError`. */
  datatype LogicError = KeyError | AttributeError

  /** `LogicModuleEnum.<member>`: the member's key, or `AttributeError`. */
  function EnumKey(member: string): (r: Result<string, LogicError>)
    ensures r.Ok? <==> member in EnumMembers
    ensures r.Ok? ==> r.value == VenvManagerKey || r.value == QureedManagerKey
    ensures r.Err? ==> r.error == AttributeError
  {
    if member in EnumMembers then Ok(EnumMembers[member]) else Err(AttributeError)
  }

  /** As written, `LogicModuleEnum.BOARD_MANAGER` raises, and no member of the
      enum yields a key under which the board manager could be registered. */
  lemma BoardManagerMemberMissing(member: string)
    requires member == "BOARD_MANAGER"
    ensures EnumKey(member) == Err(AttributeError)
    ensures forall m :: EnumKey(m).Ok? ==> EnumKey(m).value != BoardManagerKey
  {
    assert member !in EnumMembers.Keys;
  }

  /** `LogicModuleHandler`: one object holding a key-to-module dictionary. The
      singleton `__new__` is not modelled; the constructor is the first `__init__`. */
  class LogicModuleHandler<K(==), M> {
    var modules: map<K, M>
    var initialized: bool

    constructor ()
      ensures initialized && modules == map[]
    {
      modules := map[];
      initialized := true;
    }

    /** A later `LogicModuleHandler()` call runs `__init__` again on the same
        object; the `initialized` guard keeps every registration. */
    method Init()
      modifies this
      ensures initialized
      ensures old(initialized) ==> modules == old(modules)
      ensures !old(initialized) ==> modules == map[]
    {
      if !initialized {
        modules := map[];
        initialized := true;
      }
    }

    /** Insert or overwrite the module stored under `key`. */
    method Register(key: K, logic: M)
      modifies this
      ensures modules == old(modules)[key := logic]
      ensures initialized == old(initialized)
      ensures GetLogic(key) == Ok(logic)
      ensures forall k :: k != key ==> (k in modules <==> k in old(modules))
      ensures forall k :: k != key && k in modules ==> modules[k] == old(modules)[k]
    {
      modules := modules[key := logic];
    }

    /** Look a module up; a missing key is an error, never a default. */
    function GetLogic(key: K): (r: Result<M, LogicError>)
      reads this
      ensures r.Ok? <==> key in modules
      ensures r.Ok? ==> r.value == modules[key]
      ensures r.Err? ==> r.error == KeyError
    {
      if key in modules then Ok(modules[key]) else Err(KeyError)
    }
  }
}
