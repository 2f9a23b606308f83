/**
 * The connector between a Dependency Injector container and a BlackSheep application: a
 * registry of providers keyed by type name. The container is a map from attribute name to
 * provider, and a type is its name plus its constructor's annotated parameters.
 */
module DiConnector {
  import opened Results

  /**
   * A Python class as `register` inspects it: its `__name__`, whether it has an `__init__`,
   * and `get_type_hints(__init__)` as parameter name to annotated type name.
   */
  datatype PyType = PyType(name: string, hasInit: bool, hints: map<string, string>)

  /** A provider: the class it activates and the providers bound to its keyword arguments. */
  datatype Provider =
    | Factory(cls: string, kwargs: map<string, Provider>)
    | Singleton(cls: string, kwargs: map<string, Provider>)

  datatype DiError = ValueError(message: string) | TypeError(message: string) | NameError(message: string)

  function NoInitMessage(name: string): string
  {
    "Type " + name + " does not have an __init__ method."
  }

  function NotRegisteredMessage(name: string): string
  {
    "Type " + name + " is not registered in the container."
  }

  /**
   * The keyword arguments of a new factory: every constructor parameter other than `self` and
   * `return` whose type the container can already provide, bound to that provider under `key`.
   */
  function Dependencies(hints: map<string, string>, container: map<string, Provider>, key: string -> string)
    : (r: map<string, Provider>)
    ensures forall p :: p in r <==> p in hints && p !in {"self", "return"} && key(hints[p]) in container
    ensures forall p :: p in r ==> r[p] == container[key(hints[p])]
  {
    map p | p in hints && p !in {"self", "return"} && key(hints[p]) in container :: container[key(hints[p])]
  }

  /** The container after registering `t` under `key(t.name)`: one entry set, the others kept. */
  function Registered(container: map<string, Provider>, t: PyType, key: string -> string): map<string, Provider>
  {
    container[key(t.name) := Factory(t.name, Dependencies(t.hints, container, key))]
  }

  /** The type's own name, the key `app/di.py` uses. */
  function Name(s: string): string { s }

  /**
   * A dependency is bound only when its type was registered first: registered before its
   * dependency, a type gets no keyword argument for it; registered after, it gets the
   * dependency's factory.
   */
  lemma RegistrationOrderMatters(container: map<string, Provider>, dependency: PyType, dependent: PyType,
                                 param: string, key: string -> string)
    requires key(dependency.name) !in container
    requires param in dependent.hints && dependent.hints[param] == dependency.name && param !in {"self", "return"}
    ensures param !in Registered(container, dependent, key)[key(dependent.name)].kwargs
    ensures var after := Registered(Registered(container, dependency, key), dependent, key);
      after[key(dependent.name)].kwargs[param] == Factory(dependency.name, Dependencies(dependency.hints, container, key))
  {
  }

  /** `DependencyInjectorConnector` of `app/di.py`: providers keyed by the type's own name. */
  class Connector {
    var container: map<string, Provider>

    constructor (container: map<string, Provider>)
      ensures this.container == container
    {
      this.container := container;
    }

    /** `register`: a type without `__init__` is refused; otherwise its factory replaces any earlier entry. */
    method Register(t: PyType) returns (r: Result<(), DiError>)
      modifies this
      ensures r.Err? <==> !t.hasInit
      ensures r.Err? ==> r.error == ValueError(NoInitMessage(t.name)) && container == old(container)
      ensures r.Ok? ==> container == Registered(old(container), t, Name)
    {
      if !t.hasInit {
        return Err(ValueError(NoInitMessage(t.name)));
      }
      container := Registered(container, t, Name);
      return Ok(());
    }

    /** `resolve`: the provider registered under the type's name, which is then called. */
    method Resolve(t: PyType) returns (r: Result<Provider, DiError>)
      ensures r.Ok? <==> t.name in container
      ensures r.Ok? ==> r.value == container[t.name]
      ensures r.Err? ==> r.error == TypeError(NotRegisteredMessage(t.name))
      ensures r.Ok? <==> Contains(t)
    {
      if t.name !in container {
        return Err(TypeError(NotRegisteredMessage(t.name)));
      }
      return Ok(container[t.name]);
    }

    /** `__contains__`: whether the container has an entry under the type's name. */
    function Contains(t: PyType): (b: bool)
      reads this
      ensures b <==> t.name in container
    {
      t.name in container
    }
  }

  /** After a successful registration the type is contained and resolves to its new factory. */
  lemma RegisterThenResolve(container: map<string, Provider>, t: PyType, other: string)
    ensures var after := Registered(container, t, Name);
      t.name in after && after[t.name] == Factory(t.name, Dependencies(t.hints, container, Name))
      && (other != t.name ==> (other in after <==> other in container) && (other in container ==> after[other] == container[other]))
  {
  }
}
