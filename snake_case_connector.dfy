/**
 * The second Dependency Injector connector: providers are stored under the snake_case form
 * of the class name (`SomeService` under `some_service`), matching a declarative container.
 */
module SnakeCaseConnector {
  import opened Results
  import opened Texts
  import opened DiConnector

  /** `(?<!^)(?=[A-Z])` replaced by `_`: an underscore before every upper-case letter but the first character. */
  function Underscored(name: string): (r: string)
  {
    if name == [] then [] else [name[0]] + UnderscoredRest(name[1..])
  }

  /** The underscore insertion after the first character, where every upper-case letter gets one. */
  function UnderscoredRest(s: string): (r: string)
  {
    if s == [] then []
    else (if IsUpper(s[0]) then ['_', s[0]] else [s[0]]) + UnderscoredRest(s[1..])
  }

  /** The number of ASCII upper-case letters in `s`. */
  function CountUpper(s: string): nat
  {
    if s == [] then 0 else (if IsUpper(s[0]) then 1 else 0) + CountUpper(s[1..])
  }

  /**
   * Where each character after the first lands in `r`: shifted right by the upper-case letters
   * before it, lower-cased, and preceded by `_` exactly when it is upper case.
   */
  predicate UnderscoreBeforeEachCapital(name: string, r: string)
  {
    forall i :: 1 <= i < |name| ==>
      var j := i + CountUpper(name[1..i]);
      if IsUpper(name[i]) then j + 1 < |r| && r[j] == '_' && r[j + 1] == LowerChar(name[i])
      else j < |r| && r[j] == LowerChar(name[i])
  }

  /** `_to_snake_case`, with the regular-expression substitution written out. */
  function ToSnakeCase(name: string): (r: string)
    ensures name == [] ==> r == []
    ensures name != [] ==> |r| == |name| + CountUpper(name[1..]) && r[0] == LowerChar(name[0])
    ensures UnderscoreBeforeEachCapital(name, r)
  {
    if name == [] then [] else
      UnderscoredRestLength(name[1..]);
      UnderscoredPositions(name);
      LowerText(Underscored(name))
  }

  /** `c` sits at index `j` of `r`, right after an underscore exactly when it is upper case. */
  predicate PlacedAt(c: char, r: string, j: int)
  {
    if IsUpper(c) then 0 <= j && j + 1 < |r| && r[j] == '_' && r[j + 1] == c
    else 0 <= j < |r| && r[j] == c
  }

  /** Text put in front moves every placed character right by its length. */
  lemma PlacedAfter(c: char, head: string, r: string, j: int)
    requires PlacedAt(c, r, j)
    ensures PlacedAt(c, head + r, j + |head|)
  {
  }

  /** Where the character at index `i` of `s` lands in `UnderscoredRest(s)`. */
  lemma {:induction false} UnderscoredRestAt(s: string, i: int)
    requires 0 <= i < |s|
    ensures PlacedAt(s[i], UnderscoredRest(s), i + CountUpper(s[..i]))
  {
    var head := if IsUpper(s[0]) then ['_', s[0]] else [s[0]];
    assert UnderscoredRest(s) == head + UnderscoredRest(s[1..]);
    if i == 0 {
      assert s[..0] == [];
    } else {
      UnderscoredRestAt(s[1..], i - 1);
      PlacedAfter(s[i], head, UnderscoredRest(s[1..]), i - 1 + CountUpper(s[1..][..i - 1]));
      assert s[..i][0] == s[0] && s[..i][1..] == s[1..][..i - 1];
      assert s[1..][i - 1] == s[i];
    }
  }

  lemma UnderscoredPositions(name: string)
    requires name != []
    ensures |Underscored(name)| == |name| + CountUpper(name[1..])
    ensures forall i :: 1 <= i < |name| ==> PlacedAt(name[i], Underscored(name), i + CountUpper(name[1..i]))
  {
    var rest := name[1..];
    assert Underscored(name) == [name[0]] + UnderscoredRest(rest);
    UnderscoredRestLength(rest);
    forall i | 1 <= i < |name|
      ensures PlacedAt(name[i], Underscored(name), i + CountUpper(name[1..i]))
    {
      UnderscoredRestAt(rest, i - 1);
      assert rest[..i - 1] == name[1..i] && rest[i - 1] == name[i];
      PlacedAfter(name[i], [name[0]], UnderscoredRest(rest), i - 1 + CountUpper(name[1..i]));
    }
  }

  lemma {:induction false} UnderscoredRestLength(s: string)
    ensures |UnderscoredRest(s)| == |s| + CountUpper(s)
  {
    if s != [] {
      UnderscoredRestLength(s[1..]);
    }
  }

  /** Underscores are added and nothing else: dropping them gives the name back, unchanged. */
  lemma {:induction false} UnderscoredRestErases(s: string)
    requires '_' !in s
    ensures Erased(UnderscoredRest(s)) == s
  {
    if s != [] {
      var head := if IsUpper(s[0]) then ['_', s[0]] else [s[0]];
      ErasedAppend(head, UnderscoredRest(s[1..]));
      UnderscoredRestErases(s[1..]);
      assert [s[0]] + s[1..] == s;
    }
  }

  /** `s` with its underscores removed. */
  function Erased(s: string): string
  {
    if s == [] then [] else (if s[0] == '_' then [] else [s[0]]) + Erased(s[1..])
  }

  lemma {:induction false} ErasedAppend(a: string, b: string)
    ensures Erased(a + b) == Erased(a) + Erased(b)
  {
    if a == [] {
      assert a + b == b;
    } else {
      assert (a + b)[1..] == a[1..] + b;
      ErasedAppend(a[1..], b);
    }
  }

  lemma {:induction false} RestAppend(a: string, b: string)
    ensures UnderscoredRest(a + b) == UnderscoredRest(a) + UnderscoredRest(b)
  {
    if a == [] {
      assert a + b == b;
    } else {
      assert (a + b)[1..] == a[1..] + b;
      RestAppend(a[1..], b);
    }
  }

  /**
   * The snake_case name is as long as the class name plus one underscore per upper-case
   * letter after the first character, holds no upper-case letter, and with its underscores
   * erased is the lower-cased class name (when the class name has none of its own).
   */
  lemma SnakeCaseShape(name: string)
    requires name != []
    ensures |ToSnakeCase(name)| == |name| + CountUpper(name[1..])
    ensures forall i :: 0 <= i < |ToSnakeCase(name)| ==> !IsUpper(ToSnakeCase(name)[i])
    ensures '_' !in name ==> Erased(ToSnakeCase(name)) == LowerText(name)
  {
    UnderscoredRestLength(name[1..]);
    if '_' !in name {
      assert '_' !in name[1..] by {
        forall i | 0 <= i < |name[1..]| ensures name[1..][i] != '_' {
          assert name[1..][i] == name[i + 1];
        }
      }
      UnderscoredRestErases(name[1..]);
      ErasedAppend([name[0]], UnderscoredRest(name[1..]));
      LowerErased(Underscored(name));
      assert [name[0]] + name[1..] == name;
    }
  }

  /** Lower-casing commutes with erasing underscores. */
  lemma {:induction false} LowerErased(s: string)
    ensures Erased(LowerText(s)) == LowerText(Erased(s))
  {
    if s != [] {
      LowerErased(s[1..]);
      assert LowerText(s)[1..] == LowerText(s[1..]);
      LowerSplit([s[0]], Erased(s[1..]));
    }
  }

  lemma LowerLiteral(s: string, t: string)
    requires |s| == |t| && forall i :: 0 <= i < |s| ==> LowerChar(s[i]) == t[i]
    ensures LowerText(s) == t
  {
  }

  lemma LowerSplit(a: string, b: string)
    ensures LowerText(a + b) == LowerText(a) + LowerText(b)
  {
  }

  /** A name with no upper-case letter is its own snake_case form. */
  lemma {:induction false} LowerNameUnchanged(name: string)
    requires forall i :: 0 <= i < |name| ==> !IsUpper(name[i])
    ensures ToSnakeCase(name) == name
  {
    if name != [] {
      RestWithoutUpper(name[1..]);
      assert Underscored(name) == name;
      LowerWithoutUpper(name);
    }
  }

  lemma {:induction false} RestWithoutUpper(s: string)
    requires forall i :: 0 <= i < |s| ==> !IsUpper(s[i])
    ensures UnderscoredRest(s) == s
  {
    if s != [] {
      RestWithoutUpper(s[1..]);
      assert [s[0]] + s[1..] == s;
    }
  }

  lemma LowerWithoutUpper(s: string)
    requires forall i :: 0 <= i < |s| ==> !IsUpper(s[i])
    ensures LowerText(s) == s
  {
  }

  /** The class names of the example application. */
  lemma ExampleNames()
    ensures ToSnakeCase("SomeService") == "some_service"
    ensures ToSnakeCase("APIClient") == "a_p_i_client"
  {
    SomeServiceSnake();
    ApiClientSnake();
  }

  lemma SomeServiceSnake()
    ensures ToSnakeCase("SomeService") == "some_service"
  {
    SomeServiceUnderscored();
    LowerLiteral("Some_Service", "some_service");
  }

  lemma ApiClientSnake()
    ensures ToSnakeCase("APIClient") == "a_p_i_client"
  {
    ApiClientUnderscored();
    LowerLiteral("A_P_I_Client", "a_p_i_client");
  }

  lemma SomeServiceUnderscored()
    ensures Underscored("SomeService") == "Some_Service"
  {
    OmeServiceRest();
    UnderscoredFirst('S', "omeService", "ome_Service", "SomeService", "Some_Service");
  }

  /** The first character is kept as it is, whatever its case. */
  lemma UnderscoredFirst(c: char, rest: string, restOut: string, name: string, r: string)
    requires UnderscoredRest(rest) == restOut
    requires name == [c] + rest && r == [c] + restOut
    ensures Underscored(name) == r
  {
    assert name[1..] == rest;
  }

  lemma OmeServiceRest()
    ensures UnderscoredRest("omeService") == "ome_Service"
  {
    RestWithoutUpper("ome");
    ServiceRest();
    RestAppend("ome", "Service");
    assert "omeService" == "ome" + "Service";
    assert "ome_Service" == "ome" + "_Service";
  }

  lemma ServiceRest()
    ensures UnderscoredRest("Service") == "_Service"
  {
    RestWithoutUpper("ervice");
    UpperFirst('S', "ervice");
    assert "Service" == ['S'] + "ervice";
    assert "_Service" == ['_', 'S'] + "ervice";
  }

  /** An upper-case letter after the first character gets its underscore, the rest follows. */
  lemma UpperFirst(c: char, rest: string)
    requires IsUpper(c)
    ensures UnderscoredRest([c] + rest) == ['_', c] + UnderscoredRest(rest)
  {
    assert ([c] + rest)[1..] == rest;
  }

  lemma ApiClientUnderscored()
    ensures Underscored("APIClient") == "A_P_I_Client"
  {
    PIClientRest();
    UnderscoredFirst('A', "PIClient", "_P_I_Client", "APIClient", "A_P_I_Client");
  }

  lemma PIClientRest()
    ensures UnderscoredRest("PIClient") == "_P_I_Client"
  {
    IClientRest();
    UpperFirst('P', "IClient");
    assert "PIClient" == ['P'] + "IClient";
    assert "_P_I_Client" == ['_', 'P'] + "_I_Client";
  }

  lemma IClientRest()
    ensures UnderscoredRest("IClient") == "_I_Client"
  {
    ClientRest();
    UpperFirst('I', "Client");
    assert "IClient" == ['I'] + "Client";
    assert "_I_Client" == ['_', 'I'] + "_Client";
  }

  lemma ClientRest()
    ensures UnderscoredRest("Client") == "_Client"
  {
    RestWithoutUpper("lient");
    UpperFirst('C', "lient");
    assert "Client" == ['C'] + "lient";
    assert "_Client" == ['_', 'C'] + "lient";
  }

  /** The provider name of a class: `_get_provider_name`. */
  function ProviderName(name: string): (r: string)
    ensures UnderscoreBeforeEachCapital(name, r)
    ensures forall i :: 0 <= i < |r| ==> !IsUpper(r[i])
    ensures name != [] && '_' !in name ==> Erased(r) == LowerText(name)
  {
    if name == [] then ToSnakeCase(name) else
      SnakeCaseShape(name);
      ToSnakeCase(name)
  }

  /**
   * `_to_snake_case` as written: the module never imports `re`, so the call raises
   * `NameError` whatever the name.
   */
  function ToSnakeCaseAsWritten(name: string): (r: Result<string, DiError>)
    ensures r.Err? && r.error.NameError?
  {
    Err(NameError("name 're' is not defined"))
  }

  /** `DependencyInjectorConnector` of the second example. */
  class SnakeCaseConnector {
    var container: map<string, Provider>

    constructor (container: map<string, Provider>)
      ensures this.container == container
    {
      this.container := container;
    }

    /**
     * `register` as written: the first provider-name lookup, in the comprehension or in the
     * final `setattr`, raises `NameError`, so no type is ever registered.
     */
    method RegisterAsWritten(t: PyType) returns (r: Result<(), DiError>)
      modifies this
      ensures container == old(container)
      ensures !t.hasInit ==> r == Err(ValueError(NoInitMessage(t.name)))
      ensures t.hasInit ==> r == Err(NameError("name 're' is not defined"))
    {
      if !t.hasInit {
        return Err(ValueError(NoInitMessage(t.name)));
      }
      var key := ToSnakeCaseAsWritten(t.name);
      return key.PropagateFailure();
    }

    /** `resolve` as written: the provider-name lookup raises `NameError`. */
    method ResolveAsWritten(t: PyType) returns (r: Result<Provider, DiError>)
      ensures r.Err? && r.error.NameError?
    {
      var key := ToSnakeCaseAsWritten(t.name);
      return key.PropagateFailure();
    }

    /** `register` with the substitution working: the factory is stored under the snake_case name. */
    method Register(t: PyType) returns (r: Result<(), DiError>)
      modifies this
      ensures r.Err? <==> !t.hasInit
      ensures r.Err? ==> r.error == ValueError(NoInitMessage(t.name)) && container == old(container)
      ensures r.Ok? ==> container == Registered(old(container), t, ProviderName)
    {
      if !t.hasInit {
        return Err(ValueError(NoInitMessage(t.name)));
      }
      container := Registered(container, t, ProviderName);
      return Ok(());
    }

    /** `resolve` with the substitution working: the provider under the snake_case name. */
    method Resolve(t: PyType) returns (r: Result<Provider, DiError>)
      ensures r.Ok? <==> ProviderName(t.name) in container
      ensures r.Ok? ==> r.value == container[ProviderName(t.name)]
      ensures r.Err? ==> r.error == TypeError(NotRegisteredMessage(t.name))
    {
      var key := ProviderName(t.name);
      if key !in container {
        return Err(TypeError(NotRegisteredMessage(t.name)));
      }
      return Ok(container[key]);
    }

    /** `__contains__`: looks the class name up unconverted. */
    function Contains(t: PyType): (b: bool)
      reads this
      ensures b <==> t.name in container
    {
      t.name in container
    }
  }

  /**
   * `__contains__` looks for the raw class name while `register` stores the snake_case one,
   * so a freshly registered `SomeService` is not reported as contained.
   */
  lemma RegisteredButNotContained(container: map<string, Provider>, t: PyType)
    requires t.name == "SomeService" && t.name !in container
    ensures var after := Registered(container, t, ProviderName);
      "some_service" in after && t.name !in after
  {
    ExampleNames();
  }

  /**
   * A name that opens with two upper-case letters, an acronym such as `APIClient`, gets an
   * underscore as its second character, so no declared key without one there can match it.
   */
  lemma AcronymNotDeclared(declared: map<string, Provider>, name: string)
    requires |name| >= 2 && IsUpper(name[0]) && IsUpper(name[1])
    requires forall k :: k in declared && |k| >= 2 ==> k[1] != '_'
    ensures ProviderName(name)[1] == '_'
    ensures ProviderName(name) !in declared
  {
    var rest := name[1..];
    assert rest == [rest[0]] + rest[1..];
    UpperFirst(rest[0], rest[1..]);
    assert Underscored(name)[1] == '_';
  }
}
