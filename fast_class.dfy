/**
 * cglib's FastClass: a dispatcher for one Java class that names the class's
 * methods and constructors by integer index, so that they can later be
 * invoked without reflection. The concrete index table is generated
 * bytecode; here it is the frozen sequence of methods and the frozen
 * sequence of constructors a dispatcher is built with, and every lookup is a
 * search over them.
 */
module FastClasses {
  import opened Wrappers
  import opened JavaStrings
  import opened JvmTypes
  import opened RuntimeClasses

  // ---------------------------------------------------------------------
  // getSignatureWithoutReturnType
  // ---------------------------------------------------------------------

  /**
   * The key a method is looked up by: its name, "(", the field descriptor of
   * each parameter in order, ")". It is the method descriptor of section
   * 4.3.3 of the JVM Specification without its return part.
   */
  function SignatureKey(name: string, parameterTypes: seq<JType>): string {
    name + "(" + ParameterDescriptors(parameterTypes) + ")"
  }

  /** FastClass.getSignatureWithoutReturnType: appends the name, "(", each parameter's descriptor and ")" to a buffer. */
  method GetSignatureWithoutReturnType(name: string, parameterTypes: seq<Class>) returns (key: string)
    ensures key == SignatureKey(name, TypesOf(parameterTypes))
  {
    var sb := name;
    sb := sb + "(";
    for i := 0 to |parameterTypes|
      invariant sb == name + "(" + ParameterDescriptors(TypesOf(parameterTypes[..i]))
    {
      assert TypesOf(parameterTypes[..i + 1]) == TypesOf(parameterTypes[..i]) + [parameterTypes[i].jtype];
      ParameterDescriptorsAppend(TypesOf(parameterTypes[..i]), parameterTypes[i].jtype);
      sb := sb + FieldDescriptor(parameterTypes[i].jtype);
    }
    assert parameterTypes[..|parameterTypes|] == parameterTypes;
    sb := sb + ")";
    key := sb;
  }

  /** A method without parameters has the key name + "()". */
  lemma SignatureKeyOfNoParameters(name: string)
    ensures SignatureKey(name, []) == name + "()"
  {
  }

  /** Appending the return descriptor to the key gives the name followed by the full method descriptor. */
  lemma SignatureKeyPrefix(name: string, parameterTypes: seq<JType>, returnType: ReturnType)
    ensures SignatureKey(name, parameterTypes) + ReturnDescriptor(returnType)
      == name + MethodDescriptor(parameterTypes, returnType)
  {
    var pd, rd := ParameterDescriptors(parameterTypes), ReturnDescriptor(returnType);
    var a := "(" + pd + ")";
    assert MethodDescriptor(parameterTypes, returnType) == a + rd;
    assert SignatureKey(name, parameterTypes) == name + a;
    assert (name + a) + rd == name + (a + rd);
  }

  /** Reads a key back into the name before its first '(' and the parameter types, when it is one. */
  function ParseSignatureKey(key: string): Option<(string, seq<JType>)> {
    var lparen := IndexOf(key, '(', 0);
    if lparen < 0 then None
    else
      match ParseParameterDescriptors(key[lparen + 1..])
      case None => None
      case Some((ts, rest)) => if rest == ")" then Some((key[..lparen], ts)) else None
  }

  /** A key gives back the name and the parameter types it was built from. */
  lemma SignatureKeyRoundTrip(name: string, parameterTypes: seq<JType>)
    requires '(' !in name && AllWellFormed(parameterTypes)
    ensures ParseSignatureKey(SignatureKey(name, parameterTypes)) == Some((name, parameterTypes))
  {
    var key := SignatureKey(name, parameterTypes);
    var pd := ParameterDescriptors(parameterTypes);
    assert key[..|name|] == name;
    assert key[|name|] == '(';
    IndexOfAt(key, '(', 0, |name|);
    assert key[|name| + 1..] == pd + ")";
    ParameterDescriptorsRoundTrip(parameterTypes, ")");
  }

  /**
   * Keys depend on the name and the ordered parameter types and on nothing
   * else: equal exactly when both agree. So methods that differ only in
   * their return type share a key.
   */
  lemma SignatureKeyInjective(n1: string, p1: seq<JType>, n2: string, p2: seq<JType>)
    requires '(' !in n1 && AllWellFormed(p1)
    requires '(' !in n2 && AllWellFormed(p2)
    ensures SignatureKey(n1, p1) == SignatureKey(n2, p2) <==> n1 == n2 && p1 == p2
  {
    SignatureKeyRoundTrip(n1, p1);
    SignatureKeyRoundTrip(n2, p2);
  }

  // ---------------------------------------------------------------------
  // Index searches
  // ---------------------------------------------------------------------

  /** The key of a method of the table. */
  function KeyOf(m: Method): string {
    SignatureKey(m.name, m.parameterTypes)
  }

  /** The first position of a method with the key, or -1. */
  function MethodIndex(ms: seq<Method>, key: string): (r: int)
    ensures -1 <= r < |ms|
    ensures r >= 0 ==> KeyOf(ms[r]) == key
  {
    if ms == [] then -1
    else if KeyOf(ms[0]) == key then 0
    else
      var r := MethodIndex(ms[1..], key);
      if r < 0 then -1 else r + 1
  }

  /** MethodIndex is -1 exactly when no method has the key, and otherwise the first one that has it. */
  lemma {:induction false} MethodIndexMeaning(ms: seq<Method>, key: string)
    ensures MethodIndex(ms, key) == -1 <==> forall i :: 0 <= i < |ms| ==> KeyOf(ms[i]) != key
    ensures forall i :: 0 <= i < MethodIndex(ms, key) ==> KeyOf(ms[i]) != key
  {
    if ms != [] && KeyOf(ms[0]) != key {
      MethodIndexMeaning(ms[1..], key);
      assert forall i :: 1 <= i < |ms| ==> ms[i] == ms[1..][i - 1];
    }
  }

  /** The first position of a constructor with exactly these parameter types, or -1. */
  function ConstructorIndex(ks: seq<Constructor>, parameterTypes: seq<JType>): (r: int)
    ensures -1 <= r < |ks|
    ensures r >= 0 ==> ks[r].parameterTypes == parameterTypes
  {
    if ks == [] then -1
    else if ks[0].parameterTypes == parameterTypes then 0
    else
      var r := ConstructorIndex(ks[1..], parameterTypes);
      if r < 0 then -1 else r + 1
  }

  /** ConstructorIndex is -1 exactly when no constructor takes these parameter types. */
  lemma {:induction false} ConstructorIndexMeaning(ks: seq<Constructor>, parameterTypes: seq<JType>)
    ensures ConstructorIndex(ks, parameterTypes) == -1 <==> forall i :: 0 <= i < |ks| ==> ks[i].parameterTypes != parameterTypes
    ensures forall i :: 0 <= i < ConstructorIndex(ks, parameterTypes) ==> ks[i].parameterTypes != parameterTypes
  {
    if ks != [] && ks[0].parameterTypes != parameterTypes {
      ConstructorIndexMeaning(ks[1..], parameterTypes);
      assert forall i :: 1 <= i < |ks| ==> ks[i] == ks[1..][i - 1];
    }
  }

  /** Whether a method has the name and method descriptor of a cglib Signature. */
  predicate HasSignature(m: Method, sig: Signature) {
    m.name == sig.name && MethodDescriptor(m.parameterTypes, m.returnType) == sig.descriptor
  }

  /** The first position of a method with the signature, or -1. */
  function SignatureIndex(ms: seq<Method>, sig: Signature): (r: int)
    ensures -1 <= r < |ms|
    ensures r >= 0 ==> HasSignature(ms[r], sig)
  {
    if ms == [] then -1
    else if HasSignature(ms[0], sig) then 0
    else
      var r := SignatureIndex(ms[1..], sig);
      if r < 0 then -1 else r + 1
  }

  /** SignatureIndex is -1 exactly when no method has the signature, and otherwise the first one that has it. */
  lemma {:induction false} SignatureIndexMeaning(ms: seq<Method>, sig: Signature)
    ensures SignatureIndex(ms, sig) == -1 <==> forall i :: 0 <= i < |ms| ==> !HasSignature(ms[i], sig)
    ensures forall i :: 0 <= i < SignatureIndex(ms, sig) ==> !HasSignature(ms[i], sig)
  {
    if ms != [] && !HasSignature(ms[0], sig) {
      SignatureIndexMeaning(ms[1..], sig);
      assert forall i :: 1 <= i < |ms| ==> ms[i] == ms[1..][i - 1];
    }
  }

  // ---------------------------------------------------------------------
  // The dispatcher
  // ---------------------------------------------------------------------

  /** What an index-based call does: call a method on a target, or run a constructor, with the arguments (null allowed). */
  datatype Invocation =
    | Invoked(callee: Method, target: Value, args: Option<seq<Value>>)
    | Constructed(ctor: Constructor, args: Option<seq<Value>>)

  /** Something a dispatcher may be compared with by equals: null, a dispatcher, or any other object. */
  datatype Other = NullRef | Dispatcher(fastClass: FastClass) | OtherObject

  /** The exception the generated dispatch code throws for an index that names no member. */
  const NoMatchingMember: Error := IllegalArgument("Cannot find matching method/constructor")

  /** The message of the Error thrown by the constructor without arguments. */
  const EmptyConstructorMessage: string :=
    "Using the FastClass empty constructor--please report to the cglib-devel mailing list"

  /** FastClass() without a type: it always throws. */
  method CreateWithoutType() returns (r: Result<FastClass, Error>)
    ensures r.Failure? && r.error == JavaError(EmptyConstructorMessage)
  {
    return Failure(JavaError(EmptyConstructorMessage));
  }

  class FastClass {
    /** The wrapped class; set by the constructor and never changed. */
    const javaClass: Class
    /** The method index table: method i is the one index i invokes. */
    const methods: seq<Method>
    /** The constructor index table. */
    const constructors: seq<Constructor>

    /** FastClass(type), with the index tables the generated subclass fixes. */
    constructor (t: Class, methods: seq<Method>, constructors: seq<Constructor>)
      ensures javaClass == t && this.methods == methods && this.constructors == constructors
    {
      javaClass := t;
      this.methods := methods;
      this.constructors := constructors;
    }

    /** getJavaClass */
    function GetJavaClass(): Class {
      javaClass
    }

    /** getName: the wrapped class's getName(). */
    function GetName(): string {
      javaClass.Name()
    }

    /** toString: the wrapped class's toString(). */
    function ToString(): string {
      javaClass.ToString()
    }

    /** hashCode: the wrapped class's hashCode, which `classHash` stands for. */
    function HashCode(classHash: Class -> int): int {
      classHash(javaClass)
    }

    /** equals: false for null and for anything that is not a dispatcher; otherwise whether the wrapped classes are equal. */
    function Equals(o: Other): (r: bool)
      ensures r <==> o.Dispatcher? && o.fastClass.javaClass == javaClass
    {
      match o
      case NullRef => false
      case OtherObject => false
      case Dispatcher(fc) => javaClass == fc.javaClass
    }

    /** getIndex(name, parameterTypes): a method whose key matches, or -1. */
    function GetIndex(name: string, parameterTypes: seq<Class>): (r: int)
      ensures -1 <= r <= GetMaxIndex()
      ensures r >= 0 ==> KeyOf(methods[r]) == SignatureKey(name, TypesOf(parameterTypes))
    {
      MethodIndex(methods, SignatureKey(name, TypesOf(parameterTypes)))
    }

    /** getIndex(parameterTypes): a constructor taking exactly these parameter types, or -1. */
    function GetConstructorIndex(parameterTypes: seq<Class>): (r: int)
      ensures -1 <= r < |constructors|
      ensures r >= 0 ==> constructors[r].parameterTypes == TypesOf(parameterTypes)
    {
      ConstructorIndex(constructors, TypesOf(parameterTypes))
    }

    /** getIndex(Signature): a method with that name and full method descriptor, or -1. */
    function GetIndexBySignature(sig: Signature): (r: int)
      ensures -1 <= r <= GetMaxIndex()
      ensures r >= 0 ==> HasSignature(methods[r], sig)
    {
      SignatureIndex(methods, sig)
    }

    /** getMaxIndex: the largest method index. */
    function GetMaxIndex(): (r: int)
      ensures r + 1 == |methods|
    {
      |methods| - 1
    }

    /** invoke(index, obj, args): calls the method at the index. */
    function Invoke(index: int, obj: Value, args: Option<seq<Value>>): (r: Result<Invocation, Error>)
      ensures r.Success? <==> 0 <= index <= GetMaxIndex()
      ensures r.Success? ==> r.value == Invoked(methods[index], obj, args)
      ensures r.Failure? ==> r.error == NoMatchingMember
    {
      if 0 <= index < |methods| then Success(Invoked(methods[index], obj, args)) else Failure(NoMatchingMember)
    }

    /** newInstance(index, args): runs the constructor at the index. */
    function NewInstanceAt(index: int, args: Option<seq<Value>>): (r: Result<Invocation, Error>)
      ensures r.Success? <==> 0 <= index < |constructors|
      ensures r.Success? ==> r.value == Constructed(constructors[index], args)
      ensures r.Failure? ==> r.error == NoMatchingMember
    {
      if 0 <= index < |constructors| then Success(Constructed(constructors[index], args)) else Failure(NoMatchingMember)
    }

    /** invoke(name, parameterTypes, obj, args): invoke at getIndex(name, parameterTypes). */
    function InvokeMatching(name: string, parameterTypes: seq<Class>, obj: Value, args: Option<seq<Value>>): (r: Result<Invocation, Error>)
      ensures r.Success? <==> GetIndex(name, parameterTypes) >= 0
      ensures r.Success? ==>
        && r.value.Invoked?
        && KeyOf(r.value.callee) == SignatureKey(name, TypesOf(parameterTypes))
        && r.value.target == obj && r.value.args == args
      ensures r.Failure? ==> r.error == NoMatchingMember
    {
      Invoke(GetIndex(name, parameterTypes), obj, args)
    }

    /** newInstance(): the constructor without parameters, with a null argument array. */
    function NewDefaultInstance(): (r: Result<Invocation, Error>)
      ensures r.Success? <==> GetConstructorIndex([]) >= 0
      ensures r.Success? ==> r.value.Constructed? && r.value.ctor.parameterTypes == [] && r.value.args.None?
      ensures r.Failure? ==> r.error == NoMatchingMember
    {
      NewInstanceAt(GetConstructorIndex([]), None)
    }

    /** newInstance(parameterTypes, args): newInstance at getIndex(parameterTypes). */
    function NewInstance(parameterTypes: seq<Class>, args: Option<seq<Value>>): (r: Result<Invocation, Error>)
      ensures r.Success? <==> GetConstructorIndex(parameterTypes) >= 0
      ensures r.Success? ==>
        && r.value.Constructed?
        && r.value.ctor.parameterTypes == TypesOf(parameterTypes)
        && r.value.args == args
      ensures r.Failure? ==> r.error == NoMatchingMember
    {
      NewInstanceAt(GetConstructorIndex(parameterTypes), args)
    }
  }

  // ---------------------------------------------------------------------
  // Properties of the dispatcher
  // ---------------------------------------------------------------------

  /**
   * getIndex returns -1 exactly when no method of the table has the key of
   * name(parameterTypes); otherwise the first method that has it.
   */
  lemma GetIndexMeaning(fc: FastClass, name: string, parameterTypes: seq<Class>)
    ensures var key := SignatureKey(name, TypesOf(parameterTypes));
      && (fc.GetIndex(name, parameterTypes) == -1 <==> forall m <- fc.methods :: KeyOf(m) != key)
      && forall i :: 0 <= i < fc.GetIndex(name, parameterTypes) ==> KeyOf(fc.methods[i]) != key
  {
    MethodIndexMeaning(fc.methods, SignatureKey(name, TypesOf(parameterTypes)));
  }

  /**
   * With well-formed types and names without '(', a found method has exactly
   * the name and parameter types asked for, and any method of the table with
   * that name and those parameter types is found, whatever its return type.
   */
  lemma GetIndexFindsDeclared(fc: FastClass, name: string, parameterTypes: seq<Class>)
    requires '(' !in name && AllWellFormed(TypesOf(parameterTypes))
    requires forall m <- fc.methods :: '(' !in m.name && AllWellFormed(m.parameterTypes)
    ensures var i := fc.GetIndex(name, parameterTypes);
      && (i >= 0 ==> fc.methods[i].name == name && fc.methods[i].parameterTypes == TypesOf(parameterTypes))
      && (i == -1 <==> forall m <- fc.methods :: !(m.name == name && m.parameterTypes == TypesOf(parameterTypes)))
  {
    var i := fc.GetIndex(name, parameterTypes);
    var ts := TypesOf(parameterTypes);
    GetIndexMeaning(fc, name, parameterTypes);
    if i >= 0 {
      var m := fc.methods[i];
      SignatureKeyInjective(m.name, m.parameterTypes, name, ts);
    }
    forall m | m in fc.methods
      ensures KeyOf(m) == SignatureKey(name, ts) <==> m.name == name && m.parameterTypes == ts
    {
      SignatureKeyInjective(m.name, m.parameterTypes, name, ts);
    }
  }

  /** A method found by signature is also found by name and parameter types, at the same index or an earlier one. */
  lemma SignatureIndexAgreesWithGetIndex(fc: FastClass, sig: Signature, parameterTypes: seq<Class>, returnType: ReturnType)
    requires sig.descriptor == MethodDescriptor(TypesOf(parameterTypes), returnType)
    requires AllWellFormed(TypesOf(parameterTypes)) && (returnType.Returns? ==> WellFormed(returnType.returned))
    requires forall m <- fc.methods :: AllWellFormed(m.parameterTypes) && (m.returnType.Returns? ==> WellFormed(m.returnType.returned))
    ensures fc.GetIndexBySignature(sig) >= 0 ==>
      0 <= fc.GetIndex(sig.name, parameterTypes) <= fc.GetIndexBySignature(sig)
  {
    var j := fc.GetIndexBySignature(sig);
    if j >= 0 {
      var m := fc.methods[j];
      MethodDescriptorInjective(m.parameterTypes, m.returnType, TypesOf(parameterTypes), returnType);
      assert KeyOf(m) == SignatureKey(sig.name, TypesOf(parameterTypes));
      MethodIndexMeaning(fc.methods, SignatureKey(sig.name, TypesOf(parameterTypes)));
    }
  }

  /** Every valid method index is between 0 and getMaxIndex, so a found method can be invoked. */
  lemma FoundMethodIsInvocable(fc: FastClass, name: string, parameterTypes: seq<Class>, obj: Value, args: Option<seq<Value>>)
    ensures fc.GetIndex(name, parameterTypes) >= 0 ==>
      fc.InvokeMatching(name, parameterTypes, obj, args)
        == Success(Invoked(fc.methods[fc.GetIndex(name, parameterTypes)], obj, args))
    ensures fc.GetIndex(name, parameterTypes) == -1 ==>
      fc.InvokeMatching(name, parameterTypes, obj, args) == Failure(NoMatchingMember)
  {
  }

  /** newInstance() succeeds exactly when some constructor takes no parameters, and passes a null argument array. */
  lemma NewDefaultInstanceMeaning(fc: FastClass)
    ensures fc.NewDefaultInstance().Success? <==> exists i :: 0 <= i < |fc.constructors| && fc.constructors[i].parameterTypes == []
    ensures fc.NewDefaultInstance().Success? ==>
      fc.NewDefaultInstance().value.Constructed? && fc.NewDefaultInstance().value.ctor.parameterTypes == []
      && fc.NewDefaultInstance().value.args.None?
  {
    assert TypesOf([]) == [];
    ConstructorIndexMeaning(fc.constructors, []);
  }

  /**
   * newInstance(parameterTypes, args) runs a constructor taking exactly those
   * parameter types, with the arguments as given, and fails with the
   * dispatch exception exactly when there is none.
   */
  lemma NewInstanceMeaning(fc: FastClass, parameterTypes: seq<Class>, args: Option<seq<Value>>)
    ensures fc.NewInstance(parameterTypes, args).Success? <==>
      exists i :: 0 <= i < |fc.constructors| && fc.constructors[i].parameterTypes == TypesOf(parameterTypes)
    ensures fc.NewInstance(parameterTypes, args).Success? ==>
      fc.NewInstance(parameterTypes, args).value.Constructed?
      && fc.NewInstance(parameterTypes, args).value.ctor.parameterTypes == TypesOf(parameterTypes)
      && fc.NewInstance(parameterTypes, args).value.args == args
    ensures fc.NewInstance(parameterTypes, args).Failure? ==> fc.NewInstance(parameterTypes, args).error == NoMatchingMember
  {
    ConstructorIndexMeaning(fc.constructors, TypesOf(parameterTypes));
  }

  /** equals is reflexive, symmetric and transitive on dispatchers. */
  lemma EqualsIsEquivalence(a: FastClass, b: FastClass, c: FastClass)
    ensures a.Equals(Dispatcher(a))
    ensures a.Equals(Dispatcher(b)) <==> b.Equals(Dispatcher(a))
    ensures a.Equals(Dispatcher(b)) && b.Equals(Dispatcher(c)) ==> a.Equals(Dispatcher(c))
    ensures !a.Equals(NullRef) && !a.Equals(OtherObject)
  {
  }

  /** Equal dispatchers have equal hash codes, whatever the class hash is. */
  lemma EqualsAgreesWithHashCode(a: FastClass, b: FastClass, classHash: Class -> int)
    ensures a.Equals(Dispatcher(b)) ==> a.HashCode(classHash) == b.HashCode(classHash)
  {
  }

  /** Two dispatchers over the same class report the same name, class and string. */
  lemma EqualDispatchersAgree(a: FastClass, b: FastClass)
    requires a.Equals(Dispatcher(b))
    ensures a.GetJavaClass() == b.GetJavaClass() && a.GetName() == b.GetName() && a.ToString() == b.ToString()
  {
  }
}
