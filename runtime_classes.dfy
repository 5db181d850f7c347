/**
 * The runtime's view of loaded types, as java.lang.Class and
 * java.lang.reflect describe them, plus the failures the reflection helpers
 * raise. Class loading is an oracle: a Loader maps every name that
 * Class.forName(name, false, loader) resolves to the class it resolves to.
 */
module RuntimeClasses {
  import opened Wrappers
  import opened JvmTypes

  /** A method as java.lang.reflect.Method describes it. */
  datatype Method = Method(declaringClass: string, name: string, parameterTypes: seq<JType>, returnType: ReturnType)

  /** A constructor as java.lang.reflect.Constructor describes it. */
  datatype Constructor = Constructor(parameterTypes: seq<JType>, isPublic: bool)

  /**
   * A loaded class, interface, primitive type or array type. `jtype` is its
   * identity as a type, from which Class.getName() follows.
   */
  datatype Class = Class(
    jtype: JType,
    isPublic: bool,
    isInterface: bool,
    superclass: Option<Class>,
    interfaces: seq<Class>,
    declaredMethods: seq<Method>,
    constructors: seq<Constructor>)
  {
    /** Class.getName() */
    function Name(): string {
      ClassGetName(jtype)
    }

    /** Class.toString() */
    function ToString(): string {
      (if isInterface then "interface " else if jtype.Primitive? then "" else "class ") + Name()
    }
  }

  /** The Class object of a primitive type, e.g. Integer.TYPE. */
  function PrimitiveClass(k: PrimitiveKind): (c: Class)
    ensures c.jtype == Primitive(k) && c.Name() == PrimitiveName(k)
  {
    Class(Primitive(k), true, false, None, [], [], [])
  }

  /**
   * The types a Class[] argument stands for, as getDeclaredMethod,
   * getConstructor and Type.getDescriptor see them. Parameter types are thus
   * matched by name; the JDK compares Class objects by identity, which agrees
   * with matching by name within the one class loader this model assumes.
   */
  function TypesOf(cs: seq<Class>): (r: seq<JType>)
    ensures |r| == |cs| && forall i :: 0 <= i < |cs| ==> r[i] == cs[i].jtype
  {
    seq(|cs|, i requires 0 <= i < |cs| => cs[i].jtype)
  }

  /** A member that ReflectUtils.getSignature may be handed. */
  datatype Member =
    | MethodMember(member: Method)
    | ConstructorMember(ctor: Constructor)
    | FieldMember(fieldName: string)

  /** cglib's Signature: a member name and a method descriptor. */
  datatype Signature = Signature(name: string, descriptor: string) {
    /** Signature.toString(): the name directly followed by the descriptor. */
    function ToString(): string {
      name + descriptor
    }
  }

  /** The name the JVM gives every constructor. */
  const ConstructorName: string := "<init>"

  /** A JavaBeans property: its name and its accessors, either of which may be missing. */
  datatype PropertyDescriptor = PropertyDescriptor(name: string, readMethod: Option<Method>, writeMethod: Option<Method>)

  /** An object reference: null or an instance of some class. */
  datatype Value = Null | Instance(runtimeClass: Class, identity: nat)

  /** The exceptions the modelled operations throw. */
  datatype Error =
    | ClassNotFound(className: string)       // java.lang.ClassNotFoundException
    | NoSuchMethod(detail: string)           // java.lang.NoSuchMethodException
    | CodeGeneration(cause: Error)           // cglib's CodeGenerationException around a checked exception
    | IllegalArgument(message: string)       // java.lang.IllegalArgumentException
    | StringIndexOutOfBounds(index: int)     // thrown by String.substring
    | NullPointer                            // java.lang.NullPointerException
    | Introspection(message: string)         // java.beans.IntrospectionException
    | JavaError(message: string)             // java.lang.Error

  /** The names a class loader resolves through Class.forName, and what each resolves to. */
  type Loader = map<string, Class>

  /** The first method of ms with the given name and parameter types. */
  function FirstMatching(ms: seq<Method>, name: string, parameterTypes: seq<JType>): (r: Option<Method>)
    ensures r.Some? ==> r.value in ms && r.value.name == name && r.value.parameterTypes == parameterTypes
    ensures r.None? ==> forall m <- ms :: !(m.name == name && m.parameterTypes == parameterTypes)
  {
    if ms == [] then None
    else if ms[0].name == name && ms[0].parameterTypes == parameterTypes then Some(ms[0])
    else FirstMatching(ms[1..], name, parameterTypes)
  }

  /**
   * Class.getDeclaredMethod(name, parameterTypes): a method the class itself
   * declares with that name and exactly those parameter types, or none.
   */
  function DeclaredMethod(c: Class, name: string, parameterTypes: seq<JType>): (r: Option<Method>)
    ensures r.Some? ==> r.value in c.declaredMethods && r.value.name == name && r.value.parameterTypes == parameterTypes
    ensures r.None? ==> forall m <- c.declaredMethods :: !(m.name == name && m.parameterTypes == parameterTypes)
  {
    FirstMatching(c.declaredMethods, name, parameterTypes)
  }

  /** Class.getConstructor(parameterTypes): a public constructor with exactly those parameter types, or none. */
  function PublicConstructor(c: Class, parameterTypes: seq<JType>): (r: Option<Constructor>)
    ensures r.Some? ==> r.value in c.constructors && r.value.isPublic && r.value.parameterTypes == parameterTypes
    ensures r.None? ==> forall k <- c.constructors :: !(k.isPublic && k.parameterTypes == parameterTypes)
  {
    FirstPublic(c.constructors, parameterTypes)
  }

  function FirstPublic(ks: seq<Constructor>, parameterTypes: seq<JType>): (r: Option<Constructor>)
    ensures r.Some? ==> r.value in ks && r.value.isPublic && r.value.parameterTypes == parameterTypes
    ensures r.None? ==> forall k <- ks :: !(k.isPublic && k.parameterTypes == parameterTypes)
  {
    if ks == [] then None
    else if ks[0].isPublic && ks[0].parameterTypes == parameterTypes then Some(ks[0])
    else FirstPublic(ks[1..], parameterTypes)
  }

  /** The class followed by its superclass, that one's superclass, and so on up to the root. */
  function SuperclassChain(c: Class): (chain: seq<Class>)
    ensures |chain| >= 1 && chain[0] == c
    ensures forall i :: 0 <= i < |chain| - 1 ==> chain[i].superclass == Some(chain[i + 1])
    ensures chain[|chain| - 1].superclass.None?
  {
    match c.superclass
    case None => [c]
    case Some(s) => [c] + SuperclassChain(s)
  }

  /** A java.util.List that the reflection helpers append to. */
  class ArrayList<T> {
    var elements: seq<T>

    constructor ()
      ensures elements == []
    {
      elements := [];
    }

    /** List.addAll: appends xs in order. */
    method AddAll(xs: seq<T>)
      modifies this
      ensures elements == old(elements) + xs
    {
      elements := elements + xs;
    }
  }
}
