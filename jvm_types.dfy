/**
 * Java types as the JVM names them: field descriptors (section 4.3.2 of the
 * Java Virtual Machine Specification), method descriptors (section 4.3.3),
 * the names Class.getName() reports, and parsers that invert the descriptors.
 */
module JvmTypes {
  import opened Wrappers
  import opened JavaStrings

  /** The eight primitive types that may appear as a field or parameter type. */
  datatype PrimitiveKind = Byte | Char | Double | Float | Int | Long | Short | Boolean

  /** A field or parameter type: primitive, class or interface (by binary name, with dots), or array. */
  datatype JType =
    | Primitive(kind: PrimitiveKind)
    | Reference(name: string)
    | ArrayOf(component: JType)

  /** A method's return type: void or a field type. */
  datatype ReturnType = Void | Returns(returned: JType)

  /** The Java keyword of a primitive type. */
  function PrimitiveName(k: PrimitiveKind): string {
    match k
    case Byte => "byte"
    case Char => "char"
    case Double => "double"
    case Float => "float"
    case Int => "int"
    case Long => "long"
    case Short => "short"
    case Boolean => "boolean"
  }

  /** The BaseType character of a primitive type (table 4.3-A of the JVM Specification). */
  function PrimitiveCode(k: PrimitiveKind): char {
    match k
    case Byte => 'B'
    case Char => 'C'
    case Double => 'D'
    case Float => 'F'
    case Int => 'I'
    case Long => 'J'
    case Short => 'S'
    case Boolean => 'Z'
  }

  /** Lookup of a primitive type by its keyword. */
  function PrimitiveNamed(name: string): (r: Option<PrimitiveKind>)
    ensures r.Some? ==> PrimitiveName(r.value) == name
    ensures r.None? ==> forall k :: PrimitiveName(k) != name
  {
    if name == "byte" then Some(Byte)
    else if name == "char" then Some(Char)
    else if name == "double" then Some(Double)
    else if name == "float" then Some(Float)
    else if name == "int" then Some(Int)
    else if name == "long" then Some(Long)
    else if name == "short" then Some(Short)
    else if name == "boolean" then Some(Boolean)
    else None
  }

  /** Every primitive keyword looks up its own primitive type. */
  lemma PrimitiveNamedOf(k: PrimitiveKind)
    ensures PrimitiveNamed(PrimitiveName(k)) == Some(k)
  {
    match k
    case Byte =>
    case Char =>
    case Double =>
    case Float =>
    case Int =>
    case Long =>
    case Short =>
    case Boolean =>
  }

  /** Lookup of a primitive type by its BaseType character. */
  function PrimitiveWithCode(c: char): (r: Option<PrimitiveKind>)
    ensures r.Some? ==> PrimitiveCode(r.value) == c
    ensures r.None? ==> forall k :: PrimitiveCode(k) != c
  {
    if c == 'B' then Some(Byte)
    else if c == 'C' then Some(Char)
    else if c == 'D' then Some(Double)
    else if c == 'F' then Some(Float)
    else if c == 'I' then Some(Int)
    else if c == 'J' then Some(Long)
    else if c == 'S' then Some(Short)
    else if c == 'Z' then Some(Boolean)
    else None
  }

  /**
   * A binary class name that the descriptor syntax can carry unambiguously:
   * it holds no ';' (which ends a class descriptor) and no '/' (which the
   * internal form uses in place of '.'). Java class names satisfy both.
   */
  predicate WellFormedName(n: string) {
    ';' !in n && '/' !in n
  }

  predicate WellFormed(t: JType) {
    match t
    case Primitive(_) => true
    case Reference(n) => WellFormedName(n)
    case ArrayOf(c) => WellFormed(c)
  }

  predicate AllWellFormed(ts: seq<JType>) {
    forall t <- ts :: WellFormed(t)
  }

  /** The string with every occurrence of `from` replaced by `to`, as String.replace(char, char). */
  function Replace(n: string, from: char, to: char): (r: string)
    ensures |r| == |n|
    ensures forall i :: 0 <= i < |n| ==> r[i] == if n[i] == from then to else n[i]
  {
    if n == [] then [] else [if n[0] == from then to else n[0]] + Replace(n[1..], from, to)
  }

  /** The internal form of a binary name (section 4.2.1 of the Java Virtual Machine Specification): every '.' becomes '/'. */
  function InternalName(n: string): string {
    Replace(n, '.', '/')
  }

  /** The binary name of an internal form: every '/' becomes '.'. */
  function BinaryName(n: string): string {
    Replace(n, '/', '.')
  }

  lemma BinaryOfInternal(n: string)
    requires '/' !in n
    ensures BinaryName(InternalName(n)) == n
  {
    var b := BinaryName(InternalName(n));
    assert forall i :: 0 <= i < |n| ==> b[i] == n[i];
  }

  /** The field descriptor of a type (section 4.3.2). */
  function FieldDescriptor(t: JType): string {
    match t
    case Primitive(k) => [PrimitiveCode(k)]
    case Reference(n) => "L" + InternalName(n) + ";"
    case ArrayOf(c) => "[" + FieldDescriptor(c)
  }

  /** The parameter part of a method descriptor: the field descriptors of the parameters, in order. */
  function ParameterDescriptors(ts: seq<JType>): string {
    if ts == [] then "" else FieldDescriptor(ts[0]) + ParameterDescriptors(ts[1..])
  }

  /** The return part of a method descriptor: 'V' or a field descriptor. */
  function ReturnDescriptor(r: ReturnType): string {
    match r
    case Void => "V"
    case Returns(t) => FieldDescriptor(t)
  }

  /** The method descriptor of section 4.3.3: "(" parameters ")" return. */
  function MethodDescriptor(ps: seq<JType>, r: ReturnType): string {
    "(" + ParameterDescriptors(ps) + ")" + ReturnDescriptor(r)
  }

  /** Reads one field descriptor off the front of s, giving the type and the unread rest. */
  function ParseFieldDescriptor(s: string): (r: Option<(JType, string)>)
    ensures r.Some? ==> |r.value.1| < |s| && r.value.1 == s[|s| - |r.value.1|..]
  {
    if s == [] then None
    else if s[0] == '[' then
      match ParseFieldDescriptor(s[1..])
      case None => None
      case Some((c, rest)) => Some((ArrayOf(c), rest))
    else if s[0] == 'L' then
      var semi := IndexOf(s, ';', 1);
      if semi < 0 then None else Some((Reference(BinaryName(s[1..semi])), s[semi + 1..]))
    else
      match PrimitiveWithCode(s[0])
      case None => None
      case Some(k) => Some((Primitive(k), s[1..]))
  }

  /** Reads field descriptors off the front of s up to the ')' that closes a parameter list (left unread). */
  function ParseParameterDescriptors(s: string): (r: Option<(seq<JType>, string)>)
    ensures r.Some? ==> 0 < |r.value.1| <= |s| && r.value.1[0] == ')'
    decreases |s|
  {
    if s == [] then None
    else if s[0] == ')' then Some(([], s))
    else
      match ParseFieldDescriptor(s)
      case None => None
      case Some((t, rest)) =>
        match ParseParameterDescriptors(rest)
        case None => None
        case Some((ts, tail)) => Some(([t] + ts, tail))
  }

  /** Reads a whole return descriptor. */
  function ParseReturnDescriptor(s: string): Option<ReturnType> {
    if s == "V" then Some(Void)
    else
      match ParseFieldDescriptor(s)
      case Some((t, rest)) => if rest == [] then Some(Returns(t)) else None
      case None => None
  }

  /** Reads a whole method descriptor. */
  function ParseMethodDescriptor(s: string): Option<(seq<JType>, ReturnType)> {
    if s == [] || s[0] != '(' then None
    else
      match ParseParameterDescriptors(s[1..])
      case None => None
      case Some((ps, rest)) =>
        match ParseReturnDescriptor(rest[1..])
        case None => None
        case Some(r) => Some((ps, r))
  }

  /** No field descriptor is empty, and none starts with ')' or is the void descriptor. */
  lemma FieldDescriptorShape(t: JType)
    ensures |FieldDescriptor(t)| > 0
    ensures FieldDescriptor(t)[0] != ')' && FieldDescriptor(t)[0] != 'V'
    ensures FieldDescriptor(t) != "V"
  {
  }

  /** Parsing a field descriptor gives back the type and exactly the text that followed it. */
  lemma {:induction false} FieldDescriptorRoundTrip(t: JType, rest: string)
    requires WellFormed(t)
    ensures ParseFieldDescriptor(FieldDescriptor(t) + rest) == Some((t, rest))
  {
    var s := FieldDescriptor(t) + rest;
    match t
    case Primitive(k) =>
      assert s[1..] == rest;
    case Reference(n) =>
      ReferenceDescriptorRoundTrip(n, rest);
    case ArrayOf(c) =>
      assert s[1..] == FieldDescriptor(c) + rest;
      FieldDescriptorRoundTrip(c, rest);
  }

  lemma ReferenceDescriptorRoundTrip(n: string, rest: string)
    requires WellFormedName(n)
    ensures ParseFieldDescriptor(FieldDescriptor(Reference(n)) + rest) == Some((Reference(n), rest))
  {
    var s := FieldDescriptor(Reference(n)) + rest;
    var internal := InternalName(n);
    assert s == "L" + internal + ";" + rest;
    assert s[|n| + 1] == ';';
    assert s[1..|n| + 1] == internal;
    assert ';' !in internal by {
      forall i | 0 <= i < |internal|
        ensures internal[i] != ';'
      {
        assert n[i] in n;
      }
    }
    IndexOfAt(s, ';', 1, |n| + 1);
    assert s[1..|n| + 1] == internal;
    assert s[|n| + 2..] == rest;
    BinaryOfInternal(n);
  }

  /** Parsing a parameter list gives back the types, in order, and the text from the closing ')' on. */
  lemma {:induction false} ParameterDescriptorsRoundTrip(ts: seq<JType>, rest: string)
    requires AllWellFormed(ts)
    requires |rest| > 0 && rest[0] == ')'
    ensures ParseParameterDescriptors(ParameterDescriptors(ts) + rest) == Some((ts, rest))
  {
    if ts == [] {
      assert ParameterDescriptors(ts) + rest == rest;
    } else {
      var tail := ParameterDescriptors(ts[1..]) + rest;
      ParameterDescriptorsCons(ts, rest);
      FieldDescriptorShape(ts[0]);
      FieldDescriptorRoundTrip(ts[0], tail);
      ParameterDescriptorsRoundTrip(ts[1..], rest);
      ParseParameterDescriptorsCons(FieldDescriptor(ts[0]) + tail, ts[0], tail, ts[1..], rest);
      assert [ts[0]] + ts[1..] == ts;
    }
  }

  lemma ParameterDescriptorsCons(ts: seq<JType>, rest: string)
    requires ts != []
    ensures ParameterDescriptors(ts) + rest == FieldDescriptor(ts[0]) + (ParameterDescriptors(ts[1..]) + rest)
  {
  }

  /** How ParseParameterDescriptors reads one field descriptor and then the rest of the list. */
  lemma ParseParameterDescriptorsCons(s: string, t: JType, tail: string, ts: seq<JType>, rest: string)
    requires s != [] && s[0] != ')'
    requires ParseFieldDescriptor(s) == Some((t, tail))
    requires ParseParameterDescriptors(tail) == Some((ts, rest))
    ensures ParseParameterDescriptors(s) == Some(([t] + ts, rest))
  {
  }

  /** Parsing a return descriptor gives back the return type. */
  lemma ReturnDescriptorRoundTrip(r: ReturnType)
    requires r.Returns? ==> WellFormed(r.returned)
    ensures ParseReturnDescriptor(ReturnDescriptor(r)) == Some(r)
  {
    if r.Returns? {
      FieldDescriptorShape(r.returned);
      FieldDescriptorRoundTrip(r.returned, "");
      assert FieldDescriptor(r.returned) + "" == FieldDescriptor(r.returned);
    }
  }

  /** Parsing a method descriptor gives back its parameter types and return type. */
  lemma MethodDescriptorRoundTrip(ps: seq<JType>, r: ReturnType)
    requires AllWellFormed(ps)
    requires r.Returns? ==> WellFormed(r.returned)
    ensures ParseMethodDescriptor(MethodDescriptor(ps, r)) == Some((ps, r))
  {
    var rest := ")" + ReturnDescriptor(r);
    var s := MethodDescriptor(ps, r);
    MethodDescriptorParts(ps, r);
    ParameterDescriptorsRoundTrip(ps, rest);
    ReturnDescriptorRoundTrip(r);
    ParseMethodDescriptorSteps(s, ps, rest, r);
  }

  lemma MethodDescriptorParts(ps: seq<JType>, r: ReturnType)
    ensures |MethodDescriptor(ps, r)| > 0 && MethodDescriptor(ps, r)[0] == '('
    ensures MethodDescriptor(ps, r)[1..] == ParameterDescriptors(ps) + (")" + ReturnDescriptor(r))
    ensures (")" + ReturnDescriptor(r))[1..] == ReturnDescriptor(r)
  {
    assert MethodDescriptor(ps, r) == "(" + (ParameterDescriptors(ps) + (")" + ReturnDescriptor(r)));
  }

  /** How ParseMethodDescriptor composes its two steps. */
  lemma ParseMethodDescriptorSteps(s: string, ps: seq<JType>, rest: string, r: ReturnType)
    requires |s| > 0 && s[0] == '('
    requires ParseParameterDescriptors(s[1..]) == Some((ps, rest))
    requires ParseReturnDescriptor(rest[1..]) == Some(r)
    ensures ParseMethodDescriptor(s) == Some((ps, r))
  {
  }

  /** Distinct parameter lists have distinct descriptors. */
  lemma ParameterDescriptorsInjective(p1: seq<JType>, p2: seq<JType>)
    requires AllWellFormed(p1) && AllWellFormed(p2)
    ensures ParameterDescriptors(p1) == ParameterDescriptors(p2) <==> p1 == p2
  {
    if ParameterDescriptors(p1) == ParameterDescriptors(p2) {
      ParameterDescriptorsRoundTrip(p1, ")");
      ParameterDescriptorsRoundTrip(p2, ")");
    }
  }

  /** Distinct (parameters, return type) pairs have distinct method descriptors. */
  lemma MethodDescriptorInjective(p1: seq<JType>, r1: ReturnType, p2: seq<JType>, r2: ReturnType)
    requires AllWellFormed(p1) && (r1.Returns? ==> WellFormed(r1.returned))
    requires AllWellFormed(p2) && (r2.Returns? ==> WellFormed(r2.returned))
    ensures MethodDescriptor(p1, r1) == MethodDescriptor(p2, r2) <==> p1 == p2 && r1 == r2
  {
    MethodDescriptorRoundTrip(p1, r1);
    MethodDescriptorRoundTrip(p2, r2);
  }

  /** Appending a parameter appends its field descriptor. */
  lemma {:induction false} ParameterDescriptorsAppend(ts: seq<JType>, t: JType)
    ensures ParameterDescriptors(ts + [t]) == ParameterDescriptors(ts) + FieldDescriptor(t)
  {
    if ts == [] {
      assert ts + [t] == [t];
    } else {
      assert (ts + [t])[1..] == ts[1..] + [t];
      ParameterDescriptorsAppend(ts[1..], t);
    }
  }

  /** How an array's component type is spelled inside Class.getName(): a descriptor that keeps the dots. */
  function ComponentName(t: JType): string {
    match t
    case Primitive(k) => [PrimitiveCode(k)]
    case Reference(n) => "L" + n + ";"
    case ArrayOf(c) => "[" + ComponentName(c)
  }

  /** Class.getName(): the keyword of a primitive, the binary name of a class, "[" + component for an array. */
  function ClassGetName(t: JType): string {
    match t
    case Primitive(k) => PrimitiveName(k)
    case Reference(n) => n
    case ArrayOf(c) => "[" + ComponentName(c)
  }

  /** For an array type, Class.getName() is the field descriptor with its '/' turned back into '.'. */
  lemma {:induction false} ArrayClassName(t: JType)
    requires t.ArrayOf? && WellFormed(t)
    ensures ClassGetName(t) == BinaryName(FieldDescriptor(t))
  {
    ComponentNameIsDescriptor(t.component);
    BinaryNameConcat("[", FieldDescriptor(t.component));
  }

  lemma {:induction false} ComponentNameIsDescriptor(t: JType)
    requires WellFormed(t)
    ensures ComponentName(t) == BinaryName(FieldDescriptor(t))
  {
    match t
    case Primitive(k) =>
    case Reference(n) =>
      BinaryNameConcat("L" + InternalName(n), ";");
      BinaryNameConcat("L", InternalName(n));
      BinaryOfInternal(n);
    case ArrayOf(c) =>
      ComponentNameIsDescriptor(c);
      BinaryNameConcat("[", FieldDescriptor(c));
  }

  lemma BinaryNameConcat(a: string, b: string)
    ensures BinaryName(a + b) == BinaryName(a) + BinaryName(b)
  {
    var l := BinaryName(a + b);
    var r := BinaryName(a) + BinaryName(b);
    assert forall i :: 0 <= i < |l| ==> l[i] == r[i];
  }
}
