/**
 * cglib's ReflectUtils: parsing textual member descriptors such as
 * "java.lang.String.indexOf(int, int)", resolving type names with "[]"
 * suffixes, walking class hierarchies, and small filtering helpers.
 *
 * Java arrays that an operation only reads are sequences here; arrays that
 * it allocates and fills are Dafny arrays.
 */
module ReflectUtils {
  import opened Wrappers
  import opened JavaStrings
  import opened JvmTypes
  import opened RuntimeClasses

  // ---------------------------------------------------------------------
  // getSignature
  // ---------------------------------------------------------------------

  /**
   * ReflectUtils.getSignature: a method's name and method descriptor; for a
   * constructor, "<init>" and the descriptor of its parameters with a void
   * return; a field has no signature.
   */
  function GetSignature(member: Member): (r: Result<Signature, Error>)
    ensures r.Failure? <==> member.FieldMember?
    ensures r.Failure? ==> r.error == IllegalArgument("Cannot get signature of a field")
    ensures member.MethodMember? ==> r.value.name == member.member.name
    ensures member.ConstructorMember? ==> r.value.name == ConstructorName
  {
    match member
    case MethodMember(m) => Success(Signature(m.name, MethodDescriptor(m.parameterTypes, m.returnType)))
    case ConstructorMember(k) => Success(Signature(ConstructorName, MethodDescriptor(k.parameterTypes, Void)))
    case FieldMember(_) => Failure(IllegalArgument("Cannot get signature of a field"))
  }

  /** The descriptor in a member's signature reads back as the member's parameter types and return type. */
  lemma GetSignatureDescriptorRoundTrip(member: Member)
    requires member.MethodMember? ==> AllWellFormed(member.member.parameterTypes)
    requires member.MethodMember? && member.member.returnType.Returns? ==> WellFormed(member.member.returnType.returned)
    requires member.ConstructorMember? ==> AllWellFormed(member.ctor.parameterTypes)
    ensures member.MethodMember? ==>
      ParseMethodDescriptor(GetSignature(member).value.descriptor) == Some((member.member.parameterTypes, member.member.returnType))
    ensures member.ConstructorMember? ==>
      ParseMethodDescriptor(GetSignature(member).value.descriptor) == Some((member.ctor.parameterTypes, Void))
  {
    match member
    case MethodMember(m) => MethodDescriptorRoundTrip(m.parameterTypes, m.returnType);
    case ConstructorMember(k) => MethodDescriptorRoundTrip(k.parameterTypes, Void);
    case FieldMember(_) =>
  }

  // ---------------------------------------------------------------------
  // findInterfaceMethod, findNewInstance
  // ---------------------------------------------------------------------

  /** ReflectUtils.findInterfaceMethod: the single method an interface declares. */
  function FindInterfaceMethod(iface: Class): (r: Result<Method, Error>)
    ensures r.Success? <==> iface.isInterface && |iface.declaredMethods| == 1
    ensures r.Success? ==> r.value == iface.declaredMethods[0]
    ensures !iface.isInterface ==> r == Failure(IllegalArgument(iface.ToString() + " is not an interface"))
    ensures iface.isInterface && |iface.declaredMethods| != 1 ==>
      r == Failure(IllegalArgument("expecting exactly 1 method in " + iface.ToString()))
  {
    if !iface.isInterface then Failure(IllegalArgument(iface.ToString() + " is not an interface"))
    else if |iface.declaredMethods| != 1 then Failure(IllegalArgument("expecting exactly 1 method in " + iface.ToString()))
    else Success(iface.declaredMethods[0])
  }

  /** ReflectUtils.findNewInstance: the single method of an interface, which must be called newInstance. */
  function FindNewInstance(iface: Class): (r: Result<Method, Error>)
    ensures r.Success? <==> iface.isInterface && |iface.declaredMethods| == 1 && iface.declaredMethods[0].name == "newInstance"
    ensures r.Success? ==> r.value == iface.declaredMethods[0]
    ensures FindInterfaceMethod(iface).Failure? ==> r == FindInterfaceMethod(iface)
    ensures FindInterfaceMethod(iface).Success? && r.Failure? ==>
      r.error == IllegalArgument(iface.ToString() + " missing newInstance method")
  {
    match FindInterfaceMethod(iface)
    case Failure(e) => Failure(e)
    case Success(m) =>
      if m.name != "newInstance" then Failure(IllegalArgument(iface.ToString() + " missing newInstance method"))
      else Success(m)
  }

  // ---------------------------------------------------------------------
  // getClass: resolving a type name with "[]" suffixes
  // ---------------------------------------------------------------------

  /** The packages getClass also looks a bare name up in. */
  const CglibPackages: seq<string> := ["java.lang"]

  /** The number of places where "[]" starts in s. */
  function BracketPairs(s: string): nat {
    if |s| < 2 then 0
    else (if s[0] == '[' && s[1] == ']' then 1 else 0) + BracketPairs(s[1..])
  }

  /** "[]" pairs cannot overlap, so there are at most |s| / 2 of them. */
  lemma {:induction false} BracketPairsBound(s: string)
    ensures 2 * BracketPairs(s) <= |s|
  {
    if |s| >= 2 {
      if s[0] == '[' && s[1] == ']' {
        assert s[1..][1..] == s[2..];
        BracketPairsBound(s[2..]);
      } else {
        BracketPairsBound(s[1..]);
      }
    }
  }

  /** Counting from index i equals counting from p when no pair starts in between. */
  lemma {:induction false} BracketPairsSkip(s: string, i: nat, p: nat)
    requires i <= p <= |s|
    requires forall j :: i <= j < p ==> !BracketPairAt(s, j)
    ensures BracketPairs(s[i..]) == BracketPairs(s[p..])
    decreases p - i
  {
    if i < p {
      assert !BracketPairAt(s, i);
      if |s[i..]| >= 2 {
        assert s[i..][1..] == s[i + 1..];
        assert BracketPairs(s[i..]) == BracketPairs(s[i + 1..]);
      }
      BracketPairsSkip(s, i + 1, p);
    }
  }

  lemma BracketPairsStep(s: string, p: nat)
    requires BracketPairAt(s, p)
    ensures BracketPairs(s[p..]) == 1 + BracketPairs(s[p + 1..])
  {
    assert s[p..][1..] == s[p + 1..];
  }

  /** Pairs within x and within y add up when no pair straddles the seam. */
  lemma {:induction false} BracketPairsConcat(x: string, y: string)
    requires x == [] || y == [] || !(x[|x| - 1] == '[' && y[0] == ']')
    ensures BracketPairs(x + y) == BracketPairs(x) + BracketPairs(y)
  {
    if x == [] {
      assert x + y == y;
    } else {
      assert (x + y)[1..] == x[1..] + y;
      BracketPairsConcat(x[1..], y);
    }
  }

  /** d copies of "[]", the suffix of a d-dimensional array type name. */
  function ArraySuffix(d: nat): (r: string)
    ensures |r| == 2 * d
  {
    if d == 0 then "" else "[]" + ArraySuffix(d - 1)
  }

  lemma {:induction false} BracketPairsOfArraySuffix(d: nat)
    ensures BracketPairs(ArraySuffix(d)) == d
    ensures d > 0 ==> ArraySuffix(d)[0] == '['
  {
    if d > 0 {
      BracketPairsOfArraySuffix(d - 1);
      BracketPairsConcat("[]", ArraySuffix(d - 1));
    }
  }

  /** A name without '[' holds no "[]" pair. */
  lemma {:induction false} BracketPairsWithoutBrackets(s: string)
    requires '[' !in s
    ensures BracketPairs(s) == 0
  {
    if |s| >= 2 {
      assert s[0] != '[';
      BracketPairsWithoutBrackets(s[1..]);
    }
  }

  /** The number of array dimensions getClass reads off a name: one per "[]" anywhere in it. */
  function Dimensions(className: string): nat {
    BracketPairs(className)
  }

  /** The name getClass looks up: className with two characters per dimension cut off its end. */
  function BaseName(className: string): string {
    BracketPairsBound(className);
    className[..|className| - 2 * Dimensions(className)]
  }

  /** A base name free of "[]" followed by d pairs of brackets has d dimensions and gives back that base. */
  lemma ArrayNameParts(base: string, d: nat)
    requires BracketPairs(base) == 0
    ensures Dimensions(base + ArraySuffix(d)) == d
    ensures BaseName(base + ArraySuffix(d)) == base
  {
    BracketPairsOfArraySuffix(d);
    BracketPairsConcat(base, ArraySuffix(d));
    assert (base + ArraySuffix(d))[..|base|] == base;
  }

  /** How Class.forName is asked for `name` at a dimension count: "[" per dimension, then "L" name ";" for arrays. */
  function ForNameForm(name: string, dimensions: nat): string {
    if dimensions > 0 then Repeat('[', dimensions) + "L" + name + ";" else name
  }

  /** The names getClass hands Class.forName in turn: the base name itself, then the base name in each package. */
  function ForNameCandidates(base: string, dimensions: nat, packages: seq<string>): (r: seq<string>)
    ensures |r| == |packages| + 1
  {
    [ForNameForm(base, dimensions)] + PackageForms(base, dimensions, packages)
  }

  function PackageForms(base: string, dimensions: nat, packages: seq<string>): (r: seq<string>)
    ensures |r| == |packages|
  {
    if packages == [] then []
    else [ForNameForm(packages[0] + "." + base, dimensions)] + PackageForms(base, dimensions, packages[1..])
  }

  /** The candidates are the base name, then the base name qualified by each package in order. */
  lemma {:induction false} ForNameCandidatesAt(base: string, dimensions: nat, packages: seq<string>)
    ensures ForNameCandidates(base, dimensions, packages)[0] == ForNameForm(base, dimensions)
    ensures forall i :: 0 <= i < |packages| ==>
      ForNameCandidates(base, dimensions, packages)[i + 1] == ForNameForm(packages[i] + "." + base, dimensions)
  {
    PackageFormsAt(base, dimensions, packages);
  }

  lemma {:induction false} PackageFormsAt(base: string, dimensions: nat, packages: seq<string>)
    ensures forall i :: 0 <= i < |packages| ==>
      PackageForms(base, dimensions, packages)[i] == ForNameForm(packages[i] + "." + base, dimensions)
  {
    if packages != [] {
      PackageFormsAt(base, dimensions, packages[1..]);
    }
  }

  /** The class the first resolvable name resolves to, if any name resolves. */
  function FirstLoadable(loader: Loader, names: seq<string>): Option<Class> {
    if names == [] then None
    else if names[0] in loader then Some(loader[names[0]])
    else FirstLoadable(loader, names[1..])
  }

  /** FirstLoadable finds nothing exactly when no name resolves, and otherwise the class of the first name that does. */
  lemma {:induction false} FirstLoadableMeaning(loader: Loader, names: seq<string>)
    ensures FirstLoadable(loader, names).None? <==> forall n <- names :: n !in loader
    ensures FirstLoadable(loader, names).Some? ==>
      exists i :: (&& 0 <= i < |names| && names[i] in loader
                   && FirstLoadable(loader, names).value == loader[names[i]]
                   && forall j :: 0 <= j < i ==> names[j] !in loader)
  {
    if names != [] && names[0] !in loader {
      FirstLoadableMeaning(loader, names[1..]);
      assert forall j :: 1 <= j < |names| ==> names[j] == names[1..][j - 1];
      if FirstLoadable(loader, names).Some? {
        var i :| 0 <= i < |names[1..]| && names[1..][i] in loader && FirstLoadable(loader, names[1..]).value == loader[names[1..][i]]
          && forall j :: 0 <= j < i ==> names[1..][j] !in loader;
        assert names[i + 1] in loader;
      }
    }
  }

  /**
   * What getClass(className, loader, packages) yields: the first of the
   * Class.forName candidates that resolves; failing that, for a plain name,
   * the primitive type of that keyword, and for an array of a primitive, the
   * class named by "[" per dimension and the primitive's descriptor letter.
   * Any other outcome is ClassNotFoundException carrying the original name.
   */
  function ResolveClassName(loader: Loader, className: string, packages: seq<string>): (r: Result<Class, Error>)
    ensures r.Failure? ==> r.error == ClassNotFound(className)
  {
    var dimensions := Dimensions(className);
    var base := BaseName(className);
    match FirstLoadable(loader, ForNameCandidates(base, dimensions, packages))
    case Some(c) => Success(c)
    case None =>
      match PrimitiveNamed(base)
      case None => Failure(ClassNotFound(className))
      case Some(k) =>
        if dimensions == 0 then Success(PrimitiveClass(k))
        else
          var name := Repeat('[', dimensions) + [PrimitiveCode(k)];
          if name in loader then Success(loader[name]) else Failure(ClassNotFound(className))
  }

  /** The counting loop of getClass: each search for "[]" resumes one past the previous hit. */
  method CountDimensions(className: string) returns (dimensions: nat)
    ensures dimensions == Dimensions(className)
  {
    dimensions := 0;
    var index := 0;
    var found := IndexOfBracketPair(className, index);
    while found >= 0
      invariant 0 <= index <= |className|
      invariant found == IndexOfBracketPair(className, index)
      invariant dimensions + BracketPairs(className[index..]) == BracketPairs(className)
      decreases |className| - index
    {
      IndexOfBracketPairMeaning(className, index);
      BracketPairsSkip(className, index, found);
      BracketPairsStep(className, found);
      dimensions := dimensions + 1;
      index := found + 1;
      found := IndexOfBracketPair(className, index);
    }
    IndexOfBracketPairMeaning(className, index);
    BracketPairsSkip(className, index, |className|);
  }

  /** The "[" prefix getClass builds, one per dimension. */
  method Brackets(dimensions: nat) returns (brackets: string)
    ensures brackets == Repeat('[', dimensions)
  {
    brackets := "";
    for i := 0 to dimensions
      invariant brackets == Repeat('[', i)
    {
      brackets := brackets + "[";
    }
  }

  lemma ForNameFormParts(prefix: string, name: string, suffix: string, dimensions: nat)
    requires prefix == if dimensions > 0 then Repeat('[', dimensions) + "L" else ""
    requires suffix == if dimensions > 0 then ";" else ""
    ensures prefix + name + suffix == ForNameForm(name, dimensions)
  {
    if dimensions == 0 {
      assert prefix + name + suffix == name;
    }
  }

  /** ReflectUtils.getClass(className, loader, packages). */
  method GetClass(className: string, loader: Loader, packages: seq<string>) returns (r: Result<Class, Error>)
    ensures r == ResolveClassName(loader, className, packages)
  {
    var dimensions := CountDimensions(className);
    var brackets := Brackets(dimensions);
    var base := BaseName(className);
    var prefix := if dimensions > 0 then brackets + "L" else "";
    var suffix := if dimensions > 0 then ";" else "";
    ghost var candidates := ForNameCandidates(base, dimensions, packages);
    ForNameCandidatesAt(base, dimensions, packages);
    FirstLoadableMeaning(loader, candidates);
    ForNameFormParts(prefix, base, suffix, dimensions);
    if prefix + base + suffix in loader {
      return Success(loader[prefix + base + suffix]);
    }
    for i := 0 to |packages|
      invariant forall j :: 0 <= j <= i ==> candidates[j] !in loader
    {
      var name := prefix + (packages[i] + "." + base) + suffix;
      ForNameFormParts(prefix, packages[i] + "." + base, suffix, dimensions);
      if name in loader {
        return Success(loader[name]);
      }
    }
    assert forall n <- candidates :: n !in loader;
    if dimensions == 0 {
      var k := PrimitiveNamed(base);
      if k.Some? {
        return Success(PrimitiveClass(k.value));
      }
    } else {
      var transform := PrimitiveNamed(base);
      if transform.Some? {
        var name := brackets + [PrimitiveCode(transform.value)];
        if name in loader {
          return Success(loader[name]);
        }
      }
    }
    return Failure(ClassNotFound(className));
  }

  /** A primitive keyword that no loader candidate shadows resolves to the primitive class. */
  lemma PrimitiveNameResolves(loader: Loader, k: PrimitiveKind, packages: seq<string>)
    requires PrimitiveName(k) !in loader
    requires forall p <- packages :: p + "." + PrimitiveName(k) !in loader
    ensures ResolveClassName(loader, PrimitiveName(k), packages) == Success(PrimitiveClass(k))
  {
    var name := PrimitiveName(k);
    PrimitiveNameHasNoPairs(k);
    assert BaseName(name) == name;
    PlainCandidatesAbsent(loader, name, packages);
    FirstLoadableMeaning(loader, ForNameCandidates(name, 0, packages));
    PrimitiveNamedOf(k);
  }

  /** When neither a plain name nor any package-qualified form of it is known, no candidate resolves. */
  lemma PlainCandidatesAbsent(loader: Loader, name: string, packages: seq<string>)
    requires name !in loader
    requires forall p <- packages :: p + "." + name !in loader
    ensures forall n <- ForNameCandidates(name, 0, packages) :: n !in loader
  {
    var candidates := ForNameCandidates(name, 0, packages);
    ForNameCandidatesAt(name, 0, packages);
    forall n | n in candidates
      ensures n !in loader
    {
      var i :| 0 <= i < |candidates| && candidates[i] == n;
      if i > 0 {
        assert packages[i - 1] in packages;
      }
    }
  }

  lemma PrimitiveNameHasNoPairs(k: PrimitiveKind)
    ensures BracketPairs(PrimitiveName(k)) == 0
  {
    assert '[' !in PrimitiveName(k) by {
      match k
      case Byte =>
      case Char =>
      case Double =>
      case Float =>
      case Int =>
      case Long =>
      case Short =>
      case Boolean =>
    }
    BracketPairsWithoutBrackets(PrimitiveName(k));
  }

  /**
   * An array of a primitive whose "[...[Lkeyword;" candidates do not resolve
   * falls back to the descriptor form "[...[" + letter, and fails with the
   * original name when that does not resolve either.
   */
  lemma PrimitiveArrayResolves(loader: Loader, k: PrimitiveKind, d: nat, packages: seq<string>)
    requires d > 0
    requires forall n <- ForNameCandidates(PrimitiveName(k), d, packages) :: n !in loader
    ensures var descriptorForm := Repeat('[', d) + [PrimitiveCode(k)];
      ResolveClassName(loader, PrimitiveName(k) + ArraySuffix(d), packages)
        == if descriptorForm in loader then Success(loader[descriptorForm])
           else Failure(ClassNotFound(PrimitiveName(k) + ArraySuffix(d)))
  {
    var name := PrimitiveName(k);
    PrimitiveNameHasNoPairs(k);
    ArrayNameParts(name, d);
    FirstLoadableMeaning(loader, ForNameCandidates(name, d, packages));
    PrimitiveNamedOf(k);
  }

  /** A class name followed by d "[]" pairs is first looked up as "[...[L" name ";". */
  lemma ReferenceArrayResolves(loader: Loader, base: string, d: nat, packages: seq<string>)
    requires BracketPairs(base) == 0 && d > 0
    requires Repeat('[', d) + "L" + base + ";" in loader
    ensures ResolveClassName(loader, base + ArraySuffix(d), packages) == Success(loader[Repeat('[', d) + "L" + base + ";"])
  {
    ArrayNameParts(base, d);
  }

  // ---------------------------------------------------------------------
  // parseTypes
  // ---------------------------------------------------------------------

  /**
   * The untrimmed pieces parseTypes cuts from desc, starting at `start`: the
   * text up to each following comma, then the text up to rparen when any
   * remains.
   */
  function PiecesFrom(desc: string, start: nat, rparen: int): seq<string>
    requires start <= |desc| && rparen <= |desc|
    decreases |desc| - start
  {
    var comma := IndexOf(desc, ',', start);
    if comma < 0 then (if start < rparen then [desc[start..rparen]] else [])
    else [desc[start..comma]] + PiecesFrom(desc, comma + 1, rparen)
  }

  /** The parameter type names parseTypes reads from a descriptor, each trimmed. */
  function ParameterPieces(desc: string): seq<string> {
    var lparen := IndexOf(desc, '(', 0);
    var rparen := IndexOf(desc, ')', lparen);
    TrimAll(PiecesFrom(desc, lparen + 1, rparen))
  }

  /** Pieces joined back with the separator between them. */
  function Join(pieces: seq<string>, c: char): string
    requires |pieces| >= 1
  {
    if |pieces| == 1 then pieces[0] else pieces[0] + [c] + Join(pieces[1..], c)
  }

  /** s cut at every occurrence of c. */
  function SplitOn(s: string, c: char): (r: seq<string>)
    ensures |r| >= 1
    decreases |s|
  {
    var i := IndexOf(s, c, 0);
    if i < 0 then [s] else [s[..i]] + SplitOn(s[i + 1..], c)
  }

  lemma SplitOnStep(s: string, c: char, i: int)
    requires i == IndexOf(s, c, 0)
    ensures i < 0 ==> SplitOn(s, c) == [s]
    ensures i >= 0 ==> SplitOn(s, c) == [s[..i]] + SplitOn(s[i + 1..], c)
  {
  }

  /** The pieces SplitOn cuts hold no c and join back to s with c between them. */
  lemma {:induction false} SplitOnJoin(s: string, c: char)
    ensures forall p <- SplitOn(s, c) :: c !in p
    ensures Join(SplitOn(s, c), c) == s
    decreases |s|
  {
    var i := IndexOf(s, c, 0);
    IndexOfMeaning(s, c, 0);
    if i >= 0 {
      SplitOnJoin(s[i + 1..], c);
      assert s == s[..i] + [c] + s[i + 1..];
    }
  }

  /** The number of occurrences of c in s. */
  function Occurrences(s: string, c: char): nat {
    if s == [] then 0 else (if s[0] == c then 1 else 0) + Occurrences(s[1..], c)
  }

  /** Cutting at every c gives one piece more than there are c's. */
  lemma {:induction false} SplitOnCount(s: string, c: char)
    ensures |SplitOn(s, c)| == Occurrences(s, c) + 1
    decreases |s|
  {
    var i := IndexOf(s, c, 0);
    IndexOfMeaning(s, c, 0);
    if i < 0 {
      OccurrencesAbsent(s, c);
    } else {
      SplitOnCount(s[i + 1..], c);
      OccurrencesAbsent(s[..i], c);
      OccurrencesConcat(s[..i], [c] + s[i + 1..], c);
      assert s == s[..i] + ([c] + s[i + 1..]);
      assert ([c] + s[i + 1..])[1..] == s[i + 1..];
    }
  }

  lemma {:induction false} OccurrencesAbsent(s: string, c: char)
    requires c !in s
    ensures Occurrences(s, c) == 0
  {
    if s != [] {
      OccurrencesAbsent(s[1..], c);
    }
  }

  lemma {:induction false} OccurrencesConcat(x: string, y: string, c: char)
    ensures Occurrences(x + y, c) == Occurrences(x, c) + Occurrences(y, c)
  {
    if x == [] {
      assert x + y == y;
    } else {
      assert (x + y)[1..] == x[1..] + y;
      OccurrencesConcat(x[1..], y, c);
    }
  }

  /** The pieces without the last one when the last one is empty. */
  function DropEmptyLast(pieces: seq<string>): seq<string> {
    if |pieces| > 0 && pieces[|pieces| - 1] == "" then pieces[..|pieces| - 1] else pieces
  }

  lemma DropEmptyLastCons(a: string, rest: seq<string>)
    requires |rest| >= 1
    ensures DropEmptyLast([a] + rest) == [a] + DropEmptyLast(rest)
  {
    if rest[|rest| - 1] == "" {
      assert ([a] + rest)[..|rest|] == [a] + rest[..|rest| - 1];
    }
  }

  function TrimAll(pieces: seq<string>): (r: seq<string>)
    ensures |r| == |pieces|
  {
    if pieces == [] then [] else [Trim(pieces[0])] + TrimAll(pieces[1..])
  }

  /** Each piece of TrimAll(pieces) is the corresponding piece trimmed. */
  lemma {:induction false} TrimAllMeaning(pieces: seq<string>)
    ensures forall i :: 0 <= i < |pieces| ==> TrimAll(pieces)[i] == Trim(pieces[i])
  {
    if pieces != [] {
      TrimAllMeaning(pieces[1..]);
    }
  }

  /** From a start before rparen, with no comma from rparen on, parseTypes cuts exactly at the commas. */
  lemma {:induction false} PiecesFromSplit(desc: string, start: nat, rparen: nat)
    requires start <= rparen < |desc|
    requires forall i :: rparen <= i < |desc| ==> desc[i] != ','
    ensures PiecesFrom(desc, start, rparen) == DropEmptyLast(SplitOn(desc[start..rparen], ','))
    decreases rparen - start
  {
    var comma := IndexOf(desc, ',', start);
    if comma >= 0 {
      assert desc[comma] == ',';
      PiecesFromSplit(desc, comma + 1, rparen);
      PiecesFromSplitComma(desc, start, rparen, comma);
    } else {
      PiecesFromSplitLast(desc, start, rparen);
    }
  }

  /** The comma step of PiecesFromSplit, given the claim for the text after the comma. */
  lemma {:induction false} PiecesFromSplitComma(desc: string, start: nat, rparen: nat, comma: nat)
    requires start <= comma < rparen < |desc| && comma == IndexOf(desc, ',', start)
    requires PiecesFrom(desc, comma + 1, rparen) == DropEmptyLast(SplitOn(desc[comma + 1..rparen], ','))
    ensures PiecesFrom(desc, start, rparen) == DropEmptyLast(SplitOn(desc[start..rparen], ','))
  {
    var head := desc[start..comma];
    var rest := SplitOn(desc[comma + 1..rparen], ',');
    SplitOnSliceStep(desc, start, rparen, comma);
    DropEmptyLastCons(head, rest);
    assert PiecesFrom(desc, start, rparen) == [head] + PiecesFrom(desc, comma + 1, rparen);
  }

  lemma {:induction false} PiecesFromSplitLast(desc: string, start: nat, rparen: nat)
    requires start <= rparen < |desc|
    requires IndexOf(desc, ',', start) < 0
    ensures PiecesFrom(desc, start, rparen) == DropEmptyLast(SplitOn(desc[start..rparen], ','))
  {
    var x := desc[start..rparen];
    IndexOfSlice(desc, ',', start, rparen);
    SplitOnStep(x, ',', IndexOf(x, ',', 0));
    assert |x| == rparen - start;
  }

  /** Cutting desc[start..rparen] at its first comma, found by searching desc from start. */
  lemma {:induction false} SplitOnSliceStep(desc: string, start: nat, rparen: nat, comma: nat)
    requires start <= comma < rparen <= |desc| && comma == IndexOf(desc, ',', start)
    ensures SplitOn(desc[start..rparen], ',') == [desc[start..comma]] + SplitOn(desc[comma + 1..rparen], ',')
  {
    var x := desc[start..rparen];
    IndexOfSlice(desc, ',', start, rparen);
    SplitOnStep(x, ',', comma - start);
    PiecesFromSplitStep(desc, start, rparen, comma);
  }

  lemma PiecesFromSplitStep(desc: string, start: nat, rparen: nat, comma: nat)
    requires start <= comma < rparen <= |desc|
    ensures desc[start..rparen][..comma - start] == desc[start..comma]
    ensures desc[start..rparen][comma - start + 1..] == desc[comma + 1..rparen]
  {
  }

  /**
   * For a descriptor head "(" inner ")" tail, where head has no '(', inner
   * no ')' and tail no ',', parseTypes yields the comma-separated pieces of
   * inner, trimmed and in order, except that an empty last piece is dropped:
   * "()" gives none, "(int,)" gives one.
   */
  lemma {:induction false} ParameterPiecesOfList(head: string, inner: string, tail: string)
    requires '(' !in head && ')' !in inner && ',' !in tail
    ensures ParameterPieces(head + "(" + inner + ")" + tail) == TrimAll(DropEmptyLast(SplitOn(inner, ',')))
  {
    var desc := head + "(" + inner + ")" + tail;
    ParameterListLayout(head, inner, tail);
    ParameterPiecesBetween(desc, |head|, |head| + 1 + |inner|, inner);
  }

  /** With the parentheses at lparen and rparen and no comma after rparen, the names are the trimmed pieces between. */
  lemma {:induction false} ParameterPiecesBetween(desc: string, lparen: nat, rparen: nat, inner: string)
    requires lparen < rparen < |desc|
    requires IndexOf(desc, '(', 0) == lparen && IndexOf(desc, ')', lparen) == rparen
    requires desc[lparen + 1..rparen] == inner
    requires ',' !in desc[rparen..]
    ensures ParameterPieces(desc) == TrimAll(DropEmptyLast(SplitOn(inner, ',')))
  {
    NoCommaFrom(desc, rparen);
    PiecesFromSplit(desc, lparen + 1, rparen);
    ParameterPiecesAt(desc, lparen, rparen);
    TrimmedPiecesOf(ParameterPieces(desc), PiecesFrom(desc, lparen + 1, rparen), desc[lparen + 1..rparen], inner);
  }

  lemma {:induction false} TrimmedPiecesOf(names: seq<string>, pieces: seq<string>, text: string, inner: string)
    requires names == TrimAll(pieces) && pieces == DropEmptyLast(SplitOn(text, ',')) && text == inner
    ensures names == TrimAll(DropEmptyLast(SplitOn(inner, ',')))
  {
  }

  /** ParameterPieces reads the pieces from just after the first '(' up to the ')' that follows it. */
  lemma {:induction false} ParameterPiecesAt(desc: string, lparen: nat, rparen: nat)
    requires lparen < rparen <= |desc|
    requires IndexOf(desc, '(', 0) == lparen && IndexOf(desc, ')', lparen) == rparen
    ensures ParameterPieces(desc) == TrimAll(PiecesFrom(desc, lparen + 1, rparen))
  {
  }

  lemma {:induction false} NoCommaFrom(desc: string, rparen: nat)
    requires rparen <= |desc| && ',' !in desc[rparen..]
    ensures forall i :: rparen <= i < |desc| ==> desc[i] != ','
  {
    forall i | rparen <= i < |desc|
      ensures desc[i] != ','
    {
      assert desc[i] == desc[rparen..][i - rparen];
    }
  }

  /** So such a list yields one name per comma, plus one unless the text after the last comma is empty. */
  lemma ParameterPiecesCount(head: string, inner: string, tail: string)
    requires '(' !in head && ')' !in inner && ',' !in tail
    ensures var pieces := SplitOn(inner, ',');
      |ParameterPieces(head + "(" + inner + ")" + tail)|
        == Occurrences(inner, ',') + (if pieces[|pieces| - 1] == "" then 0 else 1)
  {
    ParameterPiecesOfList(head, inner, tail);
    SplitOnCount(inner, ',');
  }

  /** Where parseTypes finds the parentheses of head "(" inner ")" tail, and that no comma follows rparen. */
  lemma {:induction false} ParameterListLayout(head: string, inner: string, tail: string)
    requires '(' !in head && ')' !in inner && ',' !in tail
    ensures var desc := head + "(" + inner + ")" + tail;
      var lparen := |head|;
      var rparen := |head| + 1 + |inner|;
      && IndexOf(desc, '(', 0) == lparen
      && IndexOf(desc, ')', lparen) == rparen
      && desc[lparen + 1..rparen] == inner
      && ',' !in desc[rparen..]
  {
    var desc := head + "(" + inner + ")" + tail;
    var lparen := |head|;
    var rparen := |head| + 1 + |inner|;
    assert desc[..lparen] == head;
    IndexOfAt(desc, '(', 0, lparen);
    assert desc[lparen..rparen] == "(" + inner;
    IndexOfAt(desc, ')', lparen, rparen);
    assert desc[rparen..] == ")" + tail;
    assert desc[lparen + 1..rparen] == inner;
  }

  /** The classes the names resolve to, in order, or the failure of the first name that does not resolve. */
  function ResolveAll(loader: Loader, names: seq<string>): (r: Result<seq<Class>, Error>)
    ensures r.Success? ==> |r.value| == |names|
  {
    if names == [] then Success([])
    else
      match ResolveAll(loader, names[..|names| - 1])
      case Failure(e) => Failure(e)
      case Success(cs) =>
        match ResolveClassName(loader, names[|names| - 1], CglibPackages)
        case Failure(e) => Failure(e)
        case Success(c) => Success(cs + [c])
  }

  /**
   * ResolveAll succeeds exactly when every name resolves, giving the classes
   * in order; otherwise it fails with the failure of the first name that does
   * not resolve.
   */
  lemma {:induction false} ResolveAllMeaning(loader: Loader, names: seq<string>)
    ensures var r := ResolveAll(loader, names);
      && (r.Success? ==>
            forall i :: 0 <= i < |names| ==> ResolveClassName(loader, names[i], CglibPackages) == Success(r.value[i]))
      && (r.Failure? ==>
            exists i :: (&& 0 <= i < |names|
                         && ResolveClassName(loader, names[i], CglibPackages) == Failure(r.error)
                         && forall j :: 0 <= j < i ==> ResolveClassName(loader, names[j], CglibPackages).Success?))
  {
    if names != [] {
      var prefix := names[..|names| - 1];
      ResolveAllMeaning(loader, prefix);
      assert forall j :: 0 <= j < |prefix| ==> prefix[j] == names[j];
    }
  }

  /** Resolving one more name extends the classes resolved so far, or fails with that name's failure. */
  lemma ResolveAllStep(loader: Loader, names: seq<string>, i: nat, cs: seq<Class>, c: Result<Class, Error>)
    requires i < |names| && ResolveAll(loader, names[..i]) == Success(cs)
    requires c == ResolveClassName(loader, names[i], CglibPackages)
    ensures c.Success? ==> ResolveAll(loader, names[..i + 1]) == Success(cs + [c.value])
    ensures c.Failure? ==> ResolveAll(loader, names) == Failure(c.error)
  {
    assert names[..i + 1][..i] == names[..i];
    if c.Failure? {
      ResolveAllFailurePropagates(loader, names, i + 1);
    }
  }

  /** Once a prefix of the names fails, the whole list fails the same way. */
  lemma {:induction false} ResolveAllFailurePropagates(loader: Loader, names: seq<string>, n: nat)
    requires n <= |names|
    requires ResolveAll(loader, names[..n]).Failure?
    ensures ResolveAll(loader, names) == ResolveAll(loader, names[..n])
    decreases |names| - n
  {
    if n < |names| {
      assert names[..n + 1][..n] == names[..n];
      ResolveAllFailurePropagates(loader, names, n + 1);
    } else {
      assert names[..n] == names;
    }
  }

  /** The first loop of parseTypes: the trimmed text between the parentheses, cut at commas. */
  method SplitParameters(desc: string) returns (params: seq<string>)
    ensures params == ParameterPieces(desc)
  {
    var lparen := IndexOf(desc, '(', 0);
    var rparen := IndexOf(desc, ')', lparen);
    params := SplitFrom(desc, lparen + 1, rparen);
  }

  /** The comma loop of parseTypes, from `start` on: each piece up to a comma, then the rest up to rparen, trimmed. */
  method SplitFrom(desc: string, start: nat, rparen: int) returns (params: seq<string>)
    requires start <= |desc| && rparen <= |desc|
    ensures params == TrimAll(PiecesFrom(desc, start, rparen))
  {
    ghost var all := TrimAll(PiecesFrom(desc, start, rparen));
    params := [];
    assert params + all == all;
    var from := start;
    var comma := IndexOf(desc, ',', from);
    while comma >= 0
      invariant from <= |desc|
      invariant comma == IndexOf(desc, ',', from)
      invariant Collected(desc, from, rparen, params, all)
      decreases |desc| - from
    {
      params, from, comma := SplitNext(desc, from, rparen, comma, params, all);
    }
    params := SplitLast(desc, from, rparen, params, all);
  }

  /** One turn of the comma loop: the trimmed piece up to the comma is collected and the search resumes after it. */
  method SplitNext(desc: string, from: nat, rparen: int, comma: int, params: seq<string>, ghost all: seq<string>)
    returns (params': seq<string>, from': nat, comma': int)
    requires from <= |desc| && rparen <= |desc|
    requires comma == IndexOf(desc, ',', from) && comma >= 0
    requires Collected(desc, from, rparen, params, all)
    ensures from < from' <= |desc| && comma' == IndexOf(desc, ',', from')
    ensures Collected(desc, from', rparen, params', all)
  {
    params' := params + [Trim(desc[from..comma])];
    from' := comma + 1;
    SplitParametersStep(desc, from, rparen, comma, params, all, from', params');
    comma' := IndexOf(desc, ',', from');
  }

  /** After the comma loop: the text left up to rparen, if any, is the last piece. */
  method SplitLast(desc: string, from: nat, rparen: int, params: seq<string>, ghost all: seq<string>) returns (r: seq<string>)
    requires from <= |desc| && rparen <= |desc|
    requires IndexOf(desc, ',', from) < 0
    requires Collected(desc, from, rparen, params, all)
    ensures r == all
  {
    SplitParametersLast(desc, from, rparen, params, all);
    r := params;
    if from < rparen {
      r := r + [Trim(desc[from..rparen])];
    }
  }

  /** The state of the comma loop: what is collected, followed by what is left from `from` on, is everything. */
  predicate Collected(desc: string, from: nat, rparen: int, params: seq<string>, all: seq<string>)
    requires from <= |desc| && rparen <= |desc|
  {
    params + TrimAll(PiecesFrom(desc, from, rparen)) == all
  }

  /** One turn of the comma loop of parseTypes moves one trimmed piece from what is left to what is collected. */
  lemma {:induction false} SplitParametersStep(desc: string, start: nat, rparen: int, comma: int, params: seq<string>, all: seq<string>,
                             next: nat, collected: seq<string>)
    requires start <= |desc| && rparen <= |desc|
    requires comma == IndexOf(desc, ',', start) && comma >= 0
    requires Collected(desc, start, rparen, params, all)
    requires next == comma + 1 && collected == params + [Trim(desc[start..comma])]
    ensures next <= |desc| && Collected(desc, next, rparen, collected, all)
  {
    PiecesFromComma(desc, start, rparen, comma);
    CollectStep(params, all, PiecesFrom(desc, start, rparen), desc[start..comma], PiecesFrom(desc, next, rparen));
  }

  /** PiecesFrom cut at the first comma from start. */
  lemma {:induction false} PiecesFromComma(desc: string, start: nat, rparen: int, comma: int)
    requires start <= |desc| && rparen <= |desc|
    requires comma == IndexOf(desc, ',', start) && comma >= 0
    ensures comma < |desc|
    ensures PiecesFrom(desc, start, rparen) == [desc[start..comma]] + PiecesFrom(desc, comma + 1, rparen)
  {
  }

  /** Moving the first piece left to the collected list, trimmed, keeps collected + left equal to everything. */
  lemma {:induction false} CollectStep(params: seq<string>, all: seq<string>, pieces: seq<string>, piece: string, rest: seq<string>)
    requires pieces == [piece] + rest
    requires params + TrimAll(pieces) == all
    ensures (params + [Trim(piece)]) + TrimAll(rest) == all
  {
    TrimAllCons(piece, rest);
    CollectOne(params, Trim(piece), TrimAll(rest));
  }

  /** Trimming a list trims its first piece and then the others. */
  lemma {:induction false} TrimAllCons(piece: string, rest: seq<string>)
    ensures TrimAll([piece] + rest) == [Trim(piece)] + TrimAll(rest)
  {
    assert ([piece] + rest)[1..] == rest;
  }

  /** Moving one piece from the front of what is left to the end of what is collected. */
  lemma CollectOne(params: seq<string>, piece: string, rest: seq<string>)
    ensures params + ([piece] + rest) == (params + [piece]) + rest
  {
  }

  /** After the last comma, what is left is the text up to rparen, if any. */
  lemma {:induction false} SplitParametersLast(desc: string, start: nat, rparen: int, params: seq<string>, all: seq<string>)
    requires start <= |desc| && rparen <= |desc|
    requires IndexOf(desc, ',', start) < 0
    requires Collected(desc, start, rparen, params, all)
    ensures (if start < rparen then params + [Trim(desc[start..rparen])] else params) == all
  {
    if start < rparen {
      assert TrimAll([desc[start..rparen]]) == [Trim(desc[start..rparen])];
    } else {
      assert params + [] == params;
    }
  }

  /** ReflectUtils.parseTypes: resolves, in order, each parameter type name a descriptor lists. */
  method ParseTypes(desc: string, loader: Loader) returns (r: Result<array<Class>, Error>)
    ensures var expected := ResolveAll(loader, ParameterPieces(desc));
      && (r.Success? <==> expected.Success?)
      && (r.Success? ==> r.value[..] == expected.value)
      && (r.Failure? ==> r.error == expected.error)
  {
    var params := SplitParameters(desc);
    r := ResolveTypes(params, loader);
  }

  /** The loop of parseTypes: getClass on each name into a fresh array, stopping at the first failure. */
  method ResolveTypes(params: seq<string>, loader: Loader) returns (r: Result<array<Class>, Error>)
    ensures var expected := ResolveAll(loader, params);
      && (r.Success? <==> expected.Success?)
      && (r.Success? ==> r.value[..] == expected.value)
      && (r.Failure? ==> r.error == expected.error)
  {
    var types := new Class[|params|];
    for i := 0 to types.Length
      invariant ResolveAll(loader, params[..i]) == Success(types[..i])
    {
      var c := GetClass(params[i], loader, CglibPackages);
      ResolveAllStep(loader, params, i, types[..i], c);
      if c.Failure? {
        return Failure(c.error);
      }
      types[i] := c.value;
      assert types[..i + 1] == types[..i] + [c.value];
    }
    assert params[..types.Length] == params;
    return Success(types);
  }

  // ---------------------------------------------------------------------
  // findMethod, findConstructor
  // ---------------------------------------------------------------------

  /**
   * The class name and method name of a descriptor "pkg.Cls.method(...)":
   * cut at the last '.' before the first '(' and trimmed. When there is no
   * '(' or no '.' before it, String.substring throws.
   */
  function SplitMethodDescriptor(desc: string): (r: Result<(string, string), Error>)
    ensures r.Failure? <==> IndexOf(desc, '(', 0) < 0 || '.' !in desc[..IndexOf(desc, '(', 0)]
    ensures r.Failure? ==> r.error == StringIndexOutOfBounds(-1)
  {
    var lparen := IndexOf(desc, '(', 0);
    var dot := LastIndexOf(desc, '.', lparen);
    IndexOfMeaning(desc, '(', 0);
    LastIndexOfMeaning(desc, '.', lparen);
    if dot < 0 then
      assert lparen >= 0 ==> forall i :: 0 <= i < lparen ==> desc[..lparen][i] != '.';
      Failure(StringIndexOutOfBounds(dot))
    else
      assert desc[..lparen][dot] == '.';
      Success((Trim(desc[..dot]), Trim(desc[dot + 1..lparen])))
  }

  /** A descriptor cls "." name "(" rest, with no '(' in cls or name and no '.' in name, splits into the trimmed cls and name. */
  lemma SplitMethodDescriptorOf(cls: string, name: string, inner: string, tail: string)
    requires '(' !in cls && '(' !in name && '.' !in name
    ensures SplitMethodDescriptor(cls + "." + name + "(" + inner + ")" + tail) == Success((Trim(cls), Trim(name)))
  {
    var desc := cls + "." + name + "(" + inner + ")" + tail;
    var lp := |cls| + 1 + |name|;
    assert desc[..lp] == cls + "." + name;
    IndexOfAt(desc, '(', 0, lp);
    assert desc[|cls| + 1..lp + 1] == name + "(";
    LastIndexOfAt(desc, '.', lp, |cls|);
    assert desc[..|cls|] == cls;
    assert desc[|cls| + 1..lp] == name;
  }

  /** The class name of a constructor descriptor "pkg.Cls(...)": the trimmed text before the first '('. */
  function ConstructorClassName(desc: string): (r: Result<string, Error>)
    ensures r.Failure? <==> '(' !in desc
    ensures r.Failure? ==> r.error == StringIndexOutOfBounds(-1)
    ensures r.Success? ==> exists i :: 0 <= i < |desc| && desc[i] == '(' && '(' !in desc[..i] && r.value == Trim(desc[..i])
  {
    var lparen := IndexOf(desc, '(', 0);
    IndexOfMeaning(desc, '(', 0);
    if lparen < 0 then Failure(StringIndexOutOfBounds(lparen))
    else Success(Trim(desc[..lparen]))
  }

  /**
   * What findMethod(desc, loader) yields: the method the named class declares
   * with the listed parameter types. A failure to split the descriptor
   * propagates as is; a class or parameter type that does not resolve, and a
   * method that is not declared, are wrapped in CodeGenerationException.
   */
  function MethodForDescriptor(loader: Loader, desc: string): (r: Result<Method, Error>)
    ensures r.Success? ==> SplitMethodDescriptor(desc).Success? && r.value.name == SplitMethodDescriptor(desc).value.1
    ensures r.Success? ==>
      (&& ResolveAll(loader, ParameterPieces(desc)).Success?
       && r.value.parameterTypes == TypesOf(ResolveAll(loader, ParameterPieces(desc)).value))
  {
    match SplitMethodDescriptor(desc)
    case Failure(e) => Failure(e)
    case Success((className, methodName)) =>
      match ResolveClassName(loader, className, CglibPackages)
      case Failure(e) => Failure(CodeGeneration(e))
      case Success(c) =>
        match ResolveAll(loader, ParameterPieces(desc))
        case Failure(e) => Failure(CodeGeneration(e))
        case Success(types) =>
          match DeclaredMethod(c, methodName, TypesOf(types))
          case None => Failure(CodeGeneration(NoSuchMethod(methodName)))
          case Some(m) => Success(m)
  }

  /** ReflectUtils.findMethod(desc, loader). */
  method FindMethod(desc: string, loader: Loader) returns (r: Result<Method, Error>)
    ensures r == MethodForDescriptor(loader, desc)
  {
    var split := SplitMethodDescriptor(desc);
    if split.Failure? {
      return Failure(split.error);
    }
    var (className, methodName) := split.value;
    var c := GetClass(className, loader, CglibPackages);
    if c.Failure? {
      return Failure(CodeGeneration(c.error));
    }
    var types := ParseTypes(desc, loader);
    if types.Failure? {
      return Failure(CodeGeneration(types.error));
    }
    var m := DeclaredMethod(c.value, methodName, TypesOf(types.value[..]));
    if m.None? {
      return Failure(CodeGeneration(NoSuchMethod(methodName)));
    }
    return Success(m.value);
  }

  /**
   * For a descriptor cls "." name "(" inner ")" tail whose class and parameter
   * names resolve, findMethod finds what the class declares under the
   * trimmed name with the resolved parameter types.
   */
  lemma MethodForWellFormedDescriptor(loader: Loader, cls: string, name: string, inner: string, tail: string,
                                      c: Class, types: seq<Class>)
    requires '(' !in cls && '(' !in name && '.' !in name && ')' !in inner && ',' !in tail
    requires ResolveClassName(loader, Trim(cls), CglibPackages) == Success(c)
    requires ResolveAll(loader, TrimAll(DropEmptyLast(SplitOn(inner, ',')))) == Success(types)
    ensures var found := DeclaredMethod(c, Trim(name), TypesOf(types));
      MethodForDescriptor(loader, cls + "." + name + "(" + inner + ")" + tail)
        == if found.Some? then Success(found.value) else Failure(CodeGeneration(NoSuchMethod(Trim(name))))
  {
    var head := cls + "." + name;
    SplitMethodDescriptorOf(cls, name, inner, tail);
    assert '(' !in head;
    ParameterPiecesOfList(head, inner, tail);
    MethodForDescriptorSteps(loader, head + "(" + inner + ")" + tail, Trim(cls), Trim(name), c, types);
  }

  /** How findMethod composes once the descriptor splits and its class and parameter names resolve. */
  lemma MethodForDescriptorSteps(loader: Loader, desc: string, className: string, methodName: string, c: Class, types: seq<Class>)
    requires SplitMethodDescriptor(desc) == Success((className, methodName))
    requires ResolveClassName(loader, className, CglibPackages) == Success(c)
    requires ResolveAll(loader, ParameterPieces(desc)) == Success(types)
    ensures var found := DeclaredMethod(c, methodName, TypesOf(types));
      MethodForDescriptor(loader, desc)
        == if found.Some? then Success(found.value) else Failure(CodeGeneration(NoSuchMethod(methodName)))
  {
  }

  /**
   * What findConstructor(desc, loader) yields: the public constructor of the
   * named class with the listed parameter types, failures wrapped as for
   * findMethod.
   */
  function ConstructorForDescriptor(loader: Loader, desc: string): (r: Result<Constructor, Error>)
    ensures r.Success? ==>
      (&& r.value.isPublic
       && ResolveAll(loader, ParameterPieces(desc)).Success?
       && r.value.parameterTypes == TypesOf(ResolveAll(loader, ParameterPieces(desc)).value))
    ensures r.Success? ==>
      (&& ConstructorClassName(desc).Success?
       && ResolveClassName(loader, ConstructorClassName(desc).value, CglibPackages).Success?
       && r.value in ResolveClassName(loader, ConstructorClassName(desc).value, CglibPackages).value.constructors)
    ensures '(' !in desc ==> r == Failure(StringIndexOutOfBounds(-1))
  {
    match ConstructorClassName(desc)
    case Failure(e) => Failure(e)
    case Success(className) =>
      match ResolveClassName(loader, className, CglibPackages)
      case Failure(e) => Failure(CodeGeneration(e))
      case Success(c) =>
        match ResolveAll(loader, ParameterPieces(desc))
        case Failure(e) => Failure(CodeGeneration(e))
        case Success(types) =>
          match PublicConstructor(c, TypesOf(types))
          case None => Failure(CodeGeneration(NoSuchMethod(ConstructorName)))
          case Some(k) => Success(k)
  }

  /** ReflectUtils.findConstructor(desc, loader). */
  method FindConstructor(desc: string, loader: Loader) returns (r: Result<Constructor, Error>)
    ensures r == ConstructorForDescriptor(loader, desc)
  {
    var className := ConstructorClassName(desc);
    if className.Failure? {
      return Failure(className.error);
    }
    var c := GetClass(className.value, loader, CglibPackages);
    if c.Failure? {
      return Failure(CodeGeneration(c.error));
    }
    var types := ParseTypes(desc, loader);
    if types.Failure? {
      return Failure(CodeGeneration(types.error));
    }
    var k := PublicConstructor(c.value, TypesOf(types.value[..]));
    if k.None? {
      return Failure(CodeGeneration(NoSuchMethod(ConstructorName)));
    }
    return Success(k.value);
  }

  /**
   * For a descriptor cls "(" inner ")" tail whose class and parameter names
   * resolve, findConstructor finds the public constructor of that class with
   * the resolved parameter types, and reports NoSuchMethodException when the
   * class has none.
   */
  lemma ConstructorForWellFormedDescriptor(loader: Loader, cls: string, inner: string, tail: string,
                                           c: Class, types: seq<Class>)
    requires '(' !in cls && ')' !in inner && ',' !in tail
    requires ResolveClassName(loader, Trim(cls), CglibPackages) == Success(c)
    requires ResolveAll(loader, TrimAll(DropEmptyLast(SplitOn(inner, ',')))) == Success(types)
    ensures var found := PublicConstructor(c, TypesOf(types));
      ConstructorForDescriptor(loader, cls + "(" + inner + ")" + tail)
        == if found.Some? then Success(found.value) else Failure(CodeGeneration(NoSuchMethod(ConstructorName)))
  {
    var desc := cls + "(" + inner + ")" + tail;
    ParameterPiecesOfList(cls, inner, tail);
    ParameterListLayout(cls, inner, tail);
    assert desc[..|cls|] == cls;
  }

  // ---------------------------------------------------------------------
  // findMethods
  // ---------------------------------------------------------------------

  /** The key findMethods files a method under: its name directly followed by its method descriptor. */
  function MethodKey(m: Method): string {
    m.name + MethodDescriptor(m.parameterTypes, m.returnType)
  }

  /** The table findMethods fills: HashMap.put in order, so a later method replaces an earlier one with its key. */
  function KeyTable(ms: seq<Method>): map<string, Method> {
    if ms == [] then map[] else KeyTable(ms[..|ms| - 1])[MethodKey(ms[|ms| - 1]) := ms[|ms| - 1]]
  }

  /** The position of the last method of ms filed under key, or -1 when there is none. */
  function LastIndexWithKey(ms: seq<Method>, key: string): (r: int)
    ensures -1 <= r < |ms|
  {
    if ms == [] then -1
    else if MethodKey(ms[|ms| - 1]) == key then |ms| - 1
    else LastIndexWithKey(ms[..|ms| - 1], key)
  }

  /** The method at LastIndexWithKey has the key and none after it does; -1 means none has it. */
  lemma {:induction false} LastIndexWithKeyMeaning(ms: seq<Method>, key: string)
    ensures LastIndexWithKey(ms, key) >= 0 ==> MethodKey(ms[LastIndexWithKey(ms, key)]) == key
    ensures forall i :: LastIndexWithKey(ms, key) < i < |ms| ==> MethodKey(ms[i]) != key
  {
    if ms != [] && MethodKey(ms[|ms| - 1]) != key {
      var init := ms[..|ms| - 1];
      LastIndexWithKeyMeaning(init, key);
      forall i | LastIndexWithKey(ms, key) < i < |ms| - 1
        ensures MethodKey(ms[i]) != key
      {
        assert ms[i] == init[i];
      }
    }
  }

  /** The method findMethods reports for a key: the last one filed under it, or null. */
  function LastWithKey(ms: seq<Method>, key: string): Option<Method> {
    if ms == [] then None
    else if MethodKey(ms[|ms| - 1]) == key then Some(ms[|ms| - 1])
    else LastWithKey(ms[..|ms| - 1], key)
  }

  /** LastWithKey reports the method at LastIndexWithKey. */
  lemma {:induction false} LastWithKeyAt(ms: seq<Method>, key: string)
    ensures LastWithKey(ms, key) == if LastIndexWithKey(ms, key) < 0 then None else Some(ms[LastIndexWithKey(ms, key)])
  {
    if ms != [] && MethodKey(ms[|ms| - 1]) != key {
      LastWithKeyAt(ms[..|ms| - 1], key);
    }
  }

  /** The reported method is the last one with the key: it has the key and no later method has it; null means none has it. */
  lemma LastWithKeyMeaning(ms: seq<Method>, key: string)
    ensures LastWithKey(ms, key).None? <==> forall m <- ms :: MethodKey(m) != key
    ensures LastWithKey(ms, key).Some? ==>
      exists k :: 0 <= k < |ms| && ms[k] == LastWithKey(ms, key).value && MethodKey(ms[k]) == key
        && forall i :: k < i < |ms| ==> MethodKey(ms[i]) != key
  {
    LastWithKeyAt(ms, key);
    LastIndexWithKeyMeaning(ms, key);
    var k := LastIndexWithKey(ms, key);
    if k >= 0 {
      assert ms[k] in ms;
    }
  }

  /** The table holds a key exactly when some method has it, and then holds the last such method. */
  lemma {:induction false} KeyTableLookup(ms: seq<Method>, key: string)
    ensures key in KeyTable(ms) <==> LastWithKey(ms, key).Some?
    ensures key in KeyTable(ms) ==> KeyTable(ms)[key] == LastWithKey(ms, key).value
  {
    if ms != [] {
      KeyTableLookup(ms[..|ms| - 1], key);
    }
  }

  /** The first loop of findMethods: every method put into a HashMap under its key, in order. */
  method FileMethods(methods: seq<Method>) returns (table: map<string, Method>)
    ensures table == KeyTable(methods)
  {
    table := map[];
    for i := 0 to |methods|
      invariant table == KeyTable(methods[..i])
    {
      assert methods[..i + 1][..i] == methods[..i];
      table := table[MethodKey(methods[i]) := methods[i]];
    }
    assert methods[..|methods|] == methods;
  }

  /** The keys findMethods looks up: each name of the input followed by the descriptor after it. */
  function PairKeys(namesAndDescriptors: seq<string>): (keys: seq<string>)
    ensures |keys| == |namesAndDescriptors| / 2
  {
    if |namesAndDescriptors| < 2 then []
    else [namesAndDescriptors[0] + namesAndDescriptors[1]] + PairKeys(namesAndDescriptors[2..])
  }

  /** The i-th key is the i-th name followed by the i-th descriptor. */
  lemma {:induction false} PairKeysAt(namesAndDescriptors: seq<string>, i: nat)
    requires i < |namesAndDescriptors| / 2
    ensures 2 * i + 1 < |namesAndDescriptors|
    ensures PairKeys(namesAndDescriptors)[i] == namesAndDescriptors[2 * i] + namesAndDescriptors[2 * i + 1]
  {
    if i > 0 {
      var rest := namesAndDescriptors[2..];
      PairKeysAt(rest, i - 1);
      assert rest[2 * (i - 1)] == namesAndDescriptors[2 * i];
      assert rest[2 * (i - 1) + 1] == namesAndDescriptors[2 * i + 1];
    }
  }

  /** What findMethods reports for each key, in order: the last method filed under it, or null. */
  function Reports(methods: seq<Method>, keys: seq<string>): (r: seq<Option<Method>>)
    ensures |r| == |keys|
  {
    if keys == [] then [] else [LastWithKey(methods, keys[0])] + Reports(methods, keys[1..])
  }

  /** The i-th report is the lookup of the i-th key. */
  lemma {:induction false} ReportsAt(methods: seq<Method>, keys: seq<string>, i: nat)
    requires i < |keys|
    ensures Reports(methods, keys)[i] == LastWithKey(methods, keys[i])
  {
    if i > 0 {
      ReportsAt(methods, keys[1..], i - 1);
    }
  }

  /** What looking each key up in a table gives, in order: the entry under it, or null. */
  function LookedUp(table: map<string, Method>, keys: seq<string>): (r: seq<Option<Method>>)
    ensures |r| == |keys|
  {
    if keys == [] then [] else [if keys[0] in table then Some(table[keys[0]]) else None] + LookedUp(table, keys[1..])
  }

  lemma {:induction false} LookedUpAt(table: map<string, Method>, keys: seq<string>, i: nat)
    requires i < |keys|
    ensures LookedUp(table, keys)[i] == if keys[i] in table then Some(table[keys[i]]) else None
  {
    if i > 0 {
      LookedUpAt(table, keys[1..], i - 1);
    }
  }

  /** Looking keys up in the table findMethods fills reports the last method filed under each. */
  lemma {:induction false} LookedUpReports(table: map<string, Method>, methods: seq<Method>, keys: seq<string>)
    requires table == KeyTable(methods)
    ensures LookedUp(table, keys) == Reports(methods, keys)
  {
    if keys != [] {
      KeyTableLookup(methods, keys[0]);
      LookedUpReports(table, methods, keys[1..]);
    }
  }

  /**
   * ReflectUtils.findMethods: for each (name, descriptor) pair of the input,
   * the method whose name and descriptor spell the same key, or null.
   */
  method FindMethods(namesAndDescriptors: seq<string>, methods: seq<Method>) returns (result: array<Option<Method>>)
    ensures result[..] == Reports(methods, PairKeys(namesAndDescriptors))
  {
    var table := FileMethods(methods);
    result := LookUpAll(table, namesAndDescriptors);
    LookedUpReports(table, methods, PairKeys(namesAndDescriptors));
  }

  /** The second loop of findMethods: each pair's key looked up in the filled table. */
  method LookUpAll(table: map<string, Method>, namesAndDescriptors: seq<string>) returns (result: array<Option<Method>>)
    ensures result[..] == LookedUp(table, PairKeys(namesAndDescriptors))
  {
    ghost var expected := LookedUp(table, PairKeys(namesAndDescriptors));
    var n := |namesAndDescriptors| / 2;
    assert |expected| == n;
    result := new Option<Method>[n];
    for i := 0 to n
      invariant forall j :: 0 <= j < i ==> result[j] == expected[j]
    {
      PairKeysAt(namesAndDescriptors, i);
      LookedUpAt(table, PairKeys(namesAndDescriptors), i);
      var key := namesAndDescriptors[2 * i] + namesAndDescriptors[2 * i + 1];
      result[i] := if key in table then Some(table[key]) else None;
    }
  }

  // ---------------------------------------------------------------------
  // addAllMethods, addAllInterfaces, findDeclaredMethod
  // ---------------------------------------------------------------------

  /**
   * What addAllMethods appends for a type: its declared methods, then
   * everything it appends for the superclass, then for each interface in
   * order.
   */
  function AllMethods(c: Class): seq<Method>
    decreases c, 1
  {
    c.declaredMethods + SuperclassMethods(c) + InterfaceMethods(c, |c.interfaces|)
  }

  /** The part of AllMethods(c) contributed by the superclass, if any. */
  function SuperclassMethods(c: Class): seq<Method>
    decreases c, 0
  {
    match c.superclass
    case None => []
    case Some(s) => AllMethods(s)
  }

  /** The part of AllMethods(c) contributed by the first n interfaces of c. */
  function InterfaceMethods(c: Class, n: nat): seq<Method>
    requires n <= |c.interfaces|
    decreases c, 0, n
  {
    if n == 0 then [] else InterfaceMethods(c, n - 1) + AllMethods(c.interfaces[n - 1])
  }

  /** A method declared by c, by one of its superclasses, or by any interface reachable from them. */
  predicate DeclaredInHierarchy(c: Class, m: Method)
    decreases c
  {
    || m in c.declaredMethods
    || (c.superclass.Some? && DeclaredInHierarchy(c.superclass.value, m))
    || exists i :: 0 <= i < |c.interfaces| && DeclaredInHierarchy(c.interfaces[i], m)
  }

  /** ReflectUtils.addAllMethods: appends AllMethods(type) to the list, keeping what it held, and returns the list. */
  method AddAllMethods(t: Class, list: ArrayList<Method>) returns (r: ArrayList<Method>)
    modifies list
    ensures r == list
    ensures list.elements == old(list.elements) + AllMethods(t)
    decreases t
  {
    list.AddAll(t.declaredMethods);
    if t.superclass.Some? {
      var _ := AddAllMethods(t.superclass.value, list);
    }
    for i := 0 to |t.interfaces|
      invariant list.elements == old(list.elements) + t.declaredMethods + SuperclassMethods(t) + InterfaceMethods(t, i)
    {
      var _ := AddAllMethods(t.interfaces[i], list);
    }
    return list;
  }

  /** The methods collected for c are exactly those declared somewhere in its hierarchy, its own first. */
  lemma {:induction false} AllMethodsMeaning(c: Class, m: Method)
    ensures m in AllMethods(c) <==> DeclaredInHierarchy(c, m)
    ensures AllMethods(c)[..|c.declaredMethods|] == c.declaredMethods
    decreases c
  {
    if c.superclass.Some? {
      AllMethodsMeaning(c.superclass.value, m);
    }
    InterfaceMethodsMeaning(c, |c.interfaces|, m);
  }

  lemma {:induction false} InterfaceMethodsMeaning(c: Class, n: nat, m: Method)
    requires n <= |c.interfaces|
    ensures m in InterfaceMethods(c, n) <==> exists i :: 0 <= i < n && DeclaredInHierarchy(c.interfaces[i], m)
    decreases c, n
  {
    if n > 0 {
      InterfaceMethodsMeaning(c, n - 1, m);
      AllMethodsMeaning(c.interfaces[n - 1], m);
    }
  }

  /**
   * What addAllInterfaces appends for a type: when it has a superclass, its
   * interfaces and then what it appends for the superclass; nothing for a
   * type without one (Object, an interface, a primitive).
   */
  function AllInterfaces(c: Class): seq<Class>
    decreases c
  {
    match c.superclass
    case None => []
    case Some(s) => c.interfaces + AllInterfaces(s)
  }

  /** ReflectUtils.addAllInterfaces: appends AllInterfaces(type) to the list, keeping what it held, and returns the list. */
  method AddAllInterfaces(t: Class, list: ArrayList<Class>) returns (r: ArrayList<Class>)
    modifies list
    ensures r == list
    ensures list.elements == old(list.elements) + AllInterfaces(t)
    decreases t
  {
    if t.superclass.Some? {
      list.AddAll(t.interfaces);
      var _ := AddAllInterfaces(t.superclass.value, list);
    }
    return list;
  }

  /** x is implemented directly by a class of the chain other than its last one. */
  predicate ImplementedBeforeLast(chain: seq<Class>, x: Class) {
    exists i :: 0 <= i < |chain| - 1 && x in chain[i].interfaces
  }

  /** Peeling the first class off a chain of at least two classes. */
  lemma ImplementedBeforeLastCons(c: Class, rest: seq<Class>, x: Class)
    requires |rest| >= 1
    ensures ImplementedBeforeLast([c] + rest, x) <==> x in c.interfaces || ImplementedBeforeLast(rest, x)
  {
    var chain := [c] + rest;
    if x in c.interfaces {
      assert chain[0] == c;
    }
    if ImplementedBeforeLast(rest, x) {
      var i :| 0 <= i < |rest| - 1 && x in rest[i].interfaces;
      assert chain[i + 1] == rest[i];
    }
    if ImplementedBeforeLast(chain, x) {
      var i :| 0 <= i < |chain| - 1 && x in chain[i].interfaces;
      if i > 0 {
        assert rest[i - 1] == chain[i];
      }
    }
  }

  /**
   * The interfaces collected for c are those directly implemented by the
   * classes of its superclass chain, except the last class of the chain.
   */
  lemma {:induction false} AllInterfacesMeaning(c: Class, x: Class)
    ensures x in AllInterfaces(c) <==> ImplementedBeforeLast(SuperclassChain(c), x)
    decreases c
  {
    match c.superclass
    case None =>
    case Some(s) =>
      AllInterfacesMeaning(s, x);
      ImplementedBeforeLastCons(c, SuperclassChain(s), x);
  }

  /**
   * What findDeclaredMethod yields: the method that the nearest class on the
   * superclass chain declares with that name and those parameter types, or
   * NoSuchMethodException carrying the name.
   */
  function DeclaredUpChain(c: Class, methodName: string, parameterTypes: seq<JType>): (r: Result<Method, Error>)
    ensures r.Failure? ==> r.error == NoSuchMethod(methodName)
    decreases c
  {
    match DeclaredMethod(c, methodName, parameterTypes)
    case Some(m) => Success(m)
    case None =>
      match c.superclass
      case None => Failure(NoSuchMethod(methodName))
      case Some(s) => DeclaredUpChain(s, methodName, parameterTypes)
  }

  /** No class of the chain declares name(parameterTypes). */
  predicate NoneDeclares(chain: seq<Class>, methodName: string, parameterTypes: seq<JType>) {
    forall i :: 0 <= i < |chain| ==> DeclaredMethod(chain[i], methodName, parameterTypes).None?
  }

  /** chain[i] is the first class of the chain to declare name(parameterTypes), and m is what it declares. */
  predicate FirstToDeclare(chain: seq<Class>, i: int, methodName: string, parameterTypes: seq<JType>, m: Method) {
    && 0 <= i < |chain|
    && DeclaredMethod(chain[i], methodName, parameterTypes) == Some(m)
    && NoneDeclares(chain[..i], methodName, parameterTypes)
  }

  /** DeclaredUpChain finds the method of the first class on the chain that declares a match, and fails when none does. */
  lemma {:induction false} DeclaredUpChainMeaning(c: Class, methodName: string, parameterTypes: seq<JType>)
    ensures var chain := SuperclassChain(c);
      var r := DeclaredUpChain(c, methodName, parameterTypes);
      && (r.Failure? <==> NoneDeclares(chain, methodName, parameterTypes))
      && (r.Success? ==> exists i :: FirstToDeclare(chain, i, methodName, parameterTypes, r.value))
    decreases c
  {
    var chain := SuperclassChain(c);
    var r := DeclaredUpChain(c, methodName, parameterTypes);
    if DeclaredMethod(c, methodName, parameterTypes).Some? {
      assert chain[..0] == [];
      assert FirstToDeclare(chain, 0, methodName, parameterTypes, r.value);
    } else if c.superclass.None? {
      assert chain == [c];
    } else {
      var s := c.superclass.value;
      var rest := SuperclassChain(s);
      DeclaredUpChainMeaning(s, methodName, parameterTypes);
      assert chain == [c] + rest;
      NoneDeclaresCons(c, rest, methodName, parameterTypes);
      if r.Success? {
        var i :| FirstToDeclare(rest, i, methodName, parameterTypes, r.value);
        FirstToDeclareCons(c, rest, i, methodName, parameterTypes, r.value);
      }
    }
  }

  lemma NoneDeclaresCons(c: Class, rest: seq<Class>, methodName: string, parameterTypes: seq<JType>)
    ensures NoneDeclares([c] + rest, methodName, parameterTypes)
      <==> DeclaredMethod(c, methodName, parameterTypes).None? && NoneDeclares(rest, methodName, parameterTypes)
  {
    var chain := [c] + rest;
    if DeclaredMethod(c, methodName, parameterTypes).None? && NoneDeclares(rest, methodName, parameterTypes) {
      forall i | 0 <= i < |chain|
        ensures DeclaredMethod(chain[i], methodName, parameterTypes).None?
      {
        if i > 0 {
          assert chain[i] == rest[i - 1];
        }
      }
    }
    if NoneDeclares(chain, methodName, parameterTypes) {
      assert chain[0] == c;
      forall i | 0 <= i < |rest|
        ensures DeclaredMethod(rest[i], methodName, parameterTypes).None?
      {
        assert chain[i + 1] == rest[i];
      }
    }
  }

  lemma FirstToDeclareCons(c: Class, rest: seq<Class>, i: int, methodName: string, parameterTypes: seq<JType>, m: Method)
    requires DeclaredMethod(c, methodName, parameterTypes).None?
    requires FirstToDeclare(rest, i, methodName, parameterTypes, m)
    ensures FirstToDeclare([c] + rest, i + 1, methodName, parameterTypes, m)
  {
    var chain := [c] + rest;
    assert chain[..i + 1] == [c] + rest[..i];
    NoneDeclaresCons(c, rest[..i], methodName, parameterTypes);
  }

  /** ReflectUtils.findDeclaredMethod: tries getDeclaredMethod on the type, then on each superclass in turn. */
  method FindDeclaredMethod(t: Class, methodName: string, parameterTypes: seq<Class>) returns (r: Result<Method, Error>)
    ensures r == DeclaredUpChain(t, methodName, TypesOf(parameterTypes))
  {
    var types := TypesOf(parameterTypes);
    var cl: Option<Class> := Some(t);
    while cl.Some?
      invariant DeclaredUpChain(t, methodName, types)
        == if cl.Some? then DeclaredUpChain(cl.value, methodName, types) else Failure(NoSuchMethod(methodName))
      decreases cl
    {
      var m := DeclaredMethod(cl.value, methodName, types);
      if m.Some? {
        return Success(m.value);
      }
      cl := cl.value.superclass;
    }
    return Failure(NoSuchMethod(methodName));
  }

  // ---------------------------------------------------------------------
  // findPackageProtected, getNames, getClasses
  // ---------------------------------------------------------------------

  /** ReflectUtils.findPackageProtected: the position of the first non-public class, or 0 when all are public. */
  method FindPackageProtected(classes: seq<Class>) returns (index: int)
    ensures (exists j :: 0 <= j < |classes| && !classes[j].isPublic) ==>
      (&& 0 <= index < |classes|
       && !classes[index].isPublic
       && forall j :: 0 <= j < index ==> classes[j].isPublic)
    ensures (forall j :: 0 <= j < |classes| ==> classes[j].isPublic) ==> index == 0
  {
    for i := 0 to |classes|
      invariant forall j :: 0 <= j < i ==> classes[j].isPublic
    {
      if !classes[i].isPublic {
        return i;
      }
    }
    return 0;
  }

  /** ReflectUtils.getNames: null for null, otherwise Class.getName() of each class, in order. */
  method GetNames(classes: Option<seq<Class>>) returns (names: array?<string>)
    ensures classes.None? <==> names == null
    ensures names != null ==>
      (&& names.Length == |classes.value|
       && forall i :: 0 <= i < names.Length ==> names[i] == classes.value[i].Name())
  {
    if classes.None? {
      return null;
    }
    var cs := classes.value;
    names := new string[|cs|];
    for i := 0 to names.Length
      invariant forall j :: 0 <= j < i ==> names[j] == cs[j].Name()
    {
      names[i] := cs[i].Name();
    }
  }

  /**
   * ReflectUtils.getClasses: the runtime class of each object, in order;
   * a null element makes Object.getClass() throw.
   */
  method GetClasses(objects: seq<Value>) returns (r: Result<array<Class>, Error>)
    ensures r.Failure? <==> Null in objects
    ensures r.Failure? ==> r.error == NullPointer
    ensures r.Success? ==>
      (&& r.value.Length == |objects|
       && forall i :: 0 <= i < |objects| ==> r.value[i] == objects[i].runtimeClass)
  {
    var classes := new Class[|objects|];
    for i := 0 to |objects|
      invariant forall j :: 0 <= j < i ==> objects[j].Instance? && classes[j] == objects[j].runtimeClass
    {
      if objects[i].Null? {
        return Failure(NullPointer);
      }
      classes[i] := objects[i].runtimeClass;
    }
    return Success(classes);
  }

  // ---------------------------------------------------------------------
  // getPropertyMethods, getPropertiesHelper and the getBean* wrappers
  // ---------------------------------------------------------------------

  /** The accessors of one property that getPropertyMethods adds, leaving out a missing (null) one. */
  function AccessorsOf(pd: PropertyDescriptor, read: bool, write: bool): set<Method> {
    (if read && pd.readMethod.Some? then {pd.readMethod.value} else {})
      + (if write && pd.writeMethod.Some? then {pd.writeMethod.value} else {})
  }

  /** The set getPropertyMethods collects from the properties, without null. */
  function Accessors(properties: seq<PropertyDescriptor>, read: bool, write: bool): set<Method> {
    if properties == [] then {}
    else Accessors(properties[..|properties| - 1], read, write) + AccessorsOf(properties[|properties| - 1], read, write)
  }

  /** A method is collected exactly when some property has it as a requested accessor. */
  lemma {:induction false} AccessorsMeaning(properties: seq<PropertyDescriptor>, read: bool, write: bool, m: Method)
    ensures m in Accessors(properties, read, write) <==>
      exists i :: 0 <= i < |properties| &&
        ((read && properties[i].readMethod == Some(m)) || (write && properties[i].writeMethod == Some(m)))
  {
    if properties != [] {
      var init := properties[..|properties| - 1];
      AccessorsMeaning(init, read, write, m);
      if exists i :: 0 <= i < |init| &&
          ((read && init[i].readMethod == Some(m)) || (write && init[i].writeMethod == Some(m))) {
        var i :| 0 <= i < |init| &&
          ((read && init[i].readMethod == Some(m)) || (write && init[i].writeMethod == Some(m)));
        assert properties[i] == init[i];
      }
      if exists i :: 0 <= i < |properties| &&
          ((read && properties[i].readMethod == Some(m)) || (write && properties[i].writeMethod == Some(m))) {
        var i :| 0 <= i < |properties| &&
          ((read && properties[i].readMethod == Some(m)) || (write && properties[i].writeMethod == Some(m)));
        if i < |init| {
          assert init[i] == properties[i];
        }
      }
    }
  }

  /** No element of xs occurs twice. */
  predicate Distinct<X(==)>(xs: seq<X>) {
    forall i, j :: 0 <= i < j < |xs| ==> xs[i] != xs[j]
  }

  /** The HashSet loop of getPropertyMethods. */
  method CollectAccessors(properties: seq<PropertyDescriptor>, read: bool, write: bool) returns (methods: set<Method>)
    ensures methods == Accessors(properties, read, write)
  {
    methods := {};
    for i := 0 to |properties|
      invariant methods == Accessors(properties[..i], read, write)
    {
      assert properties[..i + 1][..i] == properties[..i];
      methods := methods + AccessorsOf(properties[i], read, write);
    }
    assert properties[..|properties|] == properties;
  }

  /** Set.toArray: the elements of a set, each once, in an order the set does not fix. */
  method SetToArray(s: set<Method>) returns (a: array<Method>)
    ensures Distinct(a[..])
    ensures forall m :: m in a[..] <==> m in s
  {
    var rest := s;
    var out: seq<Method> := [];
    while rest != {}
      invariant Distinct(out)
      invariant forall m :: m in s <==> m in rest || m in out
      invariant forall m :: m in rest ==> m !in out
      decreases |rest|
    {
      var m :| m in rest;
      out := out + [m];
      rest := rest - {m};
    }
    a := new Method[|out|](i requires 0 <= i < |out| => out[i]);
    assert a[..] == out;
  }

  /**
   * ReflectUtils.getPropertyMethods: the read and/or write methods of the
   * properties, each once, with missing accessors left out.
   */
  method GetPropertyMethods(properties: seq<PropertyDescriptor>, read: bool, write: bool) returns (methods: array<Method>)
    ensures Distinct(methods[..])
    ensures forall m :: m in methods[..] <==> m in Accessors(properties, read, write)
  {
    var collected := CollectAccessors(properties, read, write);
    methods := SetToArray(collected);
  }

  /** Whether a property has one of the requested accessors. */
  predicate HasAccessor(pd: PropertyDescriptor, read: bool, write: bool) {
    (read && pd.readMethod.Some?) || (write && pd.writeMethod.Some?)
  }

  /** The properties that have a requested accessor, in their order. */
  function WithAccessor(properties: seq<PropertyDescriptor>, read: bool, write: bool): (r: seq<PropertyDescriptor>)
    ensures |r| <= |properties|
  {
    if properties == [] then []
    else
      var init := WithAccessor(properties[..|properties| - 1], read, write);
      var last := properties[|properties| - 1];
      if HasAccessor(last, read, write) then init + [last] else init
  }

  /**
   * WithAccessor keeps the order of the list: filtering a concatenation
   * concatenates the filtered parts.
   */
  lemma {:induction false} WithAccessorAppend(p: seq<PropertyDescriptor>, q: seq<PropertyDescriptor>, read: bool, write: bool)
    ensures WithAccessor(p + q, read, write) == WithAccessor(p, read, write) + WithAccessor(q, read, write)
  {
    if q == [] {
      assert p + q == p;
    } else {
      var init := q[..|q| - 1];
      WithAccessorAppend(p, init, read, write);
      assert (p + q)[..|p + q| - 1] == p + init;
    }
  }

  /**
   * WithAccessor keeps exactly the properties with a requested accessor, and
   * keeps all of them when every property has one.
   */
  lemma {:induction false} WithAccessorMeaning(properties: seq<PropertyDescriptor>, read: bool, write: bool)
    ensures forall pd <- WithAccessor(properties, read, write) :: pd in properties && HasAccessor(pd, read, write)
    ensures forall pd <- properties :: HasAccessor(pd, read, write) ==> pd in WithAccessor(properties, read, write)
    ensures (forall pd <- properties :: HasAccessor(pd, read, write)) ==> WithAccessor(properties, read, write) == properties
  {
    if properties != [] {
      var init := properties[..|properties| - 1];
      WithAccessorMeaning(init, read, write);
      assert properties == init + [properties[|properties| - 1]];
    }
  }

  /** The copying loop of getPropertiesHelper. */
  method FilterProperties(all: array<PropertyDescriptor>, read: bool, write: bool) returns (properties: array<PropertyDescriptor>)
    ensures properties[..] == WithAccessor(all[..], read, write)
  {
    var kept: seq<PropertyDescriptor> := [];
    for i := 0 to all.Length
      invariant kept == WithAccessor(all[..i], read, write)
    {
      assert all[..i + 1][..i] == all[..i];
      if HasAccessor(all[i], read, write) {
        kept := kept + [all[i]];
      }
    }
    assert all[..all.Length] == all[..];
    properties := new PropertyDescriptor[|kept|](i requires 0 <= i < |kept| => kept[i]);
    assert properties[..] == kept;
  }

  /**
   * ReflectUtils.getPropertiesHelper. `info` stands for
   * Introspector.getBeanInfo(type, Object.class): the descriptor array it
   * reports, or the message of the IntrospectionException it throws. With
   * both flags set the very same array comes back; otherwise a new array of
   * the properties with a requested accessor.
   */
  method GetPropertiesHelper(info: Result<array<PropertyDescriptor>, string>, read: bool, write: bool)
    returns (r: Result<array<PropertyDescriptor>, Error>)
    ensures info.Failure? ==> r == Failure(CodeGeneration(Introspection(info.error)))
    ensures info.Success? && read && write ==> r == Success(info.value)
    ensures info.Success? && !(read && write) ==> r.Success? && r.value[..] == WithAccessor(info.value[..], read, write)
  {
    if info.Failure? {
      return Failure(CodeGeneration(Introspection(info.error)));
    }
    var all := info.value;
    if read && write {
      return Success(all);
    }
    var properties := FilterProperties(all, read, write);
    return Success(properties);
  }

  /** ReflectUtils.getBeanProperties: every property the introspector reports, as it reports them. */
  method GetBeanProperties(info: Result<array<PropertyDescriptor>, string>) returns (r: Result<array<PropertyDescriptor>, Error>)
    ensures info.Failure? ==> r == Failure(CodeGeneration(Introspection(info.error)))
    ensures info.Success? ==> r == Success(info.value)
  {
    r := GetPropertiesHelper(info, true, true);
  }

  /** ReflectUtils.getBeanGetters: the properties with a read method, in order. */
  method GetBeanGetters(info: Result<array<PropertyDescriptor>, string>) returns (r: Result<array<PropertyDescriptor>, Error>)
    ensures info.Failure? ==> r == Failure(CodeGeneration(Introspection(info.error)))
    ensures info.Success? ==> r.Success? && r.value[..] == WithAccessor(info.value[..], true, false)
  {
    r := GetPropertiesHelper(info, true, false);
  }

  /** ReflectUtils.getBeanSetters: the properties with a write method, in order. */
  method GetBeanSetters(info: Result<array<PropertyDescriptor>, string>) returns (r: Result<array<PropertyDescriptor>, Error>)
    ensures info.Failure? ==> r == Failure(CodeGeneration(Introspection(info.error)))
    ensures info.Success? ==> r.Success? && r.value[..] == WithAccessor(info.value[..], false, true)
  {
    r := GetPropertiesHelper(info, false, true);
  }
}
