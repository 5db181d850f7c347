# Fast reflection: FastClass and ReflectUtils

This project models two parts of the cglib-derived fast-reflection layer of
`net.lc4ever.framework`:

- **FastClass.** A dispatcher for one Java class. It names the class's methods
  and constructors by integer index, so they can later be invoked without
  reflection.
  - The lookup key of a method is its name, `(`, the field descriptor of each
    parameter and `)`.
  - `getIndex` returns `-1` when nothing matches. Methods and constructors
    have separate index spaces, and `getMaxIndex` is the largest method index.
  - The by-name and by-type calls delegate to the index-based ones.
  - `equals` and `hashCode` follow the wrapped class.
  - The index table itself is generated bytecode. Here it is the frozen
    sequence of methods and the frozen sequence of constructors a dispatcher
    is built with, and every lookup is a search over them.
- **ReflectUtils.** Parsing of textual member descriptors such as
  `java.lang.String.indexOf(int, int)`:
  - the class name is split from the member name;
  - the parameter list is cut at commas and each piece is trimmed;
  - each type name is resolved. `[]` suffixes become JVM array names: a `[`
    per dimension, then `L…;` or a primitive's one-letter code.

  It also covers:
  - `findMethods`, which pairs names with descriptors;
  - the hierarchy walks `addAllMethods`, `addAllInterfaces` and
    `findDeclaredMethod`;
  - the helpers `findPackageProtected`, `getNames`, `getClasses`,
    `getPropertyMethods`, `getPropertiesHelper` and its `getBean*` wrappers,
    `findInterfaceMethod`, `findNewInstance` and `getSignature`.

The model has these layers:

- `wrappers.dfy`: `Option` and `Result`.
- `java_strings.dfy`: the `java.lang.String` operations the code relies on,
  with Java's conventions. These are `indexOf`, `lastIndexOf`,
  `indexOf("[]")` and `trim`.
- `jvm_types.dfy`: field and method descriptors, as in sections 4.3.2 and
  4.3.3 of the Java Virtual Machine Specification, with parsers that invert
  them, and `Class.getName()` spellings.
- `runtime_classes.dfy`: the reflective world as values:
  - `Class`, `Method`, `Constructor` and `PropertyDescriptor`;
  - the exceptions;
  - a class loader, as the map from the names `Class.forName` resolves to
    their classes;
  - `java.util.List`, as a class whose `elements` field is appended to in
    place.
- `reflect_utils.dfy` and `fast_class.dfy`: the two core classes.

Loops in the source are methods with loop invariants, proved against
specification functions. The lists a caller hands in to be appended to
(`addAllMethods`, `addAllInterfaces`) are `ArrayList` objects with
`modifies` clauses; lists a method builds only for itself (the parameter
names of `parseTypes`, the property list of `getPropertiesHelper`) are
sequence values. Arrays a method allocates and fills are Dafny arrays.
Arrays that are only read are sequences.

## Model

Source paths are relative to the repository root.

| member | source | states |
|---|---|---|
| FastClasses.GetSignatureWithoutReturnType | src/main/java/net/lc4ever/framework/cglib/reflect/FastClass.java:215-224 | the buffer loop produces exactly name + "(" + the field descriptors of the parameter types in order + ")" |
| FastClasses.SignatureKeyOfNoParameters | src/main/java/net/lc4ever/framework/cglib/reflect/FastClass.java:215-224 | an empty parameter list gives the key name + "()" |
| FastClasses.SignatureKeyPrefix | src/main/java/net/lc4ever/framework/cglib/reflect/FastClass.java:215-224 | the key is the name followed by the method descriptor with its return descriptor dropped |
| FastClasses.SignatureKeyRoundTrip | src/main/java/net/lc4ever/framework/cglib/reflect/FastClass.java:215-224 | reading a key back (name before the first '(', then parameter descriptors up to ')') gives the name and parameter types it was built from |
| FastClasses.SignatureKeyInjective | src/main/java/net/lc4ever/framework/cglib/reflect/FastClass.java:168-178 | two keys are equal iff names and ordered parameter types are equal, so methods differing only in return type collide |
| FastClasses.MethodIndex | src/main/java/net/lc4ever/framework/cglib/reflect/FastClass.java:168-178 | the search over the method table gives -1 or a valid position whose method has the key |
| FastClasses.MethodIndexMeaning | src/main/java/net/lc4ever/framework/cglib/reflect/FastClass.java:168-178 | the search gives -1 iff no method has the key; otherwise no earlier method has it |
| FastClasses.ConstructorIndex | src/main/java/net/lc4ever/framework/cglib/reflect/FastClass.java:180-187 | the search over the constructor table gives -1 or a position whose constructor takes exactly those parameter types |
| FastClasses.ConstructorIndexMeaning | src/main/java/net/lc4ever/framework/cglib/reflect/FastClass.java:180-187 | the constructor search gives -1 iff no constructor takes those parameter types; no earlier one does |
| FastClasses.SignatureIndex | src/main/java/net/lc4ever/framework/cglib/reflect/FastClass.java:208 | the search by Signature gives -1 or a position whose method has that name and method descriptor |
| FastClasses.SignatureIndexMeaning | src/main/java/net/lc4ever/framework/cglib/reflect/FastClass.java:208 | the search by Signature gives -1 iff no method has that name and descriptor; otherwise no earlier method has them |
| FastClasses.CreateWithoutType | src/main/java/net/lc4ever/framework/cglib/reflect/FastClass.java:41-43 | the constructor without a type always fails with the Error "Using the FastClass empty constructor--please report to the cglib-devel mailing list" |
| FastClasses.FastClass.constructor | src/main/java/net/lc4ever/framework/cglib/reflect/FastClass.java:45-47 | the wrapped class (an immutable field) is the one given, and so are the index tables |
| FastClasses.FastClass.Equals | src/main/java/net/lc4ever/framework/cglib/reflect/FastClass.java:162-166 | equals is false for null and non-dispatchers, otherwise true iff the wrapped classes are equal |
| FastClasses.FastClass.GetIndex | src/main/java/net/lc4ever/framework/cglib/reflect/FastClass.java:168-178 | getIndex(name, types) is -1 or an index in 0..getMaxIndex() of a method whose key equals the key of name(types) |
| FastClasses.FastClass.GetConstructorIndex | src/main/java/net/lc4ever/framework/cglib/reflect/FastClass.java:180-187 | getIndex(types) is -1 or a constructor index whose constructor takes exactly those types |
| FastClasses.FastClass.GetIndexBySignature | src/main/java/net/lc4ever/framework/cglib/reflect/FastClass.java:208 | getIndex(Signature) is -1 or an index in 0..getMaxIndex() of a method with that name and descriptor |
| FastClasses.FastClass.GetMaxIndex | src/main/java/net/lc4ever/framework/cglib/reflect/FastClass.java:210-213 | getMaxIndex is one less than the number of methods, the largest valid method index |
| FastClasses.FastClass.Invoke | src/main/java/net/lc4ever/framework/cglib/reflect/FastClass.java:189-197 | invoke(index, obj, args) succeeds iff 0 <= index <= getMaxIndex(), calling the method at that index on obj with args; otherwise it throws IllegalArgumentException |
| FastClasses.FastClass.NewInstanceAt | src/main/java/net/lc4ever/framework/cglib/reflect/FastClass.java:199-206 | newInstance(index, args) succeeds iff the index is a constructor index, running that constructor with args; otherwise it throws IllegalArgumentException |
| FastClasses.GetIndexMeaning | src/main/java/net/lc4ever/framework/cglib/reflect/FastClass.java:168-178 | getIndex(name, types) is -1 iff no method of the table has the key of name(types) |
| FastClasses.GetIndexFindsDeclared | src/main/java/net/lc4ever/framework/cglib/reflect/FastClass.java:168-178 | with well-formed names and types, a found method has exactly the requested name and parameter types, and -1 means no method has them |
| FastClasses.SignatureIndexAgreesWithGetIndex | src/main/java/net/lc4ever/framework/cglib/reflect/FastClass.java:208 | a method found by Signature is also found by name and parameter types, at that index or an earlier one |
| FastClasses.FastClass.InvokeMatching | src/main/java/net/lc4ever/framework/cglib/reflect/FastClass.java:108-110 | invoke(name, types, obj, args) succeeds iff getIndex(name, types) finds a method, calling a method with that key on obj with args; otherwise IllegalArgumentException |
| FastClasses.FastClass.NewDefaultInstance | src/main/java/net/lc4ever/framework/cglib/reflect/FastClass.java:112-114 | newInstance() succeeds iff getIndex of no types finds a constructor, running one without parameters on a null argument array; otherwise IllegalArgumentException |
| FastClasses.FastClass.NewInstance | src/main/java/net/lc4ever/framework/cglib/reflect/FastClass.java:116-118 | newInstance(types, args) succeeds iff getIndex(types) finds a constructor, running one taking exactly those types with args; otherwise IllegalArgumentException |
| FastClasses.FoundMethodIsInvocable | src/main/java/net/lc4ever/framework/cglib/reflect/FastClass.java:108-110 | invoke(name, types, obj, args) calls the method getIndex finds, or throws IllegalArgumentException when it finds none |
| FastClasses.NewDefaultInstanceMeaning | src/main/java/net/lc4ever/framework/cglib/reflect/FastClass.java:112-114 | newInstance() succeeds iff some constructor takes no parameters, and passes a null argument array |
| FastClasses.NewInstanceMeaning | src/main/java/net/lc4ever/framework/cglib/reflect/FastClass.java:116-118 | newInstance(types, args) succeeds iff some constructor takes exactly those types, and runs it with args; otherwise IllegalArgumentException |
| FastClasses.EqualsIsEquivalence | src/main/java/net/lc4ever/framework/cglib/reflect/FastClass.java:162-166 | equals is reflexive, symmetric and transitive, and false for null and for other objects |
| FastClasses.EqualsAgreesWithHashCode | src/main/java/net/lc4ever/framework/cglib/reflect/FastClass.java:157-166 | equal dispatchers have equal hash codes |
| FastClasses.EqualDispatchersAgree | src/main/java/net/lc4ever/framework/cglib/reflect/FastClass.java:144-155 | equal dispatchers report the same getJavaClass, getName and toString |
| ReflectUtils.GetSignature | src/main/java/net/lc4ever/framework/cglib/util/ReflectUtils.java:128-138 | a method's signature carries its name, a constructor's carries "<init>", and a field throws IllegalArgumentException("Cannot get signature of a field") |
| ReflectUtils.GetSignatureDescriptorRoundTrip | src/main/java/net/lc4ever/framework/cglib/util/ReflectUtils.java:128-138 | the descriptor of getSignature parses back to the method's parameter and return types, or to the constructor's parameter types with a void return |
| ReflectUtils.FindInterfaceMethod | src/main/java/net/lc4ever/framework/cglib/util/ReflectUtils.java:381-386 | succeeds iff the class is an interface declaring exactly one method, returning that method; otherwise the two IllegalArgumentException messages |
| ReflectUtils.FindNewInstance | src/main/java/net/lc4ever/framework/cglib/util/ReflectUtils.java:292-296 | succeeds iff findInterfaceMethod does and the method is named "newInstance"; otherwise its failure or "… missing newInstance method" |
| ReflectUtils.BracketPairsBound | src/main/java/net/lc4ever/framework/cglib/util/ReflectUtils.java:203-212 | there are at most length/2 "[]" pairs, so cutting 2 * dimensions characters is in range |
| ReflectUtils.BracketPairsOfArraySuffix | src/main/java/net/lc4ever/framework/cglib/util/ReflectUtils.java:203-207 | a suffix of d "[]" pairs counts d dimensions |
| ReflectUtils.ArrayNameParts | src/main/java/net/lc4ever/framework/cglib/util/ReflectUtils.java:203-212 | for a base name without "[]", base + d pairs of "[]" has d dimensions and strips back to base |
| ReflectUtils.ForNameCandidatesAt | src/main/java/net/lc4ever/framework/cglib/util/ReflectUtils.java:214-222 | Class.forName is tried first on prefix + name + suffix, then on prefix + package + "." + name + suffix for each package in order |
| ReflectUtils.FirstLoadableMeaning | src/main/java/net/lc4ever/framework/cglib/util/ReflectUtils.java:216-223 | trying the candidates in turn finds nothing iff none resolves, and otherwise the class of the first one that resolves |
| ReflectUtils.ResolveClassName | src/main/java/net/lc4ever/framework/cglib/util/ReflectUtils.java:201-236 | every failure of getClass is ClassNotFoundException carrying the original name |
| ReflectUtils.CountDimensions | src/main/java/net/lc4ever/framework/cglib/util/ReflectUtils.java:203-207 | the indexOf("[]") loop counts the "[]" occurrences |
| ReflectUtils.Brackets | src/main/java/net/lc4ever/framework/cglib/util/ReflectUtils.java:208-211 | the buffer loop builds one '[' per dimension |
| ReflectUtils.ForNameFormParts | src/main/java/net/lc4ever/framework/cglib/util/ReflectUtils.java:214-217 | prefix + name + suffix is the name for dimension 0 and "["*d + "L" + name + ";" otherwise |
| ReflectUtils.GetClass | src/main/java/net/lc4ever/framework/cglib/util/ReflectUtils.java:201-236 | the imperative getClass yields exactly ResolveClassName: first resolvable candidate, then the primitive fallbacks, else ClassNotFoundException(original name) |
| ReflectUtils.PrimitiveNameResolves | src/main/java/net/lc4ever/framework/cglib/util/ReflectUtils.java:88-95 | a primitive keyword that the loader does not resolve gives the primitive class |
| ReflectUtils.PrimitiveArrayResolves | src/main/java/net/lc4ever/framework/cglib/util/ReflectUtils.java:97-104 | "int[][]" and the like fall back to "["*d + the primitive's descriptor letter, and fail with the original name when that does not resolve |
| ReflectUtils.ReferenceArrayResolves | src/main/java/net/lc4ever/framework/cglib/util/ReflectUtils.java:214-217 | "X[]…" with d pairs resolves to the class named "["*d + "L" + X + ";" when the loader has it |
| ReflectUtils.SplitOnJoin | src/main/java/net/lc4ever/framework/cglib/util/ReflectUtils.java:179-188 | the comma-cut pieces contain no comma and joined with commas give back the parameter text |
| ReflectUtils.SplitOnCount | src/main/java/net/lc4ever/framework/cglib/util/ReflectUtils.java:179-188 | cutting at every comma gives one piece more than there are commas |
| ReflectUtils.TrimAllMeaning | src/main/java/net/lc4ever/framework/cglib/util/ReflectUtils.java:184-188 | each collected piece is the corresponding raw piece trimmed |
| ReflectUtils.PiecesFromSplit | src/main/java/net/lc4ever/framework/cglib/util/ReflectUtils.java:178-189 | with no comma after ')', the loop's pieces are the text between the parentheses cut at commas, less an empty last piece |
| ReflectUtils.ParameterPiecesOfList | src/main/java/net/lc4ever/framework/cglib/util/ReflectUtils.java:174-189 | for head "(" inner ")" tail, parseTypes reads the trimmed comma-separated pieces of inner, in order |
| ReflectUtils.ParameterPiecesCount | src/main/java/net/lc4ever/framework/cglib/util/ReflectUtils.java:174-189 | the number of pieces is the number of commas, plus one when text follows the last comma ("()" gives none) |
| ReflectUtils.ResolveAllMeaning | src/main/java/net/lc4ever/framework/cglib/util/ReflectUtils.java:190-194 | resolving the pieces succeeds with each piece's class in order, or fails with the error of the first piece that does not resolve |
| ReflectUtils.SplitParameters | src/main/java/net/lc4ever/framework/cglib/util/ReflectUtils.java:175-189 | the comma loop collects exactly the trimmed pieces the specification cuts |
| ReflectUtils.SplitFrom | src/main/java/net/lc4ever/framework/cglib/util/ReflectUtils.java:179-189 | from any start, the loop collects the trimmed pieces up to each comma, then up to ')' when text remains |
| ReflectUtils.ResolveTypes | src/main/java/net/lc4ever/framework/cglib/util/ReflectUtils.java:190-194 | the array loop succeeds iff every name resolves, filling the array with the classes in order, else fails with the first error |
| ReflectUtils.ParseTypes | src/main/java/net/lc4ever/framework/cglib/util/ReflectUtils.java:174-195 | parseTypes yields an array equal to resolving the parameter pieces in order, or their first failure |
| ReflectUtils.SplitMethodDescriptor | src/main/java/net/lc4ever/framework/cglib/util/ReflectUtils.java:162-165 | the split fails (StringIndexOutOfBounds) iff there is no '(' or no '.' before it |
| ReflectUtils.SplitMethodDescriptorOf | src/main/java/net/lc4ever/framework/cglib/util/ReflectUtils.java:162-165 | cls "." name "(" … splits into the trimmed cls and the trimmed name |
| ReflectUtils.ConstructorClassName | src/main/java/net/lc4ever/framework/cglib/util/ReflectUtils.java:146-147 | the class name is the trimmed text before the first '(', and a missing '(' throws StringIndexOutOfBounds |
| ReflectUtils.MethodForDescriptor | src/main/java/net/lc4ever/framework/cglib/util/ReflectUtils.java:160-172 | a found method has the parsed method name and the resolved parameter types |
| ReflectUtils.FindMethod | src/main/java/net/lc4ever/framework/cglib/util/ReflectUtils.java:160-172 | findMethod yields MethodForDescriptor, including each wrapped failure |
| ReflectUtils.MethodForWellFormedDescriptor | src/main/java/net/lc4ever/framework/cglib/util/ReflectUtils.java:160-172 | for cls.name(inner) whose class and types resolve, the result is the declared method or CodeGenerationException(NoSuchMethodException(name)) |
| ReflectUtils.ConstructorForDescriptor | src/main/java/net/lc4ever/framework/cglib/util/ReflectUtils.java:144-154 | a found constructor is a public constructor of the class named before '(' and takes the resolved parameter types; no '(' throws StringIndexOutOfBounds |
| ReflectUtils.ConstructorForWellFormedDescriptor | src/main/java/net/lc4ever/framework/cglib/util/ReflectUtils.java:144-154 | for cls(inner) whose class and types resolve, the result is that class's public constructor with those types, or CodeGenerationException(NoSuchMethodException("<init>")) when it has none |
| ReflectUtils.FindConstructor | src/main/java/net/lc4ever/framework/cglib/util/ReflectUtils.java:144-154 | findConstructor yields ConstructorForDescriptor |
| ReflectUtils.LastIndexWithKeyMeaning | src/main/java/net/lc4ever/framework/cglib/util/ReflectUtils.java:473-477 | the method at the chosen position has the key and no later method has it |
| ReflectUtils.LastWithKeyAt | src/main/java/net/lc4ever/framework/cglib/util/ReflectUtils.java:478-484 | the reported method is the one at the last position with the key, or null when there is none |
| ReflectUtils.KeyTableLookup | src/main/java/net/lc4ever/framework/cglib/util/ReflectUtils.java:473-477 | the HashMap holds a key iff some method has it, and then holds the last such method |
| ReflectUtils.LastWithKeyMeaning | src/main/java/net/lc4ever/framework/cglib/util/ReflectUtils.java:478-484 | null iff no method has the key; otherwise a method with the key after which no method has it |
| ReflectUtils.FileMethods | src/main/java/net/lc4ever/framework/cglib/util/ReflectUtils.java:473-477 | the put loop builds the map of each key to its last method |
| ReflectUtils.PairKeysAt | src/main/java/net/lc4ever/framework/cglib/util/ReflectUtils.java:478-480 | there are length/2 keys, key i being names[2i] + names[2i+1] |
| ReflectUtils.ReportsAt | src/main/java/net/lc4ever/framework/cglib/util/ReflectUtils.java:478-484 | report i is the last method filed under key i, or null |
| ReflectUtils.LookUpAll | src/main/java/net/lc4ever/framework/cglib/util/ReflectUtils.java:478-484 | the map.get loop fills a new array with the table entry under each pair key, in order, or null |
| ReflectUtils.LookedUpReports | src/main/java/net/lc4ever/framework/cglib/util/ReflectUtils.java:472-484 | looking keys up in the table the put loop built gives, for each key, the last method filed under it |
| ReflectUtils.FindMethods | src/main/java/net/lc4ever/framework/cglib/util/ReflectUtils.java:472-486 | the result holds, for each (name, descriptor) pair, the last method whose name + descriptor spells the pair, or null |
| ReflectUtils.AddAllMethods | src/main/java/net/lc4ever/framework/cglib/util/ReflectUtils.java:357-370 | the list keeps its contents as a prefix, gets declared, superclass then interface methods appended, and is returned |
| ReflectUtils.AllMethodsMeaning | src/main/java/net/lc4ever/framework/cglib/util/ReflectUtils.java:357-370 | a method is appended iff some class or interface of the hierarchy declares it; the declared methods come first |
| ReflectUtils.InterfaceMethodsMeaning | src/main/java/net/lc4ever/framework/cglib/util/ReflectUtils.java:364-367 | the interface loop appends exactly the hierarchy methods of the interfaces |
| ReflectUtils.AddAllInterfaces | src/main/java/net/lc4ever/framework/cglib/util/ReflectUtils.java:372-379 | the list keeps its contents and gets the interfaces of each class that has a superclass appended, up the chain |
| ReflectUtils.AllInterfacesMeaning | src/main/java/net/lc4ever/framework/cglib/util/ReflectUtils.java:372-379 | an interface is collected iff a class of the superclass chain other than the root implements it directly |
| ReflectUtils.DeclaredUpChain | src/main/java/net/lc4ever/framework/cglib/util/ReflectUtils.java:343-355 | the search up the chain fails only with NoSuchMethodException(methodName) |
| ReflectUtils.DeclaredUpChainMeaning | src/main/java/net/lc4ever/framework/cglib/util/ReflectUtils.java:343-355 | the search fails iff no class on the chain declares the method, and otherwise returns the declaration of the nearest class that does |
| ReflectUtils.FindDeclaredMethod | src/main/java/net/lc4ever/framework/cglib/util/ReflectUtils.java:343-355 | the loop over cl yields DeclaredUpChain |
| ReflectUtils.FindPackageProtected | src/main/java/net/lc4ever/framework/cglib/util/ReflectUtils.java:400-405 | the index of the first non-public class, or 0 when all are public |
| ReflectUtils.GetNames | src/main/java/net/lc4ever/framework/cglib/util/ReflectUtils.java:275-282 | null gives null; otherwise an array of the same length with names[i] = classes[i].getName() |
| ReflectUtils.GetClasses | src/main/java/net/lc4ever/framework/cglib/util/ReflectUtils.java:284-290 | classes[i] is the runtime class of objects[i], and a null element throws NullPointerException |
| ReflectUtils.AccessorsMeaning | src/main/java/net/lc4ever/framework/cglib/util/ReflectUtils.java:298-309 | a method is collected iff some property has it as a requested (read or write) accessor |
| ReflectUtils.CollectAccessors | src/main/java/net/lc4ever/framework/cglib/util/ReflectUtils.java:299-309 | the HashSet loop collects exactly the requested non-null accessors |
| ReflectUtils.SetToArray | src/main/java/net/lc4ever/framework/cglib/util/ReflectUtils.java:310 | toArray holds each element of the set exactly once |
| ReflectUtils.GetPropertyMethods | src/main/java/net/lc4ever/framework/cglib/util/ReflectUtils.java:298-311 | the result has no duplicates, no null, and exactly the requested accessors of the properties |
| ReflectUtils.WithAccessor | src/main/java/net/lc4ever/framework/cglib/util/ReflectUtils.java:330-336 | filtering never lengthens the list |
| ReflectUtils.WithAccessorAppend | src/main/java/net/lc4ever/framework/cglib/util/ReflectUtils.java:330-336 | the filter keeps list order: filtering a concatenation concatenates the filtered parts |
| ReflectUtils.WithAccessorMeaning | src/main/java/net/lc4ever/framework/cglib/util/ReflectUtils.java:330-336 | the kept properties are exactly those with a requested accessor, and when all have one nothing is dropped |
| ReflectUtils.FilterProperties | src/main/java/net/lc4ever/framework/cglib/util/ReflectUtils.java:330-337 | the ArrayList loop keeps, in order, the properties with a requested accessor |
| ReflectUtils.GetPropertiesHelper | src/main/java/net/lc4ever/framework/cglib/util/ReflectUtils.java:325-341 | read and write give the introspected array itself, otherwise the filtered properties; an IntrospectionException is wrapped in CodeGenerationException |
| ReflectUtils.GetBeanProperties | src/main/java/net/lc4ever/framework/cglib/util/ReflectUtils.java:313-315 | all properties, unfiltered |
| ReflectUtils.GetBeanGetters | src/main/java/net/lc4ever/framework/cglib/util/ReflectUtils.java:317-319 | the properties with a read method, in order |
| ReflectUtils.GetBeanSetters | src/main/java/net/lc4ever/framework/cglib/util/ReflectUtils.java:321-323 | the properties with a write method, in order |
| RuntimeClasses.DeclaredMethod | src/main/java/net/lc4ever/framework/cglib/util/ReflectUtils.java:348 | getDeclaredMethod finds a declared method with that name and those parameter types, and fails only when none is declared |
| RuntimeClasses.PublicConstructor | src/main/java/net/lc4ever/framework/cglib/util/ReflectUtils.java:148 | getConstructor finds a public constructor with those parameter types, and fails only when there is none |
| RuntimeClasses.SuperclassChain | src/main/java/net/lc4ever/framework/cglib/util/ReflectUtils.java:345-351 | the chain starts at the class, links each class to its superclass, and ends at a class without one |
| RuntimeClasses.PrimitiveClass | src/main/java/net/lc4ever/framework/cglib/util/ReflectUtils.java:88-95 | the primitive class of a keyword has that primitive type and that keyword as its name |
| RuntimeClasses.ArrayList.AddAll | src/main/java/net/lc4ever/framework/cglib/util/ReflectUtils.java:359 | addAll appends the given elements, keeping the old ones |
| JavaStrings.IndexOfMeaning | src/main/java/net/lc4ever/framework/cglib/util/ReflectUtils.java:175-180 | indexOf gives -1 iff the character is absent at or after the start, and otherwise its first occurrence there |
| JavaStrings.LastIndexOfMeaning | src/main/java/net/lc4ever/framework/cglib/util/ReflectUtils.java:163 | lastIndexOf gives -1 iff the character is absent at or before the start, and otherwise its last occurrence there |
| JavaStrings.IndexOfBracketPairMeaning | src/main/java/net/lc4ever/framework/cglib/util/ReflectUtils.java:205 | indexOf("[]") gives -1 iff no pair starts at or after the start, and otherwise the first one |
| JavaStrings.LeadingTrimmableMeaning | src/main/java/net/lc4ever/framework/cglib/util/ReflectUtils.java:147 | the leading characters trim() removes are all at or below the space, and the next one is not |
| JavaStrings.TrailingTrimmableStartMeaning | src/main/java/net/lc4ever/framework/cglib/util/ReflectUtils.java:147 | the trailing characters trim() removes are all at or below the space, and the one before them is not |
| JavaStrings.TrimMeaning | src/main/java/net/lc4ever/framework/cglib/util/ReflectUtils.java:147 | trim leaves the slice between the leading and trailing characters up to ' ', and leaves a string without such ends unchanged |
| JavaStrings.Repeat | src/main/java/net/lc4ever/framework/cglib/util/ReflectUtils.java:209-211 | n copies of a character |
| JvmTypes.PrimitiveNamed | src/main/java/net/lc4ever/framework/cglib/util/ReflectUtils.java:88-95 | the primitives table maps exactly the eight keywords, each to its own kind |
| JvmTypes.PrimitiveNamedOf | src/main/java/net/lc4ever/framework/cglib/util/ReflectUtils.java:88-95 | every primitive keyword is found in the table |
| JvmTypes.PrimitiveWithCode | src/main/java/net/lc4ever/framework/cglib/util/ReflectUtils.java:97-104 | each descriptor letter B C D F I J S Z belongs to exactly one primitive |
| JvmTypes.FieldDescriptorRoundTrip | src/main/java/net/lc4ever/framework/cglib/reflect/FastClass.java:220 | a field descriptor parses back to its type, leaving what follows untouched |
| JvmTypes.ParameterDescriptorsRoundTrip | src/main/java/net/lc4ever/framework/cglib/reflect/FastClass.java:219-222 | the concatenated parameter descriptors parse back to the parameter types up to ')' |
| JvmTypes.MethodDescriptorRoundTrip | src/main/java/net/lc4ever/framework/cglib/util/ReflectUtils.java:130-133 | a method descriptor parses back to its parameter and return types |
| JvmTypes.MethodDescriptorInjective | src/main/java/net/lc4ever/framework/cglib/util/ReflectUtils.java:476 | two method descriptors are equal iff parameter and return types are |
| JvmTypes.ParameterDescriptorsInjective | src/main/java/net/lc4ever/framework/cglib/reflect/FastClass.java:219-221 | two parameter descriptor strings are equal iff the type lists are |
| JvmTypes.ParameterDescriptorsAppend | src/main/java/net/lc4ever/framework/cglib/reflect/FastClass.java:219-221 | appending a parameter appends its field descriptor |
| JvmTypes.Replace | src/main/java/net/lc4ever/framework/cglib/reflect/FastClass.java:220 | String.replace(char, char) keeps the length and replaces exactly the occurrences of one character |
| JvmTypes.BinaryOfInternal | src/main/java/net/lc4ever/framework/cglib/reflect/FastClass.java:220 | turning '.' into '/' and back restores a binary name |
| JvmTypes.ArrayClassName | src/main/java/net/lc4ever/framework/cglib/util/ReflectUtils.java:279 | an array class's getName() is its field descriptor with '/' turned back into '.' |

## Left out

- Class generation is not part of this model: `FastClass.Generator`, `create`, the key cache, and the emitter that writes the index tables (FastClassEmitter.java is not part of this model). A dispatcher is built directly from its class and its two frozen tables.
- The IllegalArgumentException("Cannot find matching method/constructor") for an out-of-range index follows the generated code of cglib's emitter. That emitter is not part of this model.
- FastClasses.FastClass.GetIndex: among methods that differ only in return type, the generated table's choice is documented as arbitrary. The model picks the first in table order.
- `getMethod`/`getConstructor` of FastClass: they wrap JDK `Class.getMethod`/`getConstructor` results in FastMethod/FastConstructor objects, which are not part of this model.
- Invoke and NewInstanceAt describe the call they make (member, target, arguments). They do not run the member's body, so InvocationTargetException is not modelled.
- FastClasses.FastClass.HashCode takes the class's hash function as a parameter, because `Class.hashCode` is JVM identity hashing.
- ReflectUtils leaves out:
  - `defineClass`, `DEFINE_CLASS` and the static initialiser;
  - `getProtectionDomain`;
  - `newInstance`/`getConstructor` (setAccessible and reflective construction);
  - `getMethodInfo`/`getClassInfo`, which are anonymous wrappers;
  - `getExceptionTypes`.

  These are JVM class definition, security and reflection.
- `Class.forName` is a map from resolvable names to classes. Class initialisation and the loader's own search are not modelled.
- RuntimeClasses.DeclaredMethod: when several declared methods share a name and parameter types, the JDK prefers the most specific return type. The model takes the first declared match.
- `Introspector.getBeanInfo` is a parameter of the bean helpers: either the property array or the message of the IntrospectionException.
- ReflectUtils.GetPropertyMethods: `HashSet.toArray` order is not fixed by Java, and the model does not fix it either. Null accessors are skipped rather than added and then removed, which gives the same set.
- A `null` array passed to `getClasses`, `getPropertyMethods`, `findPackageProtected` or `findMethods` (a NullPointerException in Java) is not modelled. Only `getNames(null)` is, because the source handles it.
- Null elements are not modelled either, since sequences of classes, methods, property descriptors and names hold no null. In Java:
  - a null element throws NullPointerException in `classes` of `getNames` and `findPackageProtected`, in the `methods` array of `findMethods`, and in the `Class[]` of `getSignatureWithoutReturnType` and of FastClass's `getIndex`;
  - a null element of the property array of `getPropertyMethods` throws only when `read` or `write` is set, and is skipped otherwise;
  - a null element of `namesAndDescriptors` in `findMethods` throws nothing: string concatenation spells it "null" inside the lookup key.
- FastClasses.FastClass.GetJavaClass, GetName, ToString and HashCode return the wrapped class, its name, its string and its hash. They have no contract of their own, since it would repeat the body. EqualDispatchersAgree and EqualsAgreesWithHashCode state what the source promises about them.
- Class identity is structural equality of the `Class` value, and parameter types are matched by class name. The JDK's `getDeclaredMethod` and `getConstructor` compare `Class` objects by identity; the two agree within the one class loader this model assumes, not across loaders.
- JDK exception messages other than those the source writes itself are not modelled. StringIndexOutOfBounds carries only the index.
- Descriptor strings follow sections 4.3.2 and 4.3.3 of the Java Virtual Machine Specification, in place of ASM's `Type.getDescriptor`/`getMethodDescriptor`. The round-trip lemmas assume class names without ';' or '/'.
