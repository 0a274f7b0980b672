# Spring.Data mapping metadata, modelled in Dafny

This project models the mapping-metadata core of Spring.Data for .NET.
That core takes a .NET type and builds what a data store needs to map it:

- **Type information** resolves raw types through their generic arguments, arrays and type variables. It covers `TypeDiscoverer`, its parent-aware, parameterized, type-variable and generic-array subclasses, and `ClassTypeInformation` with its static cache.
- **Property paths** parse dotted or camel-case property expressions such as `userName` or `user.address_city`. They cover `PropertyPath` and `PropertyReferenceException`, and also `DefaultPersistentPropertyPath`, a path over persistent properties.
- **Persistent properties and entities** describe fields and their owning types. They cover `AbstractPersistentProperty`, `AnnotationBasedPersistentProperty`, `BasicPersistentEntity` and `SimpleTypeHolder`.
- **Constructor selection** picks the constructor an entity is built with. It covers `PreferredConstructorDiscoverer`, `PreferredConstructor` and `Parameter`.
- **The mapping context** is the registry of entities. It covers `AbstractMappingContext` and the `ReflectionUtils.DoWithFields` field walk it uses.
- **`Sort`** is the sort option of a query.

.NET reflection is replaced by a finite type universe (`Universe.Universe`). Each raw type carries:

- its name and kind;
- an array flag and element type;
- generic flags and generic arguments;
- its base type and interfaces;
- a table of instance fields;
- its public constructors.

Assignability between raw types is given by the universe, not computed. Attributes are boolean or optional-string flags on fields and constructors. The parameter-name discoverer is an optional name array on each constructor. Every exception the source throws becomes an error value of a `Result`:

- `TypeError`, for the type layer;
- `PathError`, for property paths;
- `MappingError`, for entities;
- `ContextError`, for the mapping context;
- `SortError`, for sorts.

Type information and properties never change after they are built, so they are datatypes. Objects whose fields the source updates in place are classes:

- the entity;
- the mapping context;
- the parameter, with its cached answer;
- the property-path enumerator;
- the heap of type-information objects with their field caches and the class cache (`TypeInstances.InfoHeap`).

Each loop in the source is a method proved equal to a specification function. The properties are stated about those functions.

Files:

- `universe.dfy`: the type universe.
- `wrappers.dfy`: `Option` and `Result`.
- `lists.dfy`: a list object with identity.
- `type_information.dfy`: type information as values.
- `type_instances.dfy`: the same as objects with caches.
- `property_path.dfy`: property paths and the reference exception.
- `persistent_property_path.dfy`: `DefaultPersistentPropertyPath`.
- `simple_type_holder.dfy`: `SimpleTypeHolder`.
- `persistent_property.dfy`: persistent properties.
- `persistent_entity.dfy`: parameters, constructor selection and entities.
- `reflection_utils.dfy`: the field walk.
- `mapping_context.dfy`: the mapping context.
- `sort.dfy`: `Sort`.

## Model

All source paths are under `src/Spring/Spring.Data/Data/`, written out in full below.

| member | source | states |
|---|---|---|
| TypeInformation.NewDiscoverer | src/Spring/Spring.Data/Data/Util/TypeDiscoverer.cs:56-60 | the raw type is kept; a null dictionary becomes empty, and then every type resolves to itself |
| TypeInformation.Lookup | src/Spring/Spring.Data/Data/Util/TypeDiscoverer.cs:106-114 | a binding is found exactly when some entry has the key, and the found value is bound to it |
| TypeInformation.TypeVariableDictionary | src/Spring/Spring.Data/Data/Util/ParentTypeAwareTypeInformation.cs:52-55 | without a parent, or for a non-parent-aware info, the info's own dictionary; with a parent, the parent's dictionary |
| TypeInformation.DictionaryOfChainRoot | src/Spring/Spring.Data/Data/Util/ParentTypeAwareTypeInformation.cs:52-55 | every info along a parent chain uses the dictionary of the chain's root |
| TypeInformation.IndexOf | src/Spring/Spring.Data/Data/Util/TypeVariableTypeInformation.cs:74-88 | -1 exactly when the variable is absent; otherwise its first position |
| TypeInformation.SearchIndex | src/Spring/Spring.Data/Data/Util/TypeVariableTypeInformation.cs:74-88 | the search loop returns `GetIndex`; a found index holds the variable among the resolved owning type's arguments |
| TypeInformation.CreateInfo | src/Spring/Spring.Data/Data/Util/TypeDiscoverer.cs:74-92 | the parent when the parent resolves to the requested type (ParentTypeAwareTypeInformation.cs:60-68); itself for its own raw type; otherwise an array, parameterized, type-variable or shared class info by the type's shape, with the parent and dictionary wired as the subclasses take them; an error only for another kind of type |
| TypeInformation.CreateInfoOrNull | src/Spring/Spring.Data/Data/Util/GenericArrayTypeInformation.cs:48-54 | a null element type dereferences null; otherwise the same info as `CreateInfo` |
| TypeInformation.CreateInfos | src/Spring/Spring.Data/Data/Util/ParameterizedTypeInformation.cs:77-90 | one info per type, in order and of equal length; it succeeds exactly when each `CreateInfo` does, and otherwise fails with the first failure |
| TypeInformation.CreateInfosFrom | src/Spring/Spring.Data/Data/Util/ParameterizedTypeInformation.cs:77-90 | from any position on: one info per remaining type in order; success exactly when each `CreateInfo` succeeds; a failure is the first failing `CreateInfo` |
| TypeInformation.CollectInfos | src/Spring/Spring.Data/Data/Util/TypeDiscoverer.cs:116-127 | the list-building loop equals `CreateInfos` |
| TypeInformation.TypeArguments | src/Spring/Spring.Data/Data/Util/TypeDiscoverer.cs:358-373 | none for a non-generic, non-parameterized type; otherwise one info per argument type in order, each the `CreateInfo` of that argument; it fails exactly when some `CreateInfo` does |
| TypeInformation.GetTypeArgument | src/Spring/Spring.Data/Data/Util/TypeDiscoverer.cs:381-388 | null for a non-generic type or a missing index; otherwise the `CreateInfo` of that argument |
| TypeInformation.CheckDictionary | src/Spring/Spring.Data/Data/Util/TypeDiscoverer.cs:208-226 | the base-chain loop equals `IsDictionary` |
| TypeInformation.GetDictionaryType | src/Spring/Spring.Data/Data/Util/TypeDiscoverer.cs:296-309 | any type it returns is named like a dictionary or is the `IDictionary<,>` interface |
| TypeInformation.FindDictionaryType | src/Spring/Spring.Data/Data/Util/TypeDiscoverer.cs:296-309 | the loop equals `GetDictionaryType` |
| TypeInformation.DictionaryChainHasDictionaryType | src/Spring/Spring.Data/Data/Util/TypeDiscoverer.cs:296-309 | a base chain that implements `IDictionary<,>` always yields a dictionary type |
| TypeInformation.DictionaryHasDictionaryType | src/Spring/Spring.Data/Data/Util/TypeDiscoverer.cs:208-245 | whenever `IsDictionary` holds, `GetDictionaryType` is not null, so `DictionaryValueType` never dereferences null there |
| TypeInformation.IsCollectionLike | src/Spring/Spring.Data/Data/Util/TypeDiscoverer.cs:247-263 | true for arrays and names containing "IEnumerable"; false for other non-generic types; a generic one is true exactly when it is not a dictionary and implements `IEnumerable<>` (the `List<T>` case) |
| TypeInformation.BaseComponentType | src/Spring/Spring.Data/Data/Util/TypeDiscoverer.cs:265-294 | by the source's order of cases: `string` has none; an array gives its element's info; a dictionary argument 0 of its dictionary type; a collection argument 0 of itself; a type implementing `IEnumerable<>` argument 0 of that interface; otherwise the first type argument, null when there is none |
| TypeInformation.ComponentType | src/Spring/Spring.Data/Data/Util/ParameterizedTypeInformation.cs:122-125 | an array info's component is its element's info (GenericArrayTypeInformation.cs:48-54); a parameterized info with arguments always has one, the info of argument 0, and one without arguments fails with an index error; plain, class and variable infos give the discoverer's `BaseComponentType` |
| TypeInformation.FirstDictionarySupertype | src/Spring/Spring.Data/Data/Util/ParameterizedTypeInformation.cs:46-75 | the first supertype that `IDictionary<,>` is assignable from, or none exactly when no supertype qualifies |
| TypeInformation.ScanSupertypes | src/Spring/Spring.Data/Data/Util/ParameterizedTypeInformation.cs:46-75 | the foreach loop equals `FirstDictionarySupertype` |
| TypeInformation.DictionaryValueType | src/Spring/Spring.Data/Data/Util/ParameterizedTypeInformation.cs:46-75 | the open `IDictionary<,>` gives the info of argument 1 and an index error without one; another parameterized info uses argument 1 of its first supertype that `IDictionary<,>` is assignable from, else the base version; non-parameterized infos use the base version |
| TypeInformation.BaseDictionaryValueType | src/Spring/Spring.Data/Data/Util/TypeDiscoverer.cs:228-245 | a dictionary gives argument 1 of its dictionary type; otherwise the second type argument, null when there are fewer than two |
| TypeInformation.ActualType | src/Spring/Spring.Data/Data/Util/TypeDiscoverer.cs:179-206 | by the source's order of cases: an array's element info; else a dictionary's value type; else a collection's component type; else the last type argument, or the info itself when there are no type arguments |
| TypeInformation.DictionaryActualTypeIsValue | src/Spring/Spring.Data/Data/Util/TypeDiscoverer.cs:179-206 | for a class info over a dictionary of `[K, V]`, the component type is the info of K and the actual type the info of V |
| TypeInformation.OpenDictionaryActualTypeIsValue | src/Spring/Spring.Data/Data/Util/ParameterizedTypeInformation.cs:46-75 | for the parameterized open `IDictionary<K, V>`, the component type is the info of K and the actual type the info of V |
| TypeInformation.ArrayActualTypeIsComponent | src/Spring/Spring.Data/Data/Util/TypeDiscoverer.cs:183-186 | an array info's actual type is its component type, and it is collection-like (TypeDiscoverer.cs:251-252) |
| TypeInformation.BaseInfoRepeatsCall | src/Spring/Spring.Data/Data/Util/TypeDiscoverer.cs:351-354 | when the base type's info does not resolve to the base type, it is the receiver itself, so the walk would repeat the same call |
| TypeInformation.GetSuperTypeInformation | src/Spring/Spring.Data/Data/Util/TypeDiscoverer.cs:332-355 | null when the super type is not assignable; the info itself when equal; a directly implemented interface at once; otherwise the base type's answer, null once the base is `object`, and a null dereference without a base; any info returned is for the requested super type |
| TypeInformation.EqualsReflexive | src/Spring/Spring.Data/Data/Util/TypeDiscoverer.cs:409-423 | every info equals itself, under every override |
| TypeInformation.DiscovererEqualsIff | src/Spring/Spring.Data/Data/Util/TypeDiscoverer.cs:409-423 | plain and class infos are equal iff their raw types and dictionaries are |
| TypeInformation.ParentNullSafety | src/Spring/Spring.Data/Data/Util/ParentTypeAwareTypeInformation.cs:82-96 | a parentless info never equals one with a parent, in either order |
| TypeInformation.ParameterizedHashCode | src/Spring/Spring.Data/Data/Util/ParameterizedTypeInformation.cs:149-154 | as written, with 32-bit wrap-around: the discoverer's `17 + hash(type) + hash(dictionary)` (TypeDiscoverer.cs:432-437), plus 31 times the parent's hash (ParentTypeAwareTypeInformation.cs:105-108), plus 31 times the type's hash; always a 32-bit value |
| TypeInformation.ThirtyOneCancels | src/Spring/Spring.Data/Data/Util/ParentTypeAwareTypeInformation.cs:105-108 | multiplying a hash by 31 loses nothing modulo 2^32: `31 * d` wraps to zero iff `d` does |
| TypeInformation.EqualParameterizedInfosHashApart | src/Spring/Spring.Data/Data/Util/ParameterizedTypeInformation.cs:127-154 | as written: two fully resolved parameterized infos of one type are `Equals`, and their hash codes agree iff their dictionary and parent contributions agree modulo 2^32; with dictionaries that hash alike, iff their parents' hashes agree modulo 2^32 |
| TypeInformation.ParameterizedHashCodeCorrected | src/Spring/Spring.Data/Data/Util/ParameterizedTypeInformation.cs:149-154 | corrected: a 32-bit hash built from the raw type alone |
| TypeInformation.EqualParameterizedInfosHashAlike | src/Spring/Spring.Data/Data/Util/ParameterizedTypeInformation.cs:127-154 | corrected: any info `Equals` to a parameterized info is parameterized, of the same raw type, and has the same corrected hash |
| TypeInformation.ParameterizedEquals | src/Spring/Spring.Data/Data/Util/ParameterizedTypeInformation.cs:127-147 | two fully resolved parameterized infos are equal iff their resolved types are; otherwise parents must agree on being null |
| TypeInformation.VariableEqualsComparesVariables | src/Spring/Spring.Data/Data/Util/TypeVariableTypeInformation.cs:90-98 | equal type-variable infos have the same variable and owning type, despite the self-comparison on line 97 |
| TypeInformation.VariableTypeIsVariable | src/Spring/Spring.Data/Data/Util/TypeVariableTypeInformation.cs:55-69 | a type variable's `Type` is the variable itself |
| TypeInformation.ArgumentInfosRankLower | src/Spring/Spring.Data/Data/Util/ParameterizedTypeInformation.cs:92-120 | the argument infos rank below the parameterized info, so the pairwise recursion terminates |
| TypeInformation.IsAssignableFrom | src/Spring/Spring.Data/Data/Util/ParameterizedTypeInformation.cs:92-120 | parameterized: true when equal, false when the raw types are not assignable, a null dereference when the super-type info is null; the base version (TypeDiscoverer.cs:375-379) holds iff the target's super-type info at this type equals this |
| TypeInformation.ParameterizedAssignability | src/Spring/Spring.Data/Data/Util/ParameterizedTypeInformation.cs:104-119 | for assignable raw types: argument lists of different lengths give false; otherwise true iff every argument pair is assignable |
| TypeInformation.AllAssignable | src/Spring/Spring.Data/Data/Util/ParameterizedTypeInformation.cs:110-119 | true exactly when every argument pair is assignable |
| TypeInformation.CheckArgumentsAssignable | src/Spring/Spring.Data/Data/Util/ParameterizedTypeInformation.cs:110-119 | the index loop equals `AllAssignable` |
| TypeInformation.CheckResolvedCompletely | src/Spring/Spring.Data/Data/Util/ParameterizedTypeInformation.cs:156-178 | the foreach loop equals `IsResolvedCompletely` |
| TypeInformation.ArgumentsResolvedIff | src/Spring/Spring.Data/Data/Util/ParameterizedTypeInformation.cs:156-178 | the nested-parameterized test never decides: every argument's info must be a class info |
| TypeInformation.ResolvedCompletelyIff | src/Spring/Spring.Data/Data/Util/ParameterizedTypeInformation.cs:156-178 | fully resolved iff there are arguments and every argument's info is a class info |
| TypeInformation.FindField | src/Spring/Spring.Data/Data/Util/TypeDiscoverer.cs:157-172 | a field declared on the type is found first; the walk stops with null at `object` and dereferences null past the root |
| TypeInformation.WalkFields | src/Spring/Spring.Data/Data/Util/TypeDiscoverer.cs:157-172 | the do-while loop equals `FindField` |
| TypeInformation.GetPropertyInformation | src/Spring/Spring.Data/Data/Util/TypeDiscoverer.cs:157-172 | the info of the field found on the base chain, made by `CreateInfo`; null when the walk reaches `object` without it; a failed walk or a failed `CreateInfo` is passed on |
| TypeInstances.AppendKeepsValid | src/Spring/Spring.Data/Data/Util/TypeDiscoverer.cs:56-60 | a new object with an empty field cache and a correct parent reference keeps the heap coherent |
| TypeInstances.CacheEntryKeepsValid | src/Spring/Spring.Data/Data/Util/TypeDiscoverer.cs:140-144 | caching what `GetPropertyInformation` computes, under a plain name, keeps the heap coherent |
| TypeInstances.InfoHeap.constructor | src/Spring/Spring.Data/Data/Util/ClassTypeInformation.cs:35-36 | an empty heap and an empty class cache |
| TypeInstances.InfoHeap.NewDiscoverer | src/Spring/Spring.Data/Data/Util/TypeDiscoverer.cs:56-60 | a fresh uncached object; the class cache is unchanged |
| TypeInstances.InfoHeap.From | src/Spring/Spring.Data/Data/Util/ClassTypeInformation.cs:64-79 | a cached type gives the cached object and changes nothing; otherwise a new class info with an empty dictionary is added to the cache; the cache only grows |
| TypeInstances.InfoHeap.CreateInfo | src/Spring/Spring.Data/Data/Util/TypeDiscoverer.cs:74-92 | the object's value is what `CreateInfo` computes; it is the parent object itself, `self`, or the shared cached class object in those cases (ParentTypeAwareTypeInformation.cs:60-68) |
| TypeInstances.InfoHeap.GetPropertyInformation | src/Spring/Spring.Data/Data/Util/TypeDiscoverer.cs:157-172 | agrees with the value-level `GetPropertyInformation` |
| TypeInstances.InfoHeap.CachedLookup | src/Spring/Spring.Data/Data/Util/TypeDiscoverer.cs:129-151 | with an empty cache the lookup is the value-level `GetProperty` |
| TypeInstances.InfoHeap.GetPlainProperty | src/Spring/Spring.Data/Data/Util/TypeDiscoverer.cs:133-146 | for a name without `.`: a cached name is answered from the cache; otherwise the value-level lookup is the answer, and a hit is cached while a miss leaves the cache as it was |
| TypeInstances.InfoHeap.GetProperty | src/Spring/Spring.Data/Data/Util/TypeDiscoverer.cs:129-151 | a plain hit is cached and a cached name is answered from the cache; misses are not cached; a dotted name with an uncached head gives null and changes nothing |
| TypeInstances.InfoHeap.FromReturnTypeOf | src/Spring/Spring.Data/Data/Util/ClassTypeInformation.cs:84-88 | the return type's info relative to a new, uncached class info for the declaring type |
| TypeInstances.FirstDot | src/Spring/Spring.Data/Data/Util/TypeDiscoverer.cs:131 | -1 exactly when there is no '.'; otherwise the first '.' |
| PropertyPaths.LowerSuffixStart | src/Spring/Spring.Data/Data/Mapping/PropertyPath.cs:412 | the start of the longest trailing run of lower-case letters |
| PropertyPaths.UpperRunStart | src/Spring/Spring.Data/Data/Mapping/PropertyPath.cs:412 | the start of the longest run of upper-case letters before it |
| PropertyPaths.UppersThenLowersFrom | src/Spring/Spring.Data/Data/Mapping/PropertyPath.cs:412 | upper-case letters, then lower-case letters to the end, match `\p{Lu}*\p{Ll}*` |
| PropertyPaths.LowerOnceLowerAfter | src/Spring/Spring.Data/Data/Mapping/PropertyPath.cs:412 | past the first non-upper character, such a match is lower case only |
| PropertyPaths.CamelSplitIndex | src/Spring/Spring.Data/Data/Mapping/PropertyPath.cs:412-415 | the index is where `\p{Lu}+\p{Ll}*$` matches, and no earlier position matches; -1 when none does |
| PropertyPaths.NoEarlierMatch | src/Spring/Spring.Data/Data/Mapping/PropertyPath.cs:412 | no match starts before the upper-case run or inside the trailing lower-case run |
| PropertyPaths.DelimiterEnd | src/Spring/Spring.Data/Data/Mapping/PropertyPath.cs:40 | from `i`, the end of the maximal run of `_`/`.`: everything before it is a delimiter, and it stops at the end or at a non-delimiter |
| PropertyPaths.TokenEnd | src/Spring/Spring.Data/Data/Mapping/PropertyPath.cs:40 | from `i`, the end of the maximal run of non-delimiters: nothing before it is a delimiter, and it stops at the end or at a delimiter |
| PropertyPaths.StripAppend | src/Spring/Spring.Data/Data/Mapping/PropertyPath.cs:40 | removing delimiters distributes over concatenation |
| PropertyPaths.StripDelimiters | src/Spring/Spring.Data/Data/Mapping/PropertyPath.cs:40 | a string of delimiters strips to nothing |
| PropertyPaths.MatchesAreTokens | src/Spring/Spring.Data/Data/Mapping/PropertyPath.cs:40 | from a delimiter or the end on, each splitter match is non-empty and ends in a non-delimiter |
| PropertyPaths.MatchesKeepTokens | src/Spring/Spring.Data/Data/Mapping/PropertyPath.cs:40 | from a delimiter or the end on, the matches joined keep every non-delimiter of the rest of the text, in order |
| PropertyPaths.StripSplit | src/Spring/Spring.Data/Data/Mapping/PropertyPath.cs:40 | dropping a leading delimiter and cutting the rest anywhere keeps the non-delimiters, in order |
| PropertyPaths.SplitterKeepsTokens | src/Spring/Spring.Data/Data/Mapping/PropertyPath.cs:317-323 | splitting `"_" + source` loses no letter and yields no empty part |
| PropertyPaths.SplitterOfPlainToken | src/Spring/Spring.Data/Data/Mapping/PropertyPath.cs:317-323 | a source without delimiters is one part |
| PropertyPaths.NewReferenceException | src/Spring/Spring.Data/Data/Mapping/PropertyReferenceException.cs:77-85 | succeeds iff the name has text and the type is present; the accessors (lines 130-144, 167-170) return the arguments |
| PropertyPaths.Message | src/Spring/Spring.Data/Data/Mapping/PropertyReferenceException.cs:153-162 | "No property ", the name, " found for type " and the type name, each at its place (line 36); the given message or the base message when there is no name and type |
| PropertyPaths.ContainsInfix | src/Spring/Spring.Data/Data/Mapping/PropertyReferenceException.cs:153-162 | anything written around a string contains it |
| PropertyPaths.MessageNamesProperty | src/Spring/Spring.Data/Data/Mapping/PropertyReferenceException.cs:153-162 | the message mentions "property <name>" |
| PropertyPaths.NewPropertyPath | src/Spring/Spring.Data/Data/Mapping/PropertyPath.cs:65-83 | name without text or missing type: argument error; no such property: the reference exception for (name, type, base); otherwise one segment whose collection flag and type come from the property's info and its actual type |
| PropertyPaths.Names | src/Spring/Spring.Data/Data/Mapping/PropertyPath.cs:102-105 | the first name is this segment |
| PropertyPaths.Create | src/Spring/Spring.Data/Data/Mapping/PropertyPath.cs:385-425 | a result spells `source + addTail` when the tail is empty or has text, and its first segment is a property of the given type, which owns it |
| PropertyPaths.CreatePrefersWholeSource | src/Spring/Spring.Data/Data/Mapping/PropertyPath.cs:391-424 | the whole source is tried first: a whole-source path is the result when there is no tail; a failure other than an unresolvable property is rethrown, and so is any failure without a split point |
| PropertyPaths.TailFailureNamesHead | src/Spring/Spring.Data/Data/Mapping/PropertyPath.cs:396-407 | once the head resolves, an unresolvable tail is reported for the tail itself with the head as base, without trying shorter heads |
| PropertyPaths.Link | src/Spring/Spring.Data/Data/Mapping/PropertyPath.cs:350-356 | linking keeps the first segment's name and owning type |
| PropertyPaths.RelinkSnoc | src/Spring/Spring.Data/Data/Mapping/PropertyPath.cs:350-356 | re-linking one more head is linking it onto the rest |
| PropertyPaths.From | src/Spring/Spring.Data/Data/Mapping/PropertyPath.cs:315-343 | the parts loop equals `Parsed` |
| PropertyPaths.ParsedPlainToken | src/Spring/Spring.Data/Data/Mapping/PropertyPath.cs:315-343 | a source without delimiters is resolved by `Create` alone |
| PropertyPaths.ParsedDelimitersOnly | src/Spring/Spring.Data/Data/Mapping/PropertyPath.cs:315-343 | a source of delimiters only gives null |
| PropertyPaths.ParsedRoundTrip | src/Spring/Spring.Data/Data/Mapping/PropertyPath.cs:315-343 | a parsed path whose names hold no delimiter parses back from its dot path to itself (PropertyPath.cs:163-174) |
| PropertyPaths.ParsedDotPath | src/Spring/Spring.Data/Data/Mapping/PropertyPath.cs:315-356 | the dot path of a resolvable path without delimiters in its names parses to that path |
| PropertyPaths.ParsedResolvable | src/Spring/Spring.Data/Data/Mapping/PropertyPath.cs:315-356 | a parsed path is owned by the given type and each segment resolves, from its owning type, to itself, with the next segment owned by its type |
| PropertyPaths.CreateResolvable | src/Spring/Spring.Data/Data/Mapping/PropertyPath.cs:385-425 | a path `Create` builds is resolvable segment by segment |
| PropertyPaths.LinkResolvable | src/Spring/Spring.Data/Data/Mapping/PropertyPath.cs:350-356 | linking parts onto a resolvable path keeps it resolvable |
| PropertyPaths.LinkRebuilds | src/Spring/Spring.Data/Data/Mapping/PropertyPath.cs:350-356 | linking the later names of a resolvable path onto its first segment rebuilds the path |
| PropertyPaths.MatchesOfJoined | src/Spring/Spring.Data/Data/Mapping/PropertyPath.cs:40 | after a delimiter, the splitter gives back the delimiter-free names that the rest of the text joins with single delimiters |
| PropertyPaths.JoinDotsJoinedAt | src/Spring/Spring.Data/Data/Mapping/PropertyPath.cs:163-174 | names joined with '.' lie in the text one after another, separated by single delimiters |
| PropertyPaths.JoinedBounds | src/Spring/Spring.Data/Data/Mapping/PropertyPath.cs:40 | at a delimiter followed by a delimiter-free name, the delimiter run is that one character and the token ends where the name does |
| PropertyPaths.MatchesOneToken | src/Spring/Spring.Data/Data/Mapping/PropertyPath.cs:40 | such a delimiter and token give one match, the token, followed by the matches from its end |
| PropertyPaths.NamesArePlainTexts | src/Spring/Spring.Data/Data/Mapping/PropertyPath.cs:65-83 | the names of a resolvable path without delimiters in its names are non-empty and delimiter-free |
| PropertyPaths.Append | src/Spring/Spring.Data/Data/Mapping/PropertyPath.cs:350-356 | appending a path at the leaf concatenates the names |
| PropertyPaths.Leaf | src/Spring/Spring.Data/Data/Mapping/PropertyPath.cs:113-126 | the last segment, which has no next |
| PropertyPaths.ConcatAppend | src/Spring/Spring.Data/Data/Mapping/PropertyPath.cs:163-174 | concatenation of names distributes |
| PropertyPaths.LinkAtLeafStep | src/Spring/Spring.Data/Data/Mapping/PropertyPath.cs:350-356 | one step of the corrected linking, unfolded |
| PropertyPaths.ConcatSpell | src/Spring/Spring.Data/Data/Mapping/PropertyPath.cs:163-174 | the spelling of a path followed by a part's path |
| PropertyPaths.LinkAtLeafSpellsParts | src/Spring/Spring.Data/Data/Mapping/PropertyPath.cs:315-356 | with the corrected linking, the names spell the previous path followed by all parts |
| PropertyPaths.ParsedAtLeafStep | src/Spring/Spring.Data/Data/Mapping/PropertyPath.cs:315-343 | the corrected `From` on a source with parts, unfolded |
| PropertyPaths.ParsedAtLeafKeepsTokens | src/Spring/Spring.Data/Data/Mapping/PropertyPath.cs:315-356 | with the corrected linking, every letter of the source ends up in a segment, in order |
| PropertyPaths.LinkDropsCamelTail | src/Spring/Spring.Data/Data/Mapping/PropertyPath.cs:350-356 | as written, a first part with several segments loses all but its first once a second part follows |
| PropertyPaths.Segments | src/Spring/Spring.Data/Data/Mapping/PropertyPath.cs:145-158 | the segments along `Next`, one per name |
| PropertyPaths.DotPathJoinsNames | src/Spring/Spring.Data/Data/Mapping/PropertyPath.cs:163-174 | `DotPath` joins the segment names with '.' |
| PropertyPaths.LeafProperty | src/Spring/Spring.Data/Data/Mapping/PropertyPath.cs:113-126 | the while loop reaches the last segment |
| PropertyPaths.PathEquals | src/Spring/Spring.Data/Data/Mapping/PropertyPath.cs:204-215 | equal paths spell the same dot path; differing names are unequal |
| PropertyPaths.PathEqualsIgnoresOwningType | src/Spring/Spring.Data/Data/Mapping/PropertyPath.cs:204-215 | paths with the same names and resolved types are equal whatever their owning types |
| PropertyPaths.PropertyPathEnumerator.constructor | src/Spring/Spring.Data/Data/Mapping/PropertyPath.cs:252-257 | no current segment, first flag set |
| PropertyPaths.PropertyPathEnumerator.MoveNext | src/Spring/Spring.Data/Data/Mapping/PropertyPath.cs:275-286 | yields the start segment, then each `Next`, then false with a null current; one more call dereferences null |
| PropertyPaths.PropertyPathEnumerator.Reset | src/Spring/Spring.Data/Data/Mapping/PropertyPath.cs:288-292 | the start segment is current again |
| PropertyPaths.PropertyPathEnumerator.Dispose | src/Spring/Spring.Data/Data/Mapping/PropertyPath.cs:264-268 | no current segment; the next move starts over |
| PropertyPaths.SegmentsFollowNext | src/Spring/Spring.Data/Data/Mapping/PropertyPath.cs:145-158 | the segment after the k-th is its `Next` |
| PersistentPropertyPaths.Split | src/Spring/Spring.Data/Data/Mapping/Context/DefaultPersistentPropertyPath.cs:68-81 | cutting at a character gives at least one piece |
| PersistentPropertyPaths.SplitAfterPiece | src/Spring/Spring.Data/Data/Mapping/Context/DefaultPersistentPropertyPath.cs:68-81 | a delimiter-free piece before the delimiter splits off as itself |
| PersistentPropertyPaths.SplitJoin | src/Spring/Spring.Data/Data/Mapping/Context/DefaultPersistentPropertyPath.cs:68-81 | splitting a join of delimiter-free pieces gives them back |
| PersistentPropertyPaths.PropertyNames | src/Spring/Spring.Data/Data/Mapping/Context/DefaultPersistentPropertyPath.cs:83-86 | the names, in order |
| PersistentPropertyPaths.Converted | src/Spring/Spring.Data/Data/Mapping/Context/DefaultPersistentPropertyPath.cs:68-86 | one string per property; no converter means the names |
| PersistentPropertyPaths.IsBasePreorder | src/Spring/Spring.Data/Data/Mapping/Context/DefaultPersistentPropertyPath.cs:104-122 | being a base path is reflexive and transitive |
| PersistentPropertyPaths.PersistentPropertyPath.constructor | src/Spring/Spring.Data/Data/Mapping/Context/DefaultPersistentPropertyPath.cs:45-51 | keeps the non-empty list |
| PersistentPropertyPaths.PersistentPropertyPath.New | src/Spring/Spring.Data/Data/Mapping/Context/DefaultPersistentPropertyPath.cs:45-51 | an empty list is refused with an argument error |
| PersistentPropertyPaths.PersistentPropertyPath.ToPath | src/Spring/Spring.Data/Data/Mapping/Context/DefaultPersistentPropertyPath.cs:63-81 | the converted properties joined with the delimiter, "." by default |
| PersistentPropertyPaths.PersistentPropertyPath.ToDotPath | src/Spring/Spring.Data/Data/Mapping/Context/DefaultPersistentPropertyPath.cs:53-56 | the names joined with dots; when no name holds a dot, splitting gives them back |
| PersistentPropertyPaths.PersistentPropertyPath.LeafProperty | src/Spring/Spring.Data/Data/Mapping/Context/DefaultPersistentPropertyPath.cs:88-97 | the last property |
| PersistentPropertyPaths.PersistentPropertyPath.BaseProperty | src/Spring/Spring.Data/Data/Mapping/Context/DefaultPersistentPropertyPath.cs:99-102 | the first property |
| PersistentPropertyPaths.PersistentPropertyPath.IsBasePathOf | src/Spring/Spring.Data/Data/Mapping/Context/DefaultPersistentPropertyPath.cs:104-122 | false for null; otherwise true iff this path is an element-wise prefix |
| PersistentPropertyPaths.PersistentPropertyPath.GetExtensionForBaseOf | src/Spring/Spring.Data/Data/Mapping/Context/DefaultPersistentPropertyPath.cs:124-142 | this path when not a base; otherwise the suffix after the base, and an argument error for an equal-length base |
| PersistentPropertyPaths.PersistentPropertyPath.ParentPath | src/Spring/Spring.Data/Data/Mapping/Context/DefaultPersistentPropertyPath.cs:144-155 | this path for length 1; otherwise all but the leaf |
| PersistentPropertyPaths.ParentIsBase | src/Spring/Spring.Data/Data/Mapping/Context/DefaultPersistentPropertyPath.cs:124-155 | the parent is a base of the path and extends to the leaf alone |
| SimpleTypes.SimpleTypeHolder.constructor | src/Spring/Spring.Data/Data/Mapping/Model/SimpleTypeHolder.cs:74-76 | exactly the defaults |
| SimpleTypes.SimpleTypeHolder.WithCustom | src/Spring/Spring.Data/Data/Mapping/Model/SimpleTypeHolder.cs:84-94 | the custom types, plus the defaults iff asked |
| SimpleTypes.SimpleTypeHolder.Extending | src/Spring/Spring.Data/Data/Mapping/Model/SimpleTypeHolder.cs:101-108 | the custom types and the source's types |
| SimpleTypes.SimpleTypeHolder.IsSimpleType | src/Spring/Spring.Data/Data/Mapping/Model/SimpleTypeHolder.cs:115-130 | the search equals `IsSimple`: `object`, or some held type equal to or assignable from the type |
| SimpleTypes.EnumsAreSimple | src/Spring/Spring.Data/Data/Mapping/Model/SimpleTypeHolder.cs:65 | every enum type and every default is simple under the defaults |
| SimpleTypes.SimpleIsMonotone | src/Spring/Spring.Data/Data/Mapping/Model/SimpleTypeHolder.cs:101-130 | holding more types never makes a simple type complex |
| PersistentProperties.NewProperty | src/Spring/Spring.Data/Data/Mapping/Model/AbstractPersistentProperty.cs:47-60 | name, raw type and owner from the arguments, info from the owner's `GetProperty`; an association iff `[Reference]` without `[Transient]` at construction |
| PersistentProperties.AssociationSeesOnlyTransientFlag | src/Spring/Spring.Data/Data/Mapping/Model/AnnotationBasedPersistentProperty.cs:42-48 | a `[Reference]` field with `[Value]` or `[Autowired]` gets an association although it reports none |
| PersistentProperties.AssociationIsPersisted | src/Spring/Spring.Data/Data/Mapping/Model/AnnotationBasedPersistentProperty.cs:63-103 | an association is persisted; persisted iff none of `[Transient]`, `[Value]`, `[Autowired]` (AbstractPersistentProperty.cs:135-138) |
| PersistentProperties.IsCollectionLikeProperty | src/Spring/Spring.Data/Data/Mapping/Model/AbstractPersistentProperty.cs:153-156 | the info's `IsCollectionLike`; a null info dereferences null |
| PersistentProperties.IsDictionaryProperty | src/Spring/Spring.Data/Data/Mapping/Model/AbstractPersistentProperty.cs:158-161 | the info's `IsDictionary`; a null info dereferences null |
| PersistentProperties.IsEntity | src/Spring/Spring.Data/Data/Mapping/Model/AbstractPersistentProperty.cs:168-176 | true iff the actual type is present and not simple, and the property is neither transient, collection-like nor a dictionary |
| PersistentProperties.PersistentEntityTypes | src/Spring/Spring.Data/Data/Mapping/Model/AbstractPersistentProperty.cs:91-118 | an entity contributes its own info; a non-entity contributes the actual type of a collection or dictionary exactly when that type is complex, and nothing else; an `IsEntity` failure fails |
| PersistentProperties.PropertyComponentType | src/Spring/Spring.Data/Data/Mapping/Model/AbstractPersistentProperty.cs:178-190 | null unless a dictionary or collection-like; otherwise the component info's type, null with no component, and the component's failure |
| PersistentProperties.PropertyDictionaryValueType | src/Spring/Spring.Data/Data/Mapping/Model/AbstractPersistentProperty.cs:192-195 | null unless a dictionary; otherwise the value info's type, a null dereference when the value type is missing, and the value type's failure |
| PersistentProperties.PropertyEqualsIsFieldEquality | src/Spring/Spring.Data/Data/Mapping/Model/AbstractPersistentProperty.cs:197-210 | equal iff same field; an equivalence |
| PersistentEntities.Parameter.constructor | src/Spring/Spring.Data/Data/Mapping/Parameter.cs:32-40 | keeps name, type and entity; the key is the `[Value]` expression or "" (lines 42-46) |
| PersistentEntities.Parameter.IsEnclosingClassParameter | src/Spring/Spring.Data/Data/Mapping/Parameter.cs:104-115 | computed once and then read from the cache: the owning type is nested and is the parameter type |
| PersistentEntities.EqualParametersMapAlike | src/Spring/Spring.Data/Data/Mapping/Parameter.cs:98-133 | equal parameters map the same properties |
| PersistentEntities.PreferredConstructor.IsEnclosingClassParameter | src/Spring/Spring.Data/Data/Mapping/PreferredConstructor.cs:129-137 | false without parameters or when not the first parameter; otherwise the parameter's own answer |
| PersistentEntities.ParametersOrNoArg | src/Spring/Spring.Data/Data/Mapping/PreferredConstructor.cs:77-92 | exactly one of `HasParameters` and `IsNoArgConstructor` |
| PersistentEntities.MakeParameters | src/Spring/Spring.Data/Data/Mapping/Model/PreferredConstructorDiscoverer.cs:112-122 | one parameter per type, in order, with its name (null without names) and the entity |
| PersistentEntities.BuildPreferredConstructor | src/Spring/Spring.Data/Data/Mapping/Model/PreferredConstructorDiscoverer.cs:100-123 | fails exactly on a type without info or a too-short name array; otherwise the built constructor |
| PersistentEntities.BuiltNoArg | src/Spring/Spring.Data/Data/Mapping/Model/PreferredConstructorDiscoverer.cs:100-123 | no parameters iff no parameter types; annotated iff `[PersistenceConstructor]` (PreferredConstructor.cs:98-107) |
| PersistentEntities.DiscoverPreferredConstructor | src/Spring/Spring.Data/Data/Mapping/Model/PreferredConstructorDiscoverer.cs:61-98 | the loop builds the constructor `Preferred` selects, or none, and fails with the first build error |
| PersistentEntities.ScanConstructors | src/Spring/Spring.Data/Data/Mapping/Model/PreferredConstructorDiscoverer.cs:67-97 | over the declared constructors: fails exactly with the first build error, and otherwise yields the constructor `Preferred` selects, built from it, or none |
| PersistentEntities.Tally | src/Spring/Spring.Data/Data/Mapping/Model/PreferredConstructorDiscoverer.cs:79-91 | an unannotated constructor is chosen when none is yet or it has no arguments, and is counted as no-arg or not; the loop's selection state advances accordingly |
| PersistentEntities.AnnotatedFromHere | src/Spring/Spring.Data/Data/Mapping/Model/PreferredConstructorDiscoverer.cs:71-76 | from any earlier point, the first annotated constructor is chosen |
| PersistentEntities.AnnotatedConstructorWins | src/Spring/Spring.Data/Data/Mapping/Model/PreferredConstructorDiscoverer.cs:71-76 | the first annotated constructor wins |
| PersistentEntities.NoArgKept | src/Spring/Spring.Data/Data/Mapping/Model/PreferredConstructorDiscoverer.cs:78-82 | argument constructors never replace a no-arg choice |
| PersistentEntities.NoArgReached | src/Spring/Spring.Data/Data/Mapping/Model/PreferredConstructorDiscoverer.cs:78-82 | the last no-arg constructor replaces any earlier choice |
| PersistentEntities.LastNoArgConstructorWins | src/Spring/Spring.Data/Data/Mapping/Model/PreferredConstructorDiscoverer.cs:78-97 | without annotations, the last no-arg constructor is chosen |
| PersistentEntities.ArgumentsOnlyFromHere | src/Spring/Spring.Data/Data/Mapping/Model/PreferredConstructorDiscoverer.cs:78-97 | over argument constructors, the count grows and the first is kept |
| PersistentEntities.ArgumentConstructorsOnly | src/Spring/Spring.Data/Data/Mapping/Model/PreferredConstructorDiscoverer.cs:63-97 | with argument constructors only, a single one is chosen; zero or several give null |
| PersistentEntities.HasFieldAppend | src/Spring/Spring.Data/Data/Mapping/Model/BasicPersistentEntity.cs:126-130 | adding keeps every field present and adds the new one |
| PersistentEntities.FirstWithName | src/Spring/Spring.Data/Data/Mapping/Model/BasicPersistentEntity.cs:161-164 | the first property with the name, or null exactly when none has it |
| PersistentEntities.PersistableFilters | src/Spring/Spring.Data/Data/Mapping/Model/BasicPersistentEntity.cs:185-195 | keeps exactly the non-transient, non-association properties |
| PersistentEntities.BasicPersistentEntity.constructor | src/Spring/Spring.Data/Data/Mapping/Model/BasicPersistentEntity.cs:63-79 | an empty entity for the information |
| PersistentEntities.BasicPersistentEntity.New | src/Spring/Spring.Data/Data/Mapping/Model/BasicPersistentEntity.cs:63-79 | an empty entity whose preferred constructor is the one the discoverer selects, built with this entity |
| PersistentEntities.BasicPersistentEntity.AddPersistentProperty | src/Spring/Spring.Data/Data/Mapping/Model/BasicPersistentEntity.cs:126-154 | the property joins the set first; a second id or version property is refused with the slot unchanged |
| PersistentEntities.BasicPersistentEntity.AddAssociation | src/Spring/Spring.Data/Data/Mapping/Model/BasicPersistentEntity.cs:156-159 | adds to the association set; nothing else changes |
| PersistentEntities.BasicPersistentEntity.GetPersistentProperty | src/Spring/Spring.Data/Data/Mapping/Model/BasicPersistentEntity.cs:161-164 | a registered property with that name, or null exactly when none has it |
| PersistentEntities.BasicPersistentEntity.DoWithProperties | src/Spring/Spring.Data/Data/Mapping/Model/BasicPersistentEntity.cs:185-195 | hands over the persistable properties, in order |
| PersistentEntities.BasicPersistentEntity.DoWithAssociations | src/Spring/Spring.Data/Data/Mapping/Model/BasicPersistentEntity.cs:197-204 | hands over every association, in order |
| PersistentEntities.BasicPersistentEntity.Verify | src/Spring/Spring.Data/Data/Mapping/Model/BasicPersistentEntity.cs:206-208 | always succeeds and changes nothing |
| ReflectionUtils.Filtered | src/Spring/Spring.Data/Data/Util/ReflectionUtils.cs:62-72 | exactly the fields that pass the filter |
| ReflectionUtils.HierarchyStep | src/Spring/Spring.Data/Data/Util/ReflectionUtils.cs:59-76 | one step of the walk: this type's fields, then the base type's if the walk goes on |
| ReflectionUtils.FilterFields | src/Spring/Spring.Data/Data/Util/ReflectionUtils.cs:64-72 | the inner loop equals `Filtered`; a null filter passes everything (line 67) |
| ReflectionUtils.Walk | src/Spring/Spring.Data/Data/Util/ReflectionUtils.cs:59-76 | the do-while equals `HierarchyFields` |
| ReflectionUtils.WalkStep | src/Spring/Spring.Data/Data/Util/ReflectionUtils.cs:62-75 | one pass hands over this type's filtered fields, then the walk goes on from the base type only if the continuation rule allows, and gets closer to the end |
| ReflectionUtils.DoWithFields | src/Spring/Spring.Data/Data/Util/ReflectionUtils.cs:59-76 | as written: every field of the type's `GetFields(Instance \| NonPublic)` table, inherited non-private ones included, then the base type's only while the base is `object` |
| ReflectionUtils.DoWithAllFields | src/Spring/Spring.Data/Data/Util/ReflectionUtils.cs:59-76 | as documented: the fields each type declares, for every type below `object` |
| ReflectionUtils.TypeFields | src/Spring/Spring.Data/Data/Util/ReflectionUtils.cs:62-64 | the fields listed for one type: its whole table as written, or only those it declares |
| ReflectionUtils.ReachedRanksLower | src/Spring/Spring.Data/Data/Util/ReflectionUtils.cs:59-76 | a type the walk reaches is never higher in the hierarchy than its start |
| ReflectionUtils.AllFieldsCoverHierarchy | src/Spring/Spring.Data/Data/Util/ReflectionUtils.cs:59-76 | the documented walk hands over exactly the passing fields declared by the type and its ancestors below `object` |
| ReflectionUtils.FilteredDistinct | src/Spring/Spring.Data/Data/Util/ReflectionUtils.cs:64-72 | filtering a list without repeats gives a list without repeats |
| ReflectionUtils.AllFieldsHandedOnce | src/Spring/Spring.Data/Data/Util/ReflectionUtils.cs:59-76 | the documented walk hands each field over once when no type lists a field twice |
| ReflectionUtils.AsWrittenMissesBaseFields | src/Spring/Spring.Data/Data/Util/ReflectionUtils.cs:75 | as written, a passing field of a base class below `object` that is not in the type's own table (a private base field) is never handed over, while the documented walk hands it over |
| MappingContexts.OccursIsSubstring | src/Spring/Spring.Data/Data/Mapping/Context/AbstractMappingContext.cs:405 | an unanchored match means the pattern occurs somewhere in the name |
| MappingContexts.NewFieldMatch | src/Spring/Spring.Data/Data/Mapping/Context/AbstractMappingContext.cs:376-383 | a pattern or a type name is required; an empty pattern counts as none |
| MappingContexts.FilterMatches | src/Spring/Spring.Data/Data/Mapping/Context/AbstractMappingContext.cs:334-346 | the loop over the matches equals `Accepts` |
| MappingContexts.AnchoredFilterRejects | src/Spring/Spring.Data/Data/Mapping/Context/AbstractMappingContext.cs:322-346 | the corrected filter accepts exactly the non-static fields not named `class`, `this$…` or a Groovy `metaClass` |
| MappingContexts.UnanchoredRejectsClassification | src/Spring/Spring.Data/Data/Mapping/Context/AbstractMappingContext.cs:403-416 | as written, a field named `classification` is rejected; the anchored filter accepts it |
| MappingContexts.MetaClassRuleNeverFires | src/Spring/Spring.Data/Data/Mapping/Context/AbstractMappingContext.cs:409-413 | the `metaClass` rule compares a type name to a dotted name, so it cannot match a type name without '.' |
| MappingContexts.CreateProperty | src/Spring/Spring.Data/Data/Mapping/Context/AbstractMappingContext.cs:289 | a property for the field and owner, with an association iff `[Reference]` without `[Transient]` |
| MappingContexts.CreatedAreMapped | src/Spring/Spring.Data/Data/Mapping/Context/AbstractMappingContext.cs:287-297 | every property kept is non-transient, owned by the entity and made from a walked field |
| MappingContexts.CollectedIsFieldSet | src/Spring/Spring.Data/Data/Mapping/Model/BasicPersistentEntity.cs:126-130 | the property set holds each field once, keeps only given properties, and has every given field |
| MappingContexts.AssociationsOfAssociationProperties | src/Spring/Spring.Data/Data/Mapping/Context/AbstractMappingContext.cs:294-297 | the associations are exactly those of association properties |
| MappingContexts.CollectedStep | src/Spring/Spring.Data/Data/Mapping/Context/AbstractMappingContext.cs:294-297 | one more property updates the property and association sets as the entity's add methods do |
| MappingContexts.LookupMisses | src/Spring/Spring.Data/Data/Mapping/Context/AbstractMappingContext.cs:181-186 | from any position on, no entity is found iff no key from there on equals the info |
| MappingContexts.LookupKeepsPrefix | src/Spring/Spring.Data/Data/Mapping/Context/AbstractMappingContext.cs:189-194 | later registrations do not change a lookup that already finds an entity |
| MappingContexts.LookupFindsAppended | src/Spring/Spring.Data/Data/Mapping/Context/AbstractMappingContext.cs:189-194 | a newly added key is found |
| MappingContexts.LookupFound | src/Spring/Spring.Data/Data/Mapping/Context/AbstractMappingContext.cs:121-135 | a found entity is stored, at or after the starting position, under an equal key |
| MappingContexts.LookupFirst | src/Spring/Spring.Data/Data/Mapping/Context/AbstractMappingContext.cs:121-135 | the first equal key at or after the starting position decides |
| MappingContexts.KeysDistinctSnoc | src/Spring/Spring.Data/Data/Mapping/Context/AbstractMappingContext.cs:181-190 | adding an entry under a key not yet found keeps every key registered once |
| MappingContexts.OneEntryPerKey | src/Spring/Spring.Data/Data/Mapping/Context/AbstractMappingContext.cs:181-190 | with distinct keys, no key holds two entries |
| MappingContexts.NeededStaysRegistered | src/Spring/Spring.Data/Data/Mapping/Context/AbstractMappingContext.cs:299-308 | later registrations keep the nested entity types of earlier properties registered |
| MappingContexts.NeededSnoc | src/Spring/Spring.Data/Data/Mapping/Context/AbstractMappingContext.cs:299-308 | a property whose entity type is registered, if it needs one, extends the set of properties whose entity types are registered |
| MappingContexts.AllRegisteredSnoc | src/Spring/Spring.Data/Data/Mapping/Context/AbstractMappingContext.cs:304-307 | one more registered type extends the set of registered candidates |
| MappingContexts.Snoc | src/Spring/Spring.Data/Data/Mapping/Model/BasicPersistentEntity.cs:126-154 | one more property: it holds an id or version iff the earlier ones did or it is one, and the sequence is quiet iff the earlier ones are, it adds no entity, and it repeats no id or version |
| MappingContexts.CreatedPrefix | src/Spring/Spring.Data/Data/Mapping/Context/AbstractMappingContext.cs:287-297 | properties made from a prefix of the fields are a prefix of those made from more |
| MappingContexts.QuietPrefix | src/Spring/Spring.Data/Data/Mapping/Context/AbstractMappingContext.cs:287-309 | a prefix of a quiet property sequence is quiet |
| MappingContexts.QuietUpTo | src/Spring/Spring.Data/Data/Mapping/Context/AbstractMappingContext.cs:287-309 | for quiet fields, the properties made from any prefix are made without failure and are quiet |
| MappingContexts.QuietStep | src/Spring/Spring.Data/Data/Mapping/Context/AbstractMappingContext.cs:287-309 | when the fields up to the next one are quiet, its property is made, and unless transient it adds no entity and repeats no id or version the entity holds |
| MappingContexts.ReachedSnoc | src/Spring/Spring.Data/Data/Mapping/Context/AbstractMappingContext.cs:155-158 | the entity registered for the next step's key extends the reached entities |
| MappingContexts.ReachedKeepsPrefix | src/Spring/Spring.Data/Data/Mapping/Context/AbstractMappingContext.cs:155-158 | later registrations keep reached entities reached |
| MappingContexts.MappingContext.constructor | src/Spring/Spring.Data/Data/Mapping/Context/AbstractMappingContext.cs:38-46 | an empty, non-strict registry with the default simple types |
| MappingContexts.MappingContext.SetStrict | src/Spring/Spring.Data/Data/Mapping/Context/AbstractMappingContext.cs:78-81 | sets the flag only |
| MappingContexts.MappingContext.SetInitialEntitySet | src/Spring/Spring.Data/Data/Mapping/Context/AbstractMappingContext.cs:66-69 | sets the initial set only |
| MappingContexts.MappingContext.SetSimpleTypeHolder | src/Spring/Spring.Data/Data/Mapping/Context/AbstractMappingContext.cs:89-92 | the holder, or the defaults for null |
| MappingContexts.MappingContext.PersistentEntities | src/Spring/Spring.Data/Data/Mapping/Context/AbstractMappingContext.cs:98-101 | every registered entity, in order |
| MappingContexts.MappingContext.AddPersistentEntity | src/Spring/Spring.Data/Data/Mapping/Context/AbstractMappingContext.cs:178-213 | a registered type gives the existing entity and changes nothing; otherwise the new entity is registered before its fields are walked with `DoWithFields` and the unanchored filter, and ends populated from them; when its constructors build and its fields add no other entity and repeat no id or version, it succeeds and registers exactly that entity; every key stays registered once |
| MappingContexts.MappingContext.PopulateEntity | src/Spring/Spring.Data/Data/Mapping/Context/AbstractMappingContext.cs:194 | after the walk, the properties and associations are those of the non-transient fields, and every nested entity type is registered; quiet fields succeed without registering anything |
| MappingContexts.MappingContext.PopulateStep | src/Spring/Spring.Data/Data/Mapping/Context/AbstractMappingContext.cs:287-309 | one field of the walk advances the population state by the property it makes; a field sequence quiet so far succeeds without registering anything |
| MappingContexts.MappingContext.ProgressSnoc | src/Spring/Spring.Data/Data/Mapping/Context/AbstractMappingContext.cs:287-309 | adding a non-transient property as the entity's add methods do extends the population state by it |
| MappingContexts.MappingContext.DoWith | src/Spring/Spring.Data/Data/Mapping/Context/AbstractMappingContext.cs:287-309 | a transient property is skipped; others are added with their association; an entity-typed property of another type is registered; a property that adds no entity and repeats no id or version succeeds and leaves the registry alone |
| MappingContexts.MappingContext.AddNeededEntities | src/Spring/Spring.Data/Data/Mapping/Context/AbstractMappingContext.cs:299-308 | a property of the entity's own type, or one that is not an entity, adds nothing; an `IsEntity` failure is the result; otherwise the property's entity type ends registered |
| MappingContexts.MappingContext.AddEntityTypes | src/Spring/Spring.Data/Data/Mapping/Context/AbstractMappingContext.cs:304-307 | every candidate type ends registered |
| MappingContexts.MappingContext.GetPersistentEntity | src/Spring/Spring.Data/Data/Mapping/Context/AbstractMappingContext.cs:121-135 | registered: that entity; strict: a mapping error; simple (lines 263-266): null; otherwise it is added |
| MappingContexts.MappingContext.GetPersistentEntityOf | src/Spring/Spring.Data/Data/Mapping/Context/AbstractMappingContext.cs:114-119 | a property without information is an argument error |
| MappingContexts.MappingContext.GetPersistentEntityForType | src/Spring/Spring.Data/Data/Mapping/Context/AbstractMappingContext.cs:108-112 | the entity registered for the type's class info, whose information equals it |
| MappingContexts.MappingContext.LookupHoldsItsKey | src/Spring/Spring.Data/Data/Mapping/Context/AbstractMappingContext.cs:121-135 | a registered entity's information equals the looked-up info |
| MappingContexts.MappingContext.Initialize | src/Spring/Spring.Data/Data/Mapping/Context/AbstractMappingContext.cs:247-254 | every initial type ends registered |
| MappingContexts.MappingContext.GetPersistentPropertyPath | src/Spring/Spring.Data/Data/Mapping/Context/AbstractMappingContext.cs:137-162 | each entity visited is the registered one for the owning type or the previous segment's type; the walk fails with an argument error exactly when the last one lacks its segment's name; on success the properties are those entities' properties of the segment names, in order, and spell the path's dot path |
| MappingContexts.MappingContext.ResolveSegments | src/Spring/Spring.Data/Data/Mapping/Context/AbstractMappingContext.cs:143-159 | the foreach loop over the segments ends in the resolved outcome over the entities it visited |
| MappingContexts.MappingContext.ResolveStep | src/Spring/Spring.Data/Data/Mapping/Context/AbstractMappingContext.cs:145-158 | one segment: the current entity's property of that name is recorded, a missing one is the argument error, and the next entity is the one registered for the segment's type |
| MappingContexts.MappingContext.NextEntity | src/Spring/Spring.Data/Data/Mapping/Context/AbstractMappingContext.cs:155-158 | the next entity, when there is one, is the registered entity of the segment type's class info |
| MappingContexts.MappingContext.WalkedIsResolved | src/Spring/Spring.Data/Data/Mapping/Context/AbstractMappingContext.cs:143-161 | a walk that reached every segment, or failed for another reason than a missing name, is the resolved outcome |
| MappingContexts.MappingContext.LacksNameIsResolved | src/Spring/Spring.Data/Data/Mapping/Context/AbstractMappingContext.cs:147-151 | a reached entity without the segment's name ends the walk with the argument error |
| MappingContexts.MappingContext.WalkedSnoc | src/Spring/Spring.Data/Data/Mapping/Context/AbstractMappingContext.cs:145-153 | a reached entity holding the segment's name extends the walk by that property |
| MappingContexts.JoinSpellsDotPath | src/Spring/Spring.Data/Data/Mapping/Context/DefaultPersistentPropertyPath.cs:53-56 | joining a path's names with '.' is its `DotPath` (PropertyPath.cs:163-174) |
| MappingContexts.JoinIsJoinDots | src/Spring/Spring.Data/Data/Mapping/Context/DefaultPersistentPropertyPath.cs:68-81 | the two dot-joins agree |
| MappingContexts.NewPath | src/Spring/Spring.Data/Data/Mapping/Context/DefaultPersistentPropertyPath.cs:45-51 | a persistent property path of exactly the given non-empty properties |
| Sorts.Order.With | src/Spring/Spring.Data/Data/Domain/Sort.cs:237-240 | same property, new direction, and what the constructor makes of them |
| Sorts.NewOrder | src/Spring/Spring.Data/Data/Domain/Sort.cs:186-192 | succeeds iff the property has text, else an argument-null error |
| Sorts.NewAscendingOrder | src/Spring/Spring.Data/Data/Domain/Sort.cs:198-201 | ascending by default (line 37) |
| Sorts.OrderEqualsIsValueEquality | src/Spring/Spring.Data/Data/Domain/Sort.cs:259-267 | order equality is value equality; `IsAscending` (lines 228-231) and `With` behave as named |
| Sorts.FirstOrderFor | src/Spring/Spring.Data/Data/Domain/Sort.cs:118-121 | the first order for the property, or null exactly when none |
| Sorts.FirstOrderForConcat | src/Spring/Spring.Data/Data/Domain/Sort.cs:103-121 | after `And`, the first sort's order for a property wins |
| Sorts.Sort.constructor | src/Spring/Spring.Data/Data/Domain/Sort.cs:53-59 | keeps the non-empty list |
| Sorts.Sort.FromList | src/Spring/Spring.Data/Data/Domain/Sort.cs:53-59 | an empty list is refused |
| Sorts.Sort.FromOrders | src/Spring/Spring.Data/Data/Domain/Sort.cs:44-47 | a new list of the orders; empty is refused |
| Sorts.Sort.FromProperties | src/Spring/Spring.Data/Data/Domain/Sort.cs:75-96 | null or empty is refused; any property without text is refused; otherwise one order per property, in order |
| Sorts.Sort.FromNames | src/Spring/Spring.Data/Data/Domain/Sort.cs:65-68 | all ascending; succeeds iff non-empty and every property has text |
| Sorts.Sort.And | src/Spring/Spring.Data/Data/Domain/Sort.cs:103-112 | null gives this sort; otherwise a new sort of these orders followed by the other's |
| Sorts.Sort.GetOrderFor | src/Spring/Spring.Data/Data/Domain/Sort.cs:118-121 | an order of the sort for the property, or null exactly when none |
| Sorts.Sort.WithProperties | src/Spring/Spring.Data/Data/Domain/Sort.cs:246-249 | a sort in the order's direction |
| Sorts.SortEqualsIsListIdentity | src/Spring/Spring.Data/Data/Domain/Sort.cs:133-141 | sort equality is list identity and an equivalence |

## Left out

- Reflection itself (`GetFields`, `GetConstructors`, `GetInterface`, `IsAssignableFrom`, `IsNested`, names) is the given `Universe`. Assignability is an input relation, not the .NET rules.
- Attribute reads are flags. `TypeAlias` (BasicPersistentEntity.cs:171-178) and `TypeAliasAttribute.cs` are not part of this model.
- The parameter-name discoverer (`LocalVariableTableParameterNameDiscoverer.cs`) is an optional name array per constructor.
- `ReflectionUtils.CreateGeneric` uses `Activator` and is not modelled.
- Regular expressions are not interpreted in general. The splitter (PropertyPath.cs:40) and `\p{Lu}+\p{Ll}*$` (PropertyPath.cs:412) are explicit functions over ASCII letters. `FieldMatch` patterns are either a literal or a literal followed by `.*`, the only shapes the source uses.
- PropertyPaths.HasText: white space is ASCII white space, not every Unicode white-space character; `\p{Lu}`/`\p{Ll}` are ASCII letters.
- `StringUtils` and `AssertUtils` are not part of this model; their checks are written out where they are called.
- Hash codes and `ToString` are left out, apart from the parameterized info's hash code of the findings below. So are the serialization constructors and `GetObjectData` of `PropertyReferenceException`, and its message-only constructors beyond the default message.
- Null arguments that the types of the model exclude (a null field, owner or type) are not modelled. Nulls the source handles are modelled as `Option`.
- TypeInformation.GetProperty: at the value level a dotted name gives null, as on an object whose field cache is still empty; the cached behaviour is `TypeInstances.InfoHeap.GetProperty`.
- `TypeDiscoverer.GetReturnType` and `GetParameterTypes(MethodInfo)` (TypeDiscoverer.cs:311-330) build infos the same way as `CollectInfos`; they have no rows of their own.
- Reference identity of type-information objects is modelled only in `TypeInstances.InfoHeap`. Elsewhere equal values stand for the same object.
- The property-path enumerator is not shared between calls to `GetEnumerator`.
- `HashedSet` iteration order is taken as insertion order. The `SortedSet` comparers of the entity are not modelled: properties and associations are kept in insertion order, with one entry per field.
- The owning entity of a property is kept as its type information, the only part of it the property reads. A `PreferredConstructor`'s parameters are a sequence.
- `CreatePersistentEntity` and `CreatePersistentProperty` are abstract. They are modelled as the basic entity and the annotation-based property.
- The concurrency of the `ConcurrentDictionary` registry and caches is not modelled. Maps are updated sequentially, so the failed `TryAdd` path cannot happen.
- MappingContexts.MappingContext.AddPersistentEntity: `Verify` of the basic entity never fails, so the `TryRemove` and rethrow path (AbstractMappingContext.cs:196-204) is never taken.
- MappingContexts.MappingContext.AddPersistentEntity: nested registration recurses through a `fuel` bound, and running out is reported as a stack overflow. The source has no bound.
- MappingContexts.MappingContext.Valid: the registry invariant ties each key to its entity's information. It does not also carry every entity's own invariant.
- Application events are not modelled: the `ApplicationContext` setter, `OnApplicationEvent` and event publication (AbstractMappingContext.cs:52-61, 207-210, 235-241), and `MappingContextEvent.cs`.
- `FieldMatch.Matches(PropertyInfo)` and `PersistentFieldFilter.Matches(PropertyInfo)` are not used by the context and are not modelled.
- Callbacks (`IFieldCallback`, `IPropertyHandler`, `IAssociationHandler`) are modelled by the sequence of values they are handed.
- PropertyPaths.ParsedRoundTrip: stated for paths whose segment names hold no `_` or `.`. The splitter can keep extra delimiters at the head of a part, so such a name does not come back from its dot path.
- MappingContexts.MappingContext.AddPersistentEntity: with nested entities, which entries are added is stated as every key registered once and every nested type registered, not as an exact list.
- MappingContexts.MappingContext.AddPersistentEntity: the registry is looked up by `Equals`. The source's `ConcurrentDictionary` (AbstractMappingContext.cs:178-213) compares hash codes first, so two equal parameterized infos whose hash codes differ can get two entries there. `KeysDistinct` and one entry per key hold of the `Equals`-keyed registry only.
- PersistentEntities.Parameter: `GetHashCode` (Parameter.cs:135-145) is not modelled. It adds the type info's hash code, so two equal parameters of a parameterized type can hash apart, as `EqualParameterizedInfosHashApart` shows for the infos.
- Sorts.Sort.constructor: the source keeps the caller's list object without copying it (Sort.cs:58), so the caller can later change or empty the orders of a constructed `Sort`. The model's list is an immutable value, so non-emptiness holds for good here, while the source checks it only at construction.
- PersistentPropertyPaths.PersistentPropertyPath.constructor: the source keeps the caller's list object without copying it (DefaultPersistentPropertyPath.cs:51), so the caller can later change or empty the properties of a constructed path. The model's list is an immutable value, so non-emptiness holds for good here, while the source checks it only at construction.
- `Order.Create` (Sort.cs:204-207) is obsolete and not modelled.
- Interface-only files carry no behaviour and are not modelled.

## Findings

The model follows the code as written: `From` links parts as `Link` does, and the mapping context walks with `DoWithFields` and the unanchored filter. The registry is keyed by `Equals`, which the corrected hash code agrees with. The corrected definitions stand beside them.

| source | as written | input that shows it | evidently intended | confidence | as-written member | corrected member |
|---|---|---|---|---|---|---|
| src/Spring/Spring.Data/Data/Mapping/PropertyPath.cs:350-356 | each later part is linked onto `current`, the first segment of the previous part, overwriting its `_next` | `From("userName.city")` where `userName` splits into `user`→`name`: the `name` segment is dropped | the next part hangs after the previous part's leaf | not executed | PropertyPaths.LinkDropsCamelTail | PropertyPaths.ParsedAtLeafKeepsTokens |
| src/Spring/Spring.Data/Data/Util/ReflectionUtils.cs:75 | the do-while continues only while the base type is `object` | `Derived : Base`, where `Base` declares a private field: it is not in `Derived`'s field table and `Base` is never visited | visit every type up the hierarchy until `object`, listing only the fields each type declares, so that each field is handed over once | not executed | ReflectionUtils.AsWrittenMissesBaseFields | ReflectionUtils.AllFieldsCoverHierarchy |
| src/Spring/Spring.Data/Data/Mapping/Context/AbstractMappingContext.cs:405 | `Regex.IsMatch` with the pattern `class` matches anywhere in the name | a non-static field named `classification` is filtered out | match the whole field name | not executed | MappingContexts.UnanchoredRejectsClassification | MappingContexts.AnchoredFilterRejects |
| src/Spring/Spring.Data/Data/Util/ParameterizedTypeInformation.cs:127-154 | `Equals` compares fully resolved parameterized infos by their resolved type alone, while `GetHashCode` adds the reference hash of the dictionary object and 31 times the parent's hash | the infos of two `Wrapper<Foo>` fields declared in two different classes: `Equals`, but their parents hash differently, so their hash codes differ | equal infos hash alike, as `GetHashCode` requires, so a hash-keyed registry holds one entry per equal key | not executed | TypeInformation.EqualParameterizedInfosHashApart | TypeInformation.EqualParameterizedInfosHashAlike |
