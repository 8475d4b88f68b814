# go-glib binding generator core, modelled in Dafny

go-glib generates Go bindings for GObject-based C libraries from their
GObject-introspection (GIR) files. This project models the part of the
generator that decides *what* gets generated, and proves properties of it:

- **GIR documents** (`Gir`, `GirRepositories`, `GirPreprocess`, `CustomAttrs`):
  the parsed element types with their default-valued attributes and ordered
  `Find` lookups, the lookup of dotted paths through the set of GIR files,
  the preprocessors that edit the files before generation, and versions and
  comma-separated lists.
- **Type system** (`TypeSystem`, `Primitives`, `CTypes`, `Members`, `Ignore`,
  `Config`, `Callables`, `StrCases`): how a type renders at a pointer depth,
  pointer bounds each kind of type allows, the transfer-ownership
  conversion tables, foreign-namespace qualification, and the declared
  classes, interfaces, records, callbacks and aliases whose resolve steps
  fill in their fields. Also C type strings, enumeration member values,
  ignore patterns, the per-namespace configuration, callable names and Go
  identifier case conversion.
- **Environment and namespaces** (`Env`, `Params`, `Namespaces`,
  `NamespaceIncludes`):
  - type lookup in a documented order, and the version-based skip rules;
  - the signature builder, which turns a GIR callable into C and Go
    parameter lists or rejects it;
  - the worklist loop that resolves a namespace's declared types in passes;
  - the transitive include closure that orders repositories so that
    dependencies come first.
- **Converter selection** (`Convert`): the two first-match decision trees
  that choose, for each parameter, the converter that moves its value
  between Go and C. Also the self-describing fallback for what they cannot
  handle, and the userdata registration a callback parameter gets.
- **Output and runtime state** (`CodeWriting`, `Imports`, `PointerHeap`,
  `Userdata`, `InstanceData`, `ClosureRegistry`):
  - the indenting code writer and the import block of a generated file;
  - at run time, the free list of C pointers that stand for Go values;
  - the userdata, instance-data and closure registries.

Operations that change state in the source are classes whose methods carry
`modifies` clauses: declared type objects, the code writer, the registries,
PointerHeap, the include resolver and the resolve worklists. Each such
method is proved against a specification function, and the properties are
proved about that function. Pure lookups and selectors are functions with
lemmas. Go panics and returned errors both become `Err` values of a
`Result`. A `nil` that means "not found" becomes `None`. The
regular-expression engine, `findTypeByGIRName` as a resolve step sees it,
and the declaration of methods are parameters of the model.

## Model

| member | source | states |
|---|---|---|
| CustomAttrs.UnmarshalCommaSeparated | gir/customAttrs.go:16-21 | strings.Split at commas: at least one item and no item holds a comma |
| CustomAttrs.CommaSeparatedRoundTrip | gir/customAttrs.go:16-30 | reading a value and writing it back gives the value |
| CustomAttrs.CommaSeparatedRoundTripList | gir/customAttrs.go:16-30 | writing a non-empty comma-free list and reading it back gives the list |
| CustomAttrs.FormatInt | gir/customAttrs.go:50-52 | %d of an int is non-empty and has no dot |
| CustomAttrs.Atoi | gir/customAttrs.go:141-153 | strconv.Atoi: a success fits the 64-bit int and the empty string is an error |
| CustomAttrs.AtoiFormatInt | gir/customAttrs.go:50-141 | Atoi reads back what %d wrote, for every 64-bit value |
| CustomAttrs.LessIsLexicographic | gir/customAttrs.go:62-84 | Less is the lexicographic order on (major, minor, patch) |
| CustomAttrs.GreaterIsConverse | gir/customAttrs.go:87-109 | Greater is Less with the arguments swapped |
| CustomAttrs.LessStrictTotalOrder | gir/customAttrs.go:55-84 | Less is irreflexive, transitive, asymmetric and total up to Equals |
| CustomAttrs.LessEqualIsNotGreater | gir/customAttrs.go:55-119 | LessEqual is exactly not Greater, GreaterEqual exactly not Less, and Equals is equality |
| CustomAttrs.LessEqualTable | gir/types_test.go:9-30 | the LessEqual cases of the package's test table |
| CustomAttrs.UnmarshalText | gir/customAttrs.go:122-166 | empty text leaves the version unchanged without error; an error leaves it unchanged; more than three parts is an error |
| CustomAttrs.ParseVersion | gir/customAttrs.go:32-42 | the empty string parses to the zero version |
| CustomAttrs.ParseVersionString | gir/customAttrs.go:32-166 | parsing the String form of any 64-bit version gives the version back |
| CustomAttrs.AtoiDigit | gir/customAttrs.go:141 | a single digit reads as its value |
| CustomAttrs.ParseVersionMajorOnly | gir/customAttrs.go:140-163 | a lone major part leaves minor and patch 0 |
| CustomAttrs.ParseVersionNoPatch | gir/customAttrs.go:146-163 | "1.2" parses to 1.2.0 |
| CustomAttrs.ParseVersionEmptyPatch | gir/customAttrs.go:152 | an empty third part is accepted as patch 0 |
| CustomAttrs.ParseVersionEmptyMinor | gir/customAttrs.go:146-150 | an empty second part is an error |
| CustomAttrs.ParseVersionTooManyParts | gir/customAttrs.go:131-133 | a fourth part is an error |
| Config.VersionBound | gir/girgen/typesystem/config.go:53-66 | an empty bound is the zero version; otherwise it is ParseVersion's result, a parse error being the panic |
| Config.GetNamespaceEnv | gir/girgen/typesystem/config.go:42-82 | an ignored namespace gets no env; otherwise it fails exactly when a version bound does not parse, and the env carries the namespace, the replacements, both bounds, the prefixes and an ignore function true exactly when one of the configured ones is |
| Config.UnconfiguredNamespace | gir/girgen/typesystem/config.go:42-82 | a namespace without settings gets an env in which nothing is skipped as deprecated or too new, and an ignore function that ignores nothing |
| Config.Combine | gir/girgen/typesystem/config.go:86-104 | each map of the result is nil exactly when both inputs are empty, and is the key union with other's entries winning |
| Config.MergeMapsAssociative | gir/girgen/typesystem/config.go:89-101 | merging maps is associative, nil results included |
| Config.MergeEntries | gir/girgen/typesystem/config.go:89-94 | a merge holds the union of the entries, the second map winning, and is nil exactly when that union is empty |
| Config.CombineAssociative | gir/girgen/typesystem/config.go:86-104 | combining configurations is associative |
| Config.CombineWithEmpty | gir/girgen/typesystem/config.go:86-104 | combining with the zero configuration keeps every entry of the other side |
| Config.CombineIdempotent | gir/girgen/typesystem/config.go:86-104 | combining a configuration with itself keeps its entries |
| Gir.DefaultTrueSemantics | gir/types.go:300-302 | an optional boolean attribute that defaults to true is false only when it is present and false (introspectable, readable) |
| Gir.ZeroTerminatedSemantics | gir/types.go:47-49 | an array is zero-terminated exactly when it has no name and its zero-terminated attribute is not set to false |
| Gir.NameAttr | gir/types.go:388-395 | the value of the first attribute with the given XML name, and the empty string when no attribute has that name |
| Gir.ClassFindOrder | gir/types.go:145-183 | a method of that name always wins; a constructor is found only when no method, virtual method, function, signal or field has the name; nothing is found exactly when no list has the name |
| Gir.FindCallable | gir/types.go:146-150 | the callable found is in the list and has the name asked for; nothing is found exactly when no callable has it |
| Gir.ClassFind | gir/types.go:145-183 | whatever a class finds has the name asked for and is one of its methods, virtual methods, functions, constructors, signals or fields |
| Gir.InterfaceFind | gir/types.go:340-366 | whatever an interface finds has the name asked for and is of a kind it searches; a match in an earlier list wins, and nothing is found exactly when no list has the name |
| Gir.RecordFind | gir/types.go:464-497 | whatever a record finds has the name asked for and is of a kind it searches; a match in an earlier list wins, and nothing is found exactly when no list has the name |
| Gir.EnumFind | gir/types.go:237-251 | a member is found when its name, C identifier or GLib name matches, before any function; a function is found only when no member matches; nothing is found exactly when neither matches |
| Gir.NamespaceFind | gir/namespace.go:50-134 | whatever a namespace finds has the name asked for and is of a kind it searches; a match in an earlier list wins, and nothing is found exactly when no list has the name |
| Gir.Find | gir/repositories.go:68-75 | a node that is not searchable finds nothing |
| GirRepositories.RepositoryNamed | gir/repositories.go:19-21 | the file with that name, or none when no file has it |
| GirRepositories.FindNamespace | gir/repositories.go:43-51 | a namespace found has the requested name and major version; none is found only when no namespace of any file matches both |
| GirRepositories.ReposFind | gir/repositories.go:24-52 | a name without '-' is a panic; otherwise the result is nothing or a namespace |
| GirRepositories.ReposFindIgnoresMinor | gir/repositories.go:36-46 | "Name-M.m.p" finds the same as "Name-M": only the major version is compared |
| GirRepositories.SubPaths | gir/repositories.go:81-96 | every part yielded is non-empty and contains no '.' |
| GirRepositories.SubPathsIsSplitPrefix | gir/repositories.go:81-96 | the parts are those of splitting at every '.', up to the first empty part |
| GirRepositories.WalkPrefixClosed | gir/repositories.go:68-75 | once a step of the path finds nothing, every longer path finds nothing |
| GirRepositories.FindFullType | gir/repositories.go:54-79 | the first part selects a namespace (a panic for a name without '-'), and each later part is looked up in what the previous part found |
| GirRepositories.FindFullTypeMissingMiddle | gir/repositories.go:54-79 | a path with a part that does not exist below its parent finds nothing, whatever follows |
| GirRepositories.FindFullTypeAsWrittenRestarts | gir/repositories.go:57-66 | as written, after a missing part the next part starts a new search among the files, so "first.missing.first" finds what "first" finds |
| GirRepositories.FindFullTypeAsWrittenCounterexample | gir/repositories.go:57-66 | with one file holding namespace Gtk 4, "Gtk-4.Missing.Gtk-4" finds Gtk although Gtk has no member "Missing" |
| GirPreprocess.FilterConcat | gir/preprocess.go:45-49 | filtering a list filters each part of it: kept entries stay in their original order |
| GirPreprocess.FilterKeepsAll | gir/preprocess.go:45-49 | a list in which every entry is kept comes back unchanged |
| GirPreprocess.KeepPackages | gir/preprocess.go:41-49 | the package list after RemovePkgconfig: the packages not named pkgconfig, in their original order |
| GirPreprocess.RemoveCIncludes | gir/preprocess.go:53-76 | the include list after RemoveCIncludes: the includes no pattern matches, in their original order |
| GirPreprocess.Rename | gir/preprocess.go:126-151 | a node is renamed exactly when it was found and is of a renamable kind; the result carries the new name, and renaming it back gives the found node |
| GirPreprocess.TypeRenamer | gir/preprocess.go:118-152 | a path that does not resolve is a panic; otherwise the rename succeeds exactly when the node the full path finds is renamable, and it is that node with the new name |
| GirPreprocess.RenamedNode | gir/preprocess.go:126-151 | classes, interfaces, records, enumerations, bitfields, unions, functions, callbacks, aliases and constants can be renamed, every other kind cannot; a renamed node carries the new name, and setting its name back gives the node it came from, so no other field changes |
| GirPreprocess.ParseSignalPath | gir/preprocess.go:226-234 | a panic exactly when no '.' comes before a "::"; otherwise the three parts put back together give the input, the type part has no '.', and the split is at the last "::", so the signal part holds no "::" and does not start with ':' |
| GirPreprocess.SignalTarget | gir/preprocess.go:236-259 | a type that is not found is a panic; a type that is neither a class nor an interface gives no signal; otherwise a signal is given exactly when one has the requested name, and it is the first such signal |
| GirPreprocess.ModifySignalTarget | gir/preprocess.go:226-259 | an input that does not parse is a panic; a lookup of "namespace.type" that fails or finds nothing is a panic; a signal given has the parsed name and is among the signals of the type found |
| GirPreprocess.Step | gir/preprocess.go:33-76 | a missing file is fatal; otherwise only the named file's package list (RemovePkgconfig) or C include list (RemoveCIncludes) changes, to exactly the entries kept |
| GirPreprocess.Preprocess | gir/preprocess.go:28-30 | running one preprocessor computes that preprocessor's step |
| GirPreprocess.ApplyAll | gir/preprocess.go:18-22 | no preprocessors leave the files unchanged; the files keep their names and count |
| GirPreprocess.ApplyAllAppend | gir/preprocess.go:18-22 | running a list a + b is running a, then b on its result |
| GirPreprocess.ApplyPreprocessors | gir/preprocess.go:18-22 | the preprocessors run in list order, each on the result of the ones before |
| StrCases.KeywordTable | gir/girgen/strcases/strcases.go:143-175 | every keyword starts with a lower-case letter and its replacement is empty or a listed underscore-free name |
| StrCases.BuiltinTable | gir/girgen/strcases/strcases.go:178-200 | the same for the built-in type names |
| StrCases.ReplacementsFree | gir/girgen/strcases/strcases.go:143-200 | no replacement is itself reserved or holds an underscore |
| StrCases.NoGoReserved | gir/girgen/strcases/strcases.go:249-267 | the result is never reserved; a word that is not reserved is kept; a keyword becomes its table replacement, or "_" + word when the replacement is empty, and a built-in type name that is not a keyword likewise; no underscore appears inside the result |
| StrCases.NoGoReservedIdempotent | gir/girgen/strcases/strcases.go:249-267 | guarding twice is guarding once |
| StrCases.FirstToUpper | gir/girgen/strcases/strcases.go:63-75 | same length, the first letter upper-cased and the rest unchanged |
| StrCases.Capitalised | gir/girgen/strcases/strcases.go:117-130 | a word after the first: its special spelling when special spellings apply and the lowered word is listed, otherwise the lowered word with its first letter upper-cased; empty exactly when the word is |
| StrCases.Piece | gir/girgen/strcases/strcases.go:83-130 | an empty word contributes nothing; the leading word of a camel-case name is lowered; every other word is Capitalised; never an underscore |
| StrCases.PiecesAreMixedCaps | gir/girgen/strcases/strcases.go:83-131 | the word-by-word loop equals the leading word followed by the non-empty later words, each capitalised |
| StrCases.SpecialTable | gir/girgen/strcases/strcases.go:15-50 | the special words are non-empty lower-case letters and digits, and their spellings are non-empty, capitalised and underscore-free |
| StrCases.Pieces | gir/girgen/strcases/strcases.go:97-131 | the joined words hold no underscore |
| StrCases.ParamNameToGo | gir/girgen/strcases/strcases.go:79-100 | the name is never reserved, has no underscore after its first character, and is the guarded mixed-caps spelling of the split words: first word lowered, the other non-empty words capitalised, no special spellings |
| StrCases.SnakeToGo | gir/girgen/strcases/strcases.go:104-134 | the same with special spellings, and with the first word capitalised too in pascal case |
| StrCases.WordsToGo | gir/girgen/strcases/strcases.go:79-134 | for non-empty words joined by single underscores, both converters give the leading word followed by every later word capitalised, guarded |
| StrCases.TwoWordsCamel | gir/girgen/strcases/strcases.go:79-100 | "a_b" becomes a lowered followed by b lowered with its first letter upper-cased |
| StrCases.SplitConcat | gir/girgen/strcases/strcases.go:270-272 | splitting a + sep + b gives the parts of a followed by the parts of b |
| StrCases.EmptyWordsDropped | gir/girgen/strcases/strcases.go:88-121 | "a__b" converts exactly like "a_b" in both converters: the empty word between two underscores is skipped |
| StrCases.KebabToGo | gir/girgen/strcases/strcases.go:137-139 | never reserved |
| StrCases.KebabSeparatorsAlike | gir/girgen/strcases/strcases.go:137-139 | hyphens and underscores separate words alike; without hyphens KebabToGo is SnakeToGo |
| StrCases.CaseInsensitive | gir/girgen/strcases/strcases.go:88-117 | both converters lower every word first, so the input's case never matters |
| StrCases.SingleWordCamel | gir/girgen/strcases/strcases.go:90-122 | a lower-case single word that is not reserved is its own camel-case name: the table is not consulted for the leading word |
| StrCases.SpecialWordPascal | gir/girgen/strcases/strcases.go:124-127 | a special word alone in pascal case becomes its special spelling |
| StrCases.LeadingUnderscoreCapitalises | gir/girgen/strcases/strcases.go:83-95 | the leading-word test counts the empty word before a leading underscore, so the first real word is capitalised |
| StrCases.ReceiverName | gir/girgen/strcases/strcases.go:203-218 | panics exactly on empty input or a leading underscore; otherwise one lower-case character, a letter exactly when the input's first is |
| StrCases.Unexport | gir/girgen/strcases/strcases.go:222-236 | the empty string is kept; otherwise the first letter is lowered and the word guarded against reserved words, so the result is never reserved; when no guard applies it is ReceiverName's letter followed by the rest of the input |
| StrCases.GuardedStartsLower | gir/girgen/strcases/strcases.go:249-267 | the guard keeps a word that does not start with an upper-case letter in that shape: every replacement starts with a lower-case letter or an underscore |
| StrCases.UnexportIdempotent | gir/girgen/strcases/strcases.go:222-236 | unexporting an unexported name changes nothing |
| StrCases.CGoField | gir/girgen/strcases/strcases.go:240-246 | never a keyword; a keyword gets one underscore in front and any other name is unchanged |
| Callables.RenamedCases | gir/girgen/typesystem/callable.go:44-70 | a name without "New" at either end is just prefixed with the parent's name; with "New" in front, behind or both it becomes "New", the parent's name, then the rest |
| Callables.RenamedNewPrefix | gir/girgen/typesystem/callable.go:44-67 | a "New" prefix moves in front of the parent's name |
| Callables.RenamedNewSuffix | gir/girgen/typesystem/callable.go:44-67 | a "New" suffix moves in front of the parent's name |
| Callables.RenamedNewBoth | gir/girgen/typesystem/callable.go:44-67 | "New" at both ends: both are cut and one goes in front |
| Callables.ToStringIsString | gir/girgen/typesystem/callable.go:10-71 | to_string is spelled String, so its Go name is the parent's name followed by String |
| Callables.PascalNameOfSpecial | gir/girgen/typesystem/callable.go:40-44 | a name in the special table is converted from its special spelling |
| Callables.SpecialToString | gir/girgen/typesystem/callable.go:10-13 | the table maps to_string to String |
| Callables.StringPascal | gir/girgen/typesystem/callable.go:44 | SnakeToGo leaves "String" as it is |
| Callables.Declare | gir/girgen/typesystem/callable.go:80-193 | a callable that is not introspectable, shadowed, moved or skipped is not declared. For one that passes those guards, Declare panics exactly when the parameter specification does, and declares it exactly when the specification resolves. A declared callable keeps its C identifier and gets GoIdentifier's name. Its parameters hold the specification's draft: all valid, one per GIR parameter plus the error, built by the environment's builder and linked, with the Go side ordered |
| Callables.ParentTypeName | gir/girgen/typesystem/callable.go:49-64 | no parent gives the empty name, a class or interface parent gives its Go interface name, any other parent its Go type |
| Callables.PascalName | gir/girgen/typesystem/callable.go:38-44 | the PascalCase name is never a reserved word and has no inner underscore; a name without special spelling is its own snake_case conversion, and to_string becomes String |
| Callables.Renamed | gir/girgen/typesystem/callable.go:46-70 | a name with "New" at either end starts with "New" and the parent name; otherwise it is the parent name followed by the PascalCase name; cutting "New" never lengthens the result |
| Callables.GoIdentifier | gir/girgen/typesystem/callable.go:37-71 | the Go identifier starts with the parent type name, or with "New" and the parent type name, and is no longer than both names together |
| CTypes.GetPointers | gir/girgen/typesystem/pointer.go:14-16 | n stars: a string of length n counting n pointers |
| CTypes.TrimCTypePointers | gir/girgen/typesystem/pointer.go:18-20 | no star is left, exactly the stars are removed, and nothing new is added |
| CTypes.BaseWithPointers | gir/girgen/typesystem/pointer.go:10-20 | trimming a C type and appending n stars gives a type with n stars and the same base |
| CTypes.DecreasePointers | gir/girgen/typesystem/pointer.go:36 | one star fewer, the same base |
| CTypes.DecreaseAnyTypePointers | gir/girgen/typesystem/pointer.go:23-53 | succeeds exactly when each present part has a star; then each present part keeps everything but its C type, which has one star fewer and the same base; on failure the result is empty |
| CTypes.DecreaseTwice | gir/girgen/typesystem/pointer.go:23-53 | a type with at least two stars can be decreased twice, losing two stars |
| CTypes.CleanCType | gir/girgen/typesystem/util.go:32-42 | dropping qualifiers keeps the number of stars and never lengthens the type |
| CTypes.CleanCTypeUnqualified | gir/girgen/typesystem/util.go:32-42 | a C type without const or volatile comes back unchanged |
| CTypes.PlainBaseUnqualified | gir/girgen/typesystem/util.go:32-42 | a base without stars or qualifier words, followed by stars, holds none of the four patterns and cleans to itself |
| CTypes.CleanLeadingConst | gir/girgen/typesystem/util.go:35 | "const " + base + stars cleans to base + stars |
| CTypes.CleanTrailingConst | gir/girgen/typesystem/util.go:35-36 | base + " const" + stars cleans to base + stars |
| CTypes.CleanLeadingVolatile | gir/girgen/typesystem/util.go:35-38 | "volatile " + base + stars cleans to base + stars |
| CTypes.CleanTrailingVolatile | gir/girgen/typesystem/util.go:35-39 | base + " volatile" + stars cleans to base + stars |
| CTypes.CleanConstGchar | gir/girgen/typesystem/util.go:32-42 | "const gchar*" cleans to "gchar*" |
| CTypes.CTypeFromAnytype | gir/girgen/typesystem/util.go:44-53 | the array's C type when there is an array, else the type's; neither is a panic |
| CTypes.CgoPrimitiveNamesPlain | gir/girgen/typesystem/util.go:59-67 | no cgo primitive spelling holds a star |
| CTypes.CgoBase | gir/girgen/typesystem/util.go:80-82 | a listed primitive becomes its cgo spelling, any other base is kept; no star is introduced |
| CTypes.CtypeToCgoType | gir/girgen/typesystem/util.go:69-85 | "void*" is unsafe.Pointer; any other type is its stars, then "C.", then CgoBase of the cleaned and trimmed type, which has no star |
| CTypes.CgoTypeOfConst | gir/girgen/typesystem/util.go:69-85 | "const " + base + n stars is n stars, "C." and the cgo spelling of base: the qualifier is gone |
| CTypes.CtypeToCgoTypeKeepsPointers | gir/girgen/typesystem/util.go:69-85 | apart from "void*", the cgo spelling has exactly as many stars as the C type |
| CTypes.CtypeToCgoTypeRenames | gir/girgen/typesystem/util.go:59-85 | "unsigned int*" is spelled "*C.uint": the primitive rename applies under the stars |
| CTypes.PlainBaseWithPointers | gir/girgen/typesystem/util.go:32-42 | a plain base followed by n stars has n stars and cleans and trims back to that base |
| CTypes.GoPackageName | gir/girgen/typesystem/util.go:18-26 | the package name holds only lower-case letters and digits and is no longer than the GIR name |
| CTypes.GoPackageNameAppend | gir/girgen/typesystem/util.go:18-26 | the package name is computed character by character: the name of a + b is the name of a followed by the name of b |
| CTypes.GoPackageNameKeepsPlain | gir/girgen/typesystem/util.go:18-26 | a name of lower-case letters and digits is its own package name |
| CTypes.GoPackageNameIdempotent | gir/girgen/typesystem/util.go:18-26 | applying the conversion twice gives the same as once |
| Primitives.FirstMatch | gir/girgen/typesystem/primitive.go:184-201 | a primitive found is in the list and matches the C type or GIR name asked for; nothing is found exactly when no primitive matches |
| Primitives.FirstMatchConcat | gir/girgen/typesystem/primitive.go:184-201 | searching a concatenation searches the first part and only then the second, so earlier entries shadow later ones |
| Primitives.PointerTypes | gir/girgen/typesystem/pointer.go:55-62 | gpointer and gconstpointer are builtin castable primitives whose Go type is unsafe.Pointer |
| Primitives.StringPrimitiveRules | gir/girgen/typesystem/primitive.go:38-85 | utf8 and filename take exactly one pointer and render as gchar* in C, *C.gchar in cgo and string in Go |
| Primitives.PrimitiveByCType | gir/girgen/typesystem/primitive.go:184-191 | a primitive found by C type is a builtin whose C type is the one asked for; nothing is found exactly when no builtin has that C type |
| Primitives.PrimitiveByGIRName | gir/girgen/typesystem/primitive.go:193-200 | a primitive found by GIR name is a builtin with that GIR name; nothing is found exactly when no builtin has it |
| Primitives.IncompatibleNotPrimitive | gir/girgen/typesystem/primitive.go:203-217 | a C type without Go counterpart (va_list, long double and the like) is never a builtin primitive |
| Primitives.PointersFoundByCType | gir/girgen/typesystem/pointer.go:55-62 | gpointer and gconstpointer are found by their own C type, so the pointer test and the builtin lookup agree |
| Ignore.WildCardMatchesAll | gir/girgen/typesystem/gir_ident.go:15-21 | a wildcard pattern matches every item of its parent |
| Ignore.ExactMatch | gir/girgen/typesystem/gir_ident.go:15-21 | a pattern that is not a wildcard matches exactly the item with its parent and name |
| Ignore.GIRPattern | gir/girgen/typesystem/gir_ident.go:23-40 | a pattern with at most one '.' parses, a bare name is top level, more dots are a panic |
| Ignore.PatternOfString | gir/girgen/typesystem/gir_ident.go:23-48 | printing a dot-free identifier and parsing it back gives the identifier |
| Ignore.StringOfPattern | gir/girgen/typesystem/gir_ident.go:23-48 | parsing a pattern that does not start with '.' and printing it gives the text back |
| Ignore.IgnoreOr | gir/girgen/typesystem/ignore.go:11-29 | a single function is used as it is |
| Ignore.AnyIgnoresExists | gir/girgen/typesystem/ignore.go:20-27 | the loop over the functions reports true exactly when some function ignores the item |
| Ignore.IgnoreOrIsAny | gir/girgen/typesystem/ignore.go:11-29 | the combined function ignores an item exactly when one of the functions does; no functions ignore nothing |
| Ignore.IgnoreMatching | gir/girgen/typesystem/ignore.go:31-37 | a malformed pattern is a panic; otherwise an item is ignored exactly when the pattern matches it |
| Ignore.RegexSubject | gir/girgen/typesystem/ignore.go:39-48 | the expression sees the bare name at top level and "parent.name" otherwise |
| Ignore.IgnoreByRegex | gir/girgen/typesystem/ignore.go:39-48 | an item is ignored exactly when the expression matches its subject text |
| Ignore.RegexSubjectIsIdString | gir/girgen/typesystem/ignore.go:39-48 | the subject text is the identifier as it prints |
| Members.BaseOf | gir/girgen/typesystem/member.go:59-67 | base 0 of strconv.ParseInt: a literal not starting with '0' is decimal and keeps all its digits; a leading '0' selects binary, octal or hexadecimal |
| Members.ParseUnsigned | gir/girgen/typesystem/member.go:59-67 | an empty literal is a syntax error |
| Members.ParseInt | gir/girgen/typesystem/member.go:59-67 | a value read is within int64; an empty literal is an error |
| Members.Wrap32 | gir/girgen/typesystem/member.go:66 | int32(v) lies in the int32 range and equals v modulo 2^32 |
| Members.Wrap32Identity | gir/girgen/typesystem/member.go:66 | a value that fits in int32 is kept |
| Members.Wrap32Periodic | gir/girgen/typesystem/member.go:66 | the conversion depends only on the value modulo 2^32 |
| Members.ValueToInt32 | gir/girgen/typesystem/member.go:59-67 | a value that does not parse as an int64 literal is a panic; otherwise the text is a non-empty integer without a decimal point |
| Members.ValueToInt32Reads | gir/girgen/typesystem/member.go:53-67 | the printed value reads back as an int32 equal to the parsed literal modulo 2^32 |
| Members.ParseIntFormatInt | gir/girgen/typesystem/member.go:59-67 | every int64 printed in decimal reads back as itself |
| Members.ValueToInt32KeepsInt32 | gir/girgen/typesystem/member.go:59-67 | a decimal int32 value comes out as it went in |
| Members.ValueToInt32Unsigned | gir/girgen/typesystem/member.go:59-67 | an unsigned literal within int64, in any base, comes out as its int32 wrap printed in decimal |
| Members.ValueToInt32WrapsHex | gir/girgen/typesystem/member.go:53-67 | 0xFFFFFFFF, beyond int32, wraps to -1 |
| Members.ParseOctal | gir/girgen/typesystem/member.go:60 | a leading zero reads the rest as octal digits |
| Members.ValueToInt32Octal | gir/girgen/typesystem/member.go:59-67 | "010" is octal 8 |
| Members.ValueToInt32Zero | gir/girgen/typesystem/member.go:59-67 | a lone "0" is zero |
| Members.ValueToInt32Rejects | gir/girgen/typesystem/member.go:59-67 | an empty literal, a bare "0x", an 8 among octal digits and a decimal point are all panics |
| Members.NewMember | gir/girgen/typesystem/member.go:32-51 | a non-introspectable or skipped member gives nothing; otherwise a value that is no int64 literal is a panic, and a member made keeps its C identifier, is "C." + that identifier in cgo, is named in Go by the prefix-stripped pascal spelling of the lowered C identifier, and carries the int32 printing of its value, which reads back as an integer |
| Members.FirstByValueSpec | gir/girgen/typesystem/member.go:71-92 | the map from value to member has every value of the input as a key, each mapped to the first member carrying it |
| Members.FirstOfValuePrefix | gir/girgen/typesystem/member.go:75-82 | the first member of a value in a prefix stays first in the whole list, so later duplicates never replace it |
| Members.MapEntries | gir/girgen/typesystem/member.go:80-84 | the walk over the map yields each entry exactly once |
| Members.Uniques | gir/girgen/typesystem/member.go:71-92 | one member per value, each the first in the input carrying that value, every value of the input covered, sorted by Go name |
| Members.SameEntries | gir/girgen/typesystem/member.go:84-90 | sorting the map's entries keeps distinct values, first members and coverage |
| Env.LocalLookupOrder | gir/girgen/typesystem/namespace.go:269-324 | the local lookup returns the first match in the order manual types, aliases, classes, interfaces, records, callbacks, enumerations, bitfields; it finds nothing exactly when no type in that order matches |
| Env.ReferencedNamespace | gir/girgen/typesystem/env.go:170-194 | a name with more than one dot is a panic; a foreign result comes from "Inc.T" with Inc an included namespace other than the own one; any other result is the own namespace |
| Env.ReferencedNamespaceOfName | gir/girgen/typesystem/env.go:170-194 | "T" is local and kept whole; "Own.T" is local T, "Inc.T" is T in the included namespace Inc, and an unknown namespace gives nothing |
| Env.ReferencedNamespaceTooManyParts | gir/girgen/typesystem/env.go:173-176 | a name with two dots is a panic whatever the namespaces are |
| Env.LookupInSound | gir/girgen/typesystem/env.go:223-278 | builtin primitives shadow local types and carry no namespace; a local type comes from the target's search order, matching the cleaned C type or the GIR name, and carries the target's namespace exactly when it is foreign; nothing is found only when no builtin and no local type has the GIR name |
| Env.IncompatibleNeverFound | gir/girgen/typesystem/env.go:223-278 | a C type without Go counterpart is never found, whatever its name |
| Env.FindTypeByGIRName | gir/girgen/typesystem/env.go:280-317 | a type found without namespace is a builtin or a local type; a type with namespace came from a "Ns.T" name; a type found has the GIR name the (replaced) name refers to; an incompatible name is not found |
| Env.InnerTypes | gir/girgen/typesystem/container.go:83-110 | resolved inner types are as many as the written ones |
| Env.InnerTypesSpec | gir/girgen/typesystem/container.go:83-110 | the inner types resolve exactly when each is found and is not gpointer; they are then in source order, each with its namespace |
| Env.ContainerInstance | gir/girgen/typesystem/container.go:83-110 | an instance is built only for the container asked for and only when the inner type count matches the container's |
| Env.ResolveContainerInnerTypes | gir/girgen/typesystem/container.go:83-110 | the loop computes the container instance as specified |
| Env.Instantiate | gir/girgen/typesystem/env.go:197-220 | a bare container is never returned; with inner types the result is an instance with that many inner types; a plain type is returned as found only without inner types |
| Env.FindType | gir/girgen/typesystem/env.go:197-220 | a type found is never a bare container, and a type written with inner types is found as a container instance with exactly those inner types |
| Env.InnerTypesNeedContainer | gir/girgen/typesystem/env.go:204-208 | inner types on a type that is not a container find nothing |
| Env.ArrayOfSpec | gir/girgen/typesystem/array.go:162-198 | an array is built exactly when its element type is found; its cgo spelling keeps the array's stars, and the element pointer count is the one written in the element's C type, or else the element type's minimum |
| Env.GetArrayTypeNone | gir/girgen/typesystem/array.go:86-103 | no element type, no C type, or no bound (length, fixed size, zero termination) gives no array |
| Env.GetArrayTypeSpec | gir/girgen/typesystem/array.go:86-199 | an array built has a bound and keeps the GIR name, C type, fixed size and zero termination; it has no element type exactly when it is a byte slice or a string; an element type is never a bare container |
| Env.FindAnyType | gir/girgen/typesystem/env.go:140-165 | a type and an array at once is a panic; a type is looked up with findType; an array found carries no namespace; varargs are not found |
| Env.VersionWindowMonotone | gir/girgen/typesystem/env.go:120-138 | raising the minimum version skips more deprecated items and lowering the maximum skips more new ones |
| Env.UnsetWindowSkipsNothing | gir/girgen/typesystem/env.go:120-138 | with neither bound set nothing is skipped for its version |
| Env.IdentifierToGoSpec | gir/girgen/typesystem/env.go:320-333 | without a matching prefix the identifier is kept; otherwise it is the first matching prefix, then one "_" when there is one, then the result |
| Env.SymbolToGo | gir/girgen/typesystem/env.go:337-349 | a symbol without a known prefix is a panic; otherwise the stripped symbol is converted from snake_case |
| Env.TrampolinePrefix | gir/girgen/typesystem/env.go:80-82 | the prefix starts with "_goglib_" and the Go package name |
| Env.TrampolinePrefixDistinct | gir/girgen/typesystem/env.go:80-82 | two major versions of one package get different trampoline prefixes |
| Env.Rank | gir/girgen/typesystem/env.go:43-78 | context.Context parameters sort first and errors last, everything else between; returns know no first place |
| Env.SortGoParams | gir/girgen/typesystem/env.go:47-63 | the parameters are rearranged, not changed, with every context.Context before and every error after the rest |
| Env.SortGoReturns | gir/girgen/typesystem/env.go:68-78 | the results are rearranged, not changed, with every error last |
| Env.RankSortedMeaning | gir/girgen/typesystem/env.go:43-63 | in sorted parameters nothing precedes a context.Context and nothing follows an error |
| Env.FindLocalType | gir/girgen/typesystem/namespace.go:269-324 | a local type found is in the search order and matches the key; nothing is found exactly when no local type matches |
| Env.FindOuterType | gir/girgen/typesystem/env.go:223-278 | an incompatible C type is never found; otherwise the lookup fails exactly when the referenced namespace is invalid, and a type found is the one the referenced namespace holds |
| Env.GetArrayType | gir/girgen/typesystem/array.go:86-199 | no element type or no C type gives no array; an array built has a bound and keeps the GIR name and C type; a failure comes from the element lookup; void* arrays are unsafe.Pointer in cgo and []byte in Go |
| Env.IdentifierToGo | gir/girgen/typesystem/env.go:320-333 | the result is a suffix of the identifier, and the identifier is kept when no prefix matches |
| Env.Skip | gir/girgen/typesystem/env.go:86-118 | an ignored item and a manually written type are always skipped; with no version window an item is skipped exactly when it is ignored or written by hand |
| Params.ParamValid | gir/girgen/typesystem/parameters.go:180-221 | implicit and skipped parameters are valid; an inout convertible parameter is a panic; untyped pointers are invalid; a valid parameter passes the transfer check of its direction and mode and the type's own check or its pointer bounds |
| Params.ModesSwapDirections | gir/girgen/typesystem/parameters.go:185-208 | a callback's in parameter is checked as a callable's out parameter is, and the other way round |
| Params.BuildInstanceParam | gir/girgen/typesystem/parameters.go:263-316 | the instance parameter is carg0, an in parameter of one pointer owned by the caller, found locally; a missing type, an array, a foreign type or a pointer count other than one makes the callable not resolvable |
| Params.Direction | gir/girgen/typesystem/parameters.go:352-357 | the direction is never empty and a written direction is kept |
| Params.DefaultTransfer | gir/girgen/typesystem/parameters.go:366-377 | a written transfer is kept; otherwise in parameters are full, caller-allocated out parameters none |
| Params.OutNullable | gir/girgen/typesystem/parameters.go:379-384 | an out parameter that becomes a plain value cannot be nil; other parameters keep their nullability |
| Params.BuildParam | gir/girgen/typesystem/parameters.go:318-411 | inout is not resolvable; no type and no array is a panic; maybe resolvable exactly when the type (one pointer less for out) is not found; a parameter built keeps its direction and skip flag, is not yet implicit or linked, and has the C type's pointer count less one for out |
| Params.OutPointerCountNonNegative | gir/girgen/typesystem/parameters.go:328-343 | an out parameter that had a pointer to lose never gets a negative count, so the second check cannot fire |
| Params.BuildParams | gir/girgen/typesystem/parameters.go:318-349 | a parameter that does not resolve ends the loop with no parameters |
| Params.BuildParamsSpec | gir/girgen/typesystem/parameters.go:318-349 | on success one parameter per GIR parameter, each built on its own; otherwise the outcome of some parameter, all earlier ones having resolved |
| Params.GoIndices | gir/girgen/typesystem/parameters.go:413-420 | exactly the indices of the non-skipped in parameters (Go parameters) or out parameters (Go returns), in increasing order |
| Params.BuildGirParams | gir/girgen/typesystem/parameters.go:318-421 | the loop builds the GIR parameters as specified and collects the Go parameter and return indices |
| Params.MarkedBeforeStep | gir/girgen/typesystem/parameters.go:425-447 | a parameter is referred to by the first i + 1 parameters exactly when it is by the first i or by parameter i |
| Params.LinkClosure | gir/girgen/typesystem/parameters.go:427-436 | a closure index out of range is a panic; otherwise the parameter's own closure link is set and the target is the closure index |
| Params.LinkDestroy | gir/girgen/typesystem/parameters.go:438-441 | a destroy index out of range is a panic; otherwise the destroy link is set and the target is that index |
| Params.LinkLength | gir/girgen/typesystem/parameters.go:442-446 | an array length on a non-array or out of range is a panic; otherwise the array's length link is set and the target is that index |
| Params.Mark | gir/girgen/typesystem/parameters.go:430-445 | the target, if any, becomes implicit and nothing else changes |
| Params.LinkOne | gir/girgen/typesystem/parameters.go:425-447 | a bad link is a panic; otherwise parameter i gets its own links and every parameter it refers to is marked |
| Params.LinkParams | gir/girgen/typesystem/parameters.go:425-447 | the loop panics exactly when some link is bad; otherwise each parameter gets its own links and is implicit exactly when it was or some parameter refers to it |
| Params.BuildReturn | gir/girgen/typesystem/parameters.go:450-497 | the return is cret, found by its type, with transfer full unless written; it borrows exactly when the transfer is borrow. It is a panic exactly when the type lookup panics and maybe resolvable exactly when the type is not found. It is not resolvable exactly when the type is found and a borrow has no instance parameter |
| Params.ThrowParam | gir/girgen/typesystem/parameters.go:500-530 | the error parameter is _cerr, a nullable optional out parameter of one pointer owned by the caller |
| Params.BuildThrows | gir/girgen/typesystem/parameters.go:500-530 | a panic exactly when looking up GLib.Error panics, nothing exactly when GLib.Error is not found, otherwise the error parameter built from that lookup |
| Params.CheckValid | gir/girgen/typesystem/parameters.go:533-543 | true exactly when every C parameter and the C return are valid; a panic only when one of them panics; the result is ValidCheck's, the first check in list order that is not true |
| Params.ValidCheck | gir/girgen/typesystem/parameters.go:533-543 | Ok(true) exactly when every C parameter and the C return are valid |
| Params.SortedByPlace | gir/girgen/typesystem/parameters.go:545-546 | the list is rearranged, not changed, into place order |
| Params.GirStage | gir/girgen/typesystem/parameters.go:318-447 | agrees with GirSpec: a panic exactly when the loop or a link panics; otherwise the outcome of the first parameter that does not resolve, and resolved when every parameter builds and no link is bad. On success there is one parameter per GIR parameter, built and linked. The Go parameters are the in indices, and the Go returns are the GIR parameters at the out indices, in order |
| Params.ParamsStage | gir/girgen/typesystem/parameters.go:263-447 | agrees with ParamsSpec: an instance parameter that panics is a panic, and one that does not resolve makes the callable not resolvable; then the GIR stage. On success the instance parameter is present exactly when the callable has one and is the one built. The GIR parameters are built by the given builder (Declare gives the environment's) and linked. The Go parameters are the in indices and the Go returns the GIR parameters at the out indices |
| Params.ReturnStage | gir/girgen/typesystem/parameters.go:450-497 | agrees with ReturnSpec: without a return value the draft is kept. Otherwise it is BuildReturn's outcome, and on success BuildReturn's C return, with a Go return for it appended exactly when its type is not none. A borrowing return has an instance; earlier parameters are kept |
| Params.ThrowsStage | gir/girgen/typesystem/parameters.go:500-530 | agrees with ThrowsSpec: a non-throwing callable keeps its draft. For a throwing one, a failed GLib.Error lookup is a panic and a missing GLib.Error makes it not resolvable. Otherwise BuildThrows' _cerr is appended last to the GIR parameters and to the Go returns |
| Params.CParametersIgnoreGoSide | gir/girgen/typesystem/parameters.go:224-235 | reordering the Go parameters and returns leaves the C parameter list as it was |
| Params.Finish | gir/girgen/typesystem/parameters.go:533-548 | agrees with FinishSpec: resolved exactly when every C parameter and the C return are valid, not resolvable when one is not, a panic when a check panics. A result keeps the C side and holds the Go parameters and returns rearranged into place order |
| Params.AfterReturn | gir/girgen/typesystem/parameters.go:500-548 | agrees with AfterReturnSpec: the error stage, then the final check; a result has a valid C side and its Go side in place order |
| Params.NewGenericParameters | gir/girgen/typesystem/parameters.go:258-549 | agrees with SignatureSpec: the parameter, return and error stages and the final check run in order, each only after the one before resolved. The result is the panic or outcome of the first that does not resolve, or the resolved draft with its Go side rearranged. A resolved callable has only valid C parameters and C return, a borrowing return only with an instance, and _cerr last and among the Go returns when it throws. Its in parameters are the Go parameters, with context.Context first and error last. Its leading GIR parameters are the callable's, each built by the given builder and linked |
| Params.LaterStages | gir/girgen/typesystem/parameters.go:450-548 | agrees with LaterSpec: the return stage, then the error stage and the final check. A result has a valid C side and its instance parameter. It has a C return exactly when the callable has a return value, and a borrowing return only with an instance. The GIR parameters keep their prefix and gain _cerr exactly when the callable throws. The Go parameters are a reordering of the draft's into place order |
| Params.FirstFailingParam | gir/girgen/typesystem/parameters.go:318-350 | the parameter loop's outcome is that of the first parameter that does not resolve, with no parameters |
| Params.FirstFailureDecides | gir/girgen/typesystem/parameters.go:258-350 | once the instance parameter resolves, the first GIR parameter that does not resolve decides the callable's outcome, and no later stage runs |
| Params.InoutNotResolvable | gir/girgen/typesystem/parameters.go:319-322 | an inout parameter after parameters that resolve makes the callable not resolvable |
| Params.UnknownTypeMaybeResolvable | gir/girgen/typesystem/parameters.go:345-350 | an in parameter whose type is not found, after parameters that resolve, makes the callable maybe resolvable |
| Params.StagesResolve | gir/girgen/typesystem/parameters.go:258-549 | a callable whose stages all resolve and whose C side is valid resolves, with the draft the stages built |
| Params.SignatureDraft | gir/girgen/typesystem/parameters.go:258-549 | a resolved callable's draft has the instance parameter as built and the GIR parameters built and linked, then BuildThrows' error parameter when the callable throws. It has BuildReturn's C return exactly when there is a return value. The Go parameters are the in indices; the Go returns are the out indices, then the C return unless its type is none, then the error. Its C side is valid |
| Params.SignatureStages | gir/girgen/typesystem/parameters.go:258-549 | a resolved callable went through the parameter, return and error stages, each resolved in turn, and its final draft has a valid C side |
| Params.ParamsLayer | gir/girgen/typesystem/parameters.go:258-447 | a resolved callable resolved its parameter stage, and the rest is the later stages on that draft |
| Params.ReturnLayer | gir/girgen/typesystem/parameters.go:450-497 | resolved later stages resolved the return stage, and the rest is the error stage and final check on that draft |
| Params.ThrowsLayer | gir/girgen/typesystem/parameters.go:500-530 | a resolved error stage and final check resolved the error stage, and the rest is the final check on that draft |
| Params.StagesGirSide | gir/girgen/typesystem/parameters.go:263-530 | the three stages leave the instance parameter as built and the GIR parameters linked, followed by BuildThrows' error parameter when the callable throws |
| Params.StagesReturns | gir/girgen/typesystem/parameters.go:318-530 | the three stages leave BuildReturn's C return exactly when there is a return value, the in indices as Go parameters, and the Go returns in GIR order, then the C return unless its type is none, then the error |
| Params.GirDraft | gir/girgen/typesystem/parameters.go:318-447 | the GIR stage's draft: parameters built and linked, no instance parameter or C return yet, the in indices as Go parameters and the out indices as Go returns |
| Params.ParamsDraft | gir/girgen/typesystem/parameters.go:263-447 | the parameter stage's draft: the instance parameter as built and present exactly when the callable has one, and the GIR stage's parameters and Go indices |
| Params.ReturnDraft | gir/girgen/typesystem/parameters.go:450-497 | the return stage's draft: BuildReturn's C return, and a Go return for it after the earlier ones unless its type is none; nothing else changes |
| Params.ThrowsDraft | gir/girgen/typesystem/parameters.go:500-530 | the error stage's draft: BuildThrows' parameter last among the GIR parameters and the Go returns of a throwing callable; nothing else changes |
| Params.FinishDraft | gir/girgen/typesystem/parameters.go:533-548 | the final check keeps the draft, which then has a valid C side |
| Params.AfterReturnDraft | gir/girgen/typesystem/parameters.go:500-548 | the error stage and the final check leave the error stage's draft, with _cerr as the new last GIR parameter of a throwing callable |
| Params.LaterDraft | gir/girgen/typesystem/parameters.go:450-548 | the later stages keep the instance parameter and Go parameters, add a C return exactly when there is a return value (borrowing only with an instance), and add _cerr last, among the Go returns, exactly when the callable throws |
| Params.GoIdentifiers | gir/girgen/typesystem/parameters.go:567-579 | the Go identifiers are the Go names of exactly the parameters that are neither skipped nor implicit, in list order |
| Params.CIdentifiers | gir/girgen/typesystem/parameters.go:581-589 | the C identifiers are the C names of all parameters, skipped and implicit ones included, in order |
| Params.GoVisibleParamsExactly | gir/girgen/typesystem/parameters.go:553-565 | the Go side sees a parameter iff it is listed and neither skipped nor implicit, and never more parameters than listed |
| Params.GoVisibleParamsAppend | gir/girgen/typesystem/parameters.go:553-565 | what the Go side sees of two lists joined is what it sees of each, in order |
| TypeSystem.BaseCGoType | gir/girgen/typesystem/type.go:30-32 | the cgo spelling ends in the cgo name and carries exactly the requested number of extra pointer stars |
| TypeSystem.BaseCType | gir/girgen/typesystem/type.go:35-37 | the C spelling starts with the C name and carries exactly the requested number of extra pointer stars |
| TypeSystem.BaseGoType | gir/girgen/typesystem/type.go:40-45 | a Go builtin is never rendered as a pointer; any other name gets one leading star per pointer |
| TypeSystem.GetTransferFromGlibFunction | gir/girgen/typesystem/type_conversion.go:56-67 | only none, full and borrow transfers have a function from C, and it is one of the three stored ones |
| TypeSystem.GetTransferToGlibFunction | gir/girgen/typesystem/type_conversion.go:70-79 | only none and full transfers have a function towards C, and it is one of the two stored ones |
| TypeSystem.TransferTables | gir/girgen/typesystem/type_conversion.go:30-79 | the Get functions come back empty exactly when the Can predicates say the transfer is impossible; container transfer is never possible and borrow only from C |
| TypeSystem.NewDefaultBaseConversions | gir/girgen/typesystem/type_conversion.go:81-90 | the default conversions allow exactly none/full/borrow from C and none/full towards C, each named Unsafe<name><direction><transfer> |
| TypeSystem.WithForeignNamespace | gir/girgen/typesystem/foreign.go:16-31 | builtins and local identifiers are unchanged; a foreign one gets its package and a dot inserted right after the last star, keeping the star count |
| TypeSystem.NamespacedGoType | gir/girgen/typesystem/foreign.go:34-40 | a foreign type's Go spelling is qualified by its package, except a container instance, whose spelling already names its parts |
| TypeSystem.BuiltinGoTypeIgnoresPointers | gir/girgen/typesystem/type.go:40-45 | a type whose Go name is a builtin renders the same at every pointer depth, foreign or not |
| TypeSystem.ArrayGoTypeShape | gir/girgen/typesystem/array.go:62-72 | an array without override renders as [N]T for a positive fixed size and []T otherwise |
| TypeSystem.MinPointers | gir/girgen/typesystem/parameter_check.go:7-9 | classes, interfaces, strings and containers need one pointer, an array one more than its element, a record at most one, and the other kinds state no minimum |
| TypeSystem.RecordMinPointers | gir/girgen/typesystem/record.go:210-220 | a record needs a pointer exactly when it is foreign or disguised |
| TypeSystem.MaxPointers | gir/girgen/typesystem/parameter_check.go:11-13 | classes, interfaces, strings, records and containers allow one pointer, an array one more than its element, enums, bitfields and callbacks none, and the others state no maximum |
| TypeSystem.PointersAllowedInterval | gir/girgen/typesystem/parameter_check.go:23-33 | pointer check is the interval test min <= n <= max, a missing bound constraining nothing |
| TypeSystem.BoundsConsistent | gir/girgen/typesystem/parameter_check.go:15-33 | every type with both bounds has min <= max, so its minimum pointer count is allowed |
| TypeSystem.ExactlyOnePointer | gir/girgen/typesystem/class.go:83-90 | classes, interfaces, strings and containers require a pointer and allow exactly one |
| TypeSystem.RecordPointers | gir/girgen/typesystem/record.go:210-225 | a record requires a pointer iff it is foreign or disguised, and allows counts from that minimum up to one |
| TypeSystem.CParameters | gir/girgen/typesystem/parameters.go:224-235 | the C parameter list is the instance parameter, if any, followed by the GIR parameters in order |
| TypeSystem.CGoReturn | gir/girgen/typesystem/parameters.go:238-248 | there is a C return to convert exactly when the C return exists and is not void |
| TypeSystem.ClassObj.constructor | gir/girgen/typesystem/class.go:12-71 | a declared class starts with no base class, GType, type struct, parent, interfaces or nested declarations, not final, and with an acyclic (empty) parent chain |
| TypeSystem.ClassObj.RedundantImplementsIff | gir/girgen/typesystem/class.go:249-261 | an interface is redundant exactly when this class or one of its ancestors already lists it |
| TypeSystem.ClassObj.Resolve | gir/girgen/typesystem/class.go:151-247 | resolving a class panics without GObject.Object or GType, asks for a retry on a foreign/missing type struct, a missing parent or a non-interface implement, and otherwise sets base, GType, type struct, final flag, parent and the new interfaces while keeping the parent chain acyclic |
| TypeSystem.ClassObj.ResolveBases | gir/girgen/typesystem/class.go:154-177 | the base class and GType are set exactly when both lookups succeed, and otherwise the panic message is returned |
| TypeSystem.ClassObj.ResolveHead | gir/girgen/typesystem/class.go:151-221 | the steps up to the parent lookup end as the head specification says, marking the type struct and setting final iff there is no type struct or it is disguised |
| TypeSystem.ClassObj.ResolveImplements | gir/girgen/typesystem/class.go:223-244 | the implements loop leaves exactly the list and verdict the loop specification gives, changing nothing else |
| TypeSystem.LocalRecord | gir/girgen/typesystem/class.go:179-197 | a type struct is accepted exactly when it is named, local, found and a record |
| TypeSystem.ClassResolveHead | gir/girgen/typesystem/class.go:151-221 | the head panics exactly when GObject.Object is no class or GType is missing (or the type struct has no GIR data), and reaches the parent exactly when every lookup before it succeeds |
| TypeSystem.AddImplementsOutcome | gir/girgen/typesystem/class.go:223-246 | the implements loop succeeds exactly when every name it finds is an interface, and keeps the starting list as a prefix |
| TypeSystem.AddImplementsFresh | gir/girgen/typesystem/class.go:235-243 | every interface the loop appends was neither listed before, nor implemented by an ancestor, nor appended twice |
| TypeSystem.AddImplementsComplete | gir/girgen/typesystem/class.go:223-244 | on success every interface a name resolves to ends up listed by the class or by an ancestor |
| TypeSystem.PrereqWalkSpec | gir/girgen/typesystem/interface.go:163-184 | the prerequisites loop appends the lookups of the longest accepted prefix in order, succeeds iff that prefix is everything, and otherwise retries on a missing name and gives up on a non-class, non-interface |
| TypeSystem.PrereqRetryDuplicates | gir/girgen/typesystem/interface.go:163-182 | as written, a retry after a missing prerequisite lists GObject.Object twice; the corrected resolve lists it once |
| TypeSystem.InterfaceObj.constructor | gir/girgen/typesystem/interface.go:11-50 | a declared interface starts with no type struct, parent or prerequisites |
| TypeSystem.InterfaceObj.ResolveAsWritten | gir/girgen/typesystem/interface.go:122-185 | the outcome is the interface specification's; the prerequisites found are appended to whatever earlier passes left |
| TypeSystem.InterfaceObj.Resolve | gir/girgen/typesystem/interface.go:122-185 | the outcome is the interface specification's; after the head succeeds the prerequisites are exactly the ones this pass found |
| TypeSystem.InterfaceObj.ResolveParent | gir/girgen/typesystem/interface.go:125-161 | the head succeeds iff the type struct (if named) is a local record and GObject.Object is a class, and then the parent is GObject.Object |
| TypeSystem.InterfaceObj.AppendPrerequisites | gir/girgen/typesystem/interface.go:163-182 | the loop's outcome and appended entries are the walk specification's, leaving type struct and parent alone |
| TypeSystem.TypeStructConversions | gir/girgen/typesystem/record.go:98-104 | a type struct keeps only borrowing from C and handing to C without ownership, and only where those were possible |
| TypeSystem.NestedMethodsAppend | gir/girgen/typesystem/record.go:118-167 | the record's methods loop over a list with one more method is the loop over the list followed by one step |
| TypeSystem.NestedMethodsDeclared | gir/girgen/typesystem/record.go:154-163 | every method the loop adds is the declaration of a GIR method with an ordinary name, and a recorded Copy is one of them with the copy shape |
| TypeSystem.NestedMethodsUnref | gir/girgen/typesystem/record.go:133-152 | the unref function changes only when a method is named unref, free or destroy, and then it is that method's C function with no cast |
| TypeSystem.RecordObj.constructor | gir/girgen/typesystem/record.go:11-49 | a declared record starts with its given conversions and unref function, no ref function, no methods, no copy method and no class it is the type struct for |
| TypeSystem.RecordObj.MarkAsTypestructFor | gir/girgen/typesystem/record.go:92-107 | the first class to claim a record owns it and the record drops the ownership-taking conversions; a second claim changes nothing |
| TypeSystem.RecordObj.DeclareNestedMethod | gir/girgen/typesystem/record.go:119-166 | one turn of the methods loop moves the record's method state by exactly one specification step |
| TypeSystem.RecordObj.DeclareNestedMethods | gir/girgen/typesystem/record.go:118-167 | the methods loop leaves the record's method state as the loop specification says and its conversions untouched |
| TypeSystem.RecordObj.ParentTypeStruct | gir/girgen/typesystem/record.go:187-207 | there is a parent type struct exactly when the record is a type struct whose class has a parent with a type struct, and it lives in the parent's namespace |
| TypeSystem.CallbackObj.constructor | gir/girgen/typesystem/callback.go:9-20 | a declared callback starts without parameters or user-data parameter |
| TypeSystem.CallbackObj.ResolveParameters | gir/girgen/typesystem/callback.go:51-83 | retries and failures pass through untouched, a success without parameters panics, and a success resolves iff some C parameter carries user data, the first such one becoming the user-data parameter |
| TypeSystem.AliasObj.constructor | gir/girgen/typesystem/alias.go:7-15 | a declared alias starts without an aliased type |
| TypeSystem.AliasObj.Resolve | gir/girgen/typesystem/alias.go:43-67 | the outcome is the alias specification's and the aliased type is set exactly on success |
| TypeSystem.CallbackParamRule | gir/girgen/typesystem/callback.go:91-93 | a callback parameter is allowed iff it has no pointer, a closure, and a destroy notify when its scope is notified; such a parameter also meets the callback's pointer bound |
| TypeSystem.AliasOutcome | gir/girgen/typesystem/alias.go:43-67 | an alias retries exactly when its target is missing and resolves exactly when the target is neither void nor pointer-requiring |
| TypeSystem.AliasTargetTakesNoPointer | gir/girgen/typesystem/alias.go:56-66 | a resolved alias's target may be used with zero pointers |
| TypeSystem.CTypeOrName | gir/girgen/typesystem/class.go:111-115 | the C type falls back to the name only when the c:type is empty, and is empty only if both are |
| TypeSystem.ObjectBase | gir/girgen/typesystem/class.go:138-143 | a class's Go type is its name plus Instance and its cgo type is C. followed by the C type |
| TypeSystem.DeclareClass | gir/girgen/typesystem/class.go:92-149 | a class is declared iff it is introspectable, not skipped and has a parent, with default conversions named after it and a fresh unresolved state |
| TypeSystem.DeclareInterface | gir/girgen/typesystem/interface.go:71-120 | an interface is declared iff it is introspectable and not skipped, with default conversions named after it |
| TypeSystem.DeclareRecord | gir/girgen/typesystem/record.go:51-89 | a record is declared iff it is introspectable, not skipped and not named *Private, freed with C.free through an unsafe cast until a free or unref method is found |
| TypeSystem.DeclareCallback | gir/girgen/typesystem/callback.go:26-49 | a callback is declared iff it is introspectable and not skipped, with its trampoline named <prefix>_<name> |
| TypeSystem.DeclareAlias | gir/girgen/typesystem/alias.go:17-41 | an alias is declared iff it is introspectable and not skipped, its Go name being its GIR name |
| TypeSystem.ClassObj.DeclareNested | gir/girgen/typesystem/class.go:263-315 | the class gains the declared functions, constructors and methods in GIR order, never a weak_ref, weak_unref, ref or unref method, and virtual methods only when it has a type struct |
| TypeSystem.DeclareEach | gir/girgen/typesystem/class.go:272-288 | a declaring loop yields exactly the declarations of the callables whose name is not skipped, in order |
| TypeSystem.DeclaredAppend | gir/girgen/typesystem/class.go:272-288 | declaring two lists one after the other declares their concatenation |
| TypeSystem.DeclaredExactly | gir/girgen/typesystem/class.go:272-288 | a signature is declared iff some callable with a name that is not skipped declares to it, and there are no more declarations than callables |
| TypeSystem.ContainerParamRule | gir/girgen/typesystem/container.go:26-30 | a container or container instance is allowed for a parameter iff the parameter is the return value |
| TypeSystem.CType | gir/girgen/typesystem/type.go:5-11 | a string is gchar*; a type other than an array or string ends with the requested pointer stars; an array without override always ends with a star |
| TypeSystem.CGoType | gir/girgen/typesystem/type.go:5-11 | a string is *C.gchar; a type other than an array or string starts with the requested pointer stars; an array without override always starts with a star |
| TypeSystem.GoType | gir/girgen/typesystem/type.go:5-11 | a string is string, a bare container has no Go type, a container instance and an array without override are slices or arrays, and a class or interface behind a pointer is its Go interface |
| TypeSystem.PrereqWalk | gir/girgen/typesystem/interface.go:163-184 | the prerequisites loop appends no more entries than names and succeeds exactly when it appends one per name |
| TypeSystem.AddImplements | gir/girgen/typesystem/class.go:223-246 | the implements loop keeps the interfaces already listed and appends at most one per name |
| TypeSystem.NestedMethods | gir/girgen/typesystem/record.go:118-167 | the methods loop keeps the methods already declared and adds at most one per GIR method |
| NamespaceIncludes.LastNamed | gir/girgen/typesystem/namespace_includes.go:150-157 | the last of the first n includes with the given name, if any: no later one has that name |
| NamespaceIncludes.PrefilledIncludes | gir/girgen/typesystem/namespace_includes.go:148-159 | every include name maps to the versioned name of the last include with that name, and nothing else is in the map |
| NamespaceIncludes.Placeholders | gir/girgen/typesystem/namespace_includes.go:63-66 | before collection a namespace's includes map has the prefilled names, each holding only the included versioned name |
| NamespaceIncludes.StackReaches | gir/girgen/typesystem/namespace_includes.go:106-112 | every namespace on the collection stack reaches the one on top along includes |
| NamespaceIncludes.FinishOrdered | gir/girgen/typesystem/namespace_includes.go:120-123 | numbering a namespace next keeps every found include of a finished namespace either finished before it or still being collected |
| NamespaceIncludes.FinishClosed | gir/girgen/typesystem/namespace_includes.go:106-123 | storing the collected map keeps every finished namespace holding the names of its found includes and of the includes they hold |
| NamespaceIncludes.FinishSound | gir/girgen/typesystem/namespace_includes.go:106-123 | storing a map whose names all come from found includes keeps every name a finished namespace holds justified by its includes |
| NamespaceIncludes.FewerUnvisited | gir/girgen/typesystem/namespace_includes.go:99 | marking a namespace visited leaves fewer unvisited ones, so the recursion ends |
| NamespaceIncludes.StartKeepsState | gir/girgen/typesystem/namespace_includes.go:97-99 | marking an unvisited namespace visited and starting its collection keeps the collection state |
| NamespaceIncludes.FinishKeepsState | gir/girgen/typesystem/namespace_includes.go:120-125 | numbering a namespace next, storing its includes and ending its collection keeps the collection state |
| NamespaceIncludes.IncludeResolver.constructor | gir/girgen/typesystem/namespace_includes.go:83-89 | nothing visited or numbered yet: every namespace holds its placeholders and index 0 |
| NamespaceIncludes.IncludeResolver.Collect | gir/girgen/typesystem/namespace_includes.go:91-126 | afterwards the namespace is visited and the result is its includes map; what had finished or was being collected keeps its map and index |
| NamespaceIncludes.IncludeResolver.CollectNew | gir/girgen/typesystem/namespace_includes.go:97-125 | an unvisited namespace is collected: it ends visited, numbered and holding the returned map |
| NamespaceIncludes.IncludeResolver.CollectEach | gir/girgen/typesystem/namespace_includes.go:104-125 | the loop over the includes and its end leave the namespace holding the returned map; other finished namespaces are unchanged |
| NamespaceIncludes.IncludeResolver.CollectLoop | gir/girgen/typesystem/namespace_includes.go:104-118 | after the loop every found include is stored under its name with the names it holds copied in, and nothing else is stored |
| NamespaceIncludes.IncludeResolver.Start | gir/girgen/typesystem/namespace_includes.go:97-99 | the namespace is marked visited and nothing else changes |
| NamespaceIncludes.IncludeResolver.CollectInclude | gir/girgen/typesystem/namespace_includes.go:106-117 | a found include is stored under its name and everything its collection returns is copied; a missing one changes nothing |
| NamespaceIncludes.IncludeResolver.Finish | gir/girgen/typesystem/namespace_includes.go:120-125 | the namespace's map becomes the collected one and it gets the next resolve index |
| NamespaceIncludes.IncludeResolver.CollectAll | gir/girgen/typesystem/namespace_includes.go:128-130 | every registered namespace is collected |
| NamespaceIncludes.CollectedOnce | gir/girgen/typesystem/namespace_includes.go:91-123 | no two collected namespaces share a resolve index |
| NamespaceIncludes.IncludedFirst | gir/girgen/typesystem/namespace_includes.go:106-123 | without include cycles every found include of a collected namespace has a lower resolve index |
| NamespaceIncludes.CycleBack | gir/girgen/typesystem/namespace_includes.go:106-112 | an include edge back to a namespace that reaches its source is a cycle |
| NamespaceIncludes.ClosureComplete | gir/girgen/typesystem/namespace_includes.go:106-118 | without include cycles a collected namespace holds the name of every namespace it includes, directly or transitively |
| NamespaceIncludes.DirectName | gir/girgen/typesystem/namespace_includes.go:107-110 | a found include names a namespace that is included |
| NamespaceIncludes.IndirectName | gir/girgen/typesystem/namespace_includes.go:112-114 | what a found include includes, its includer includes too |
| NamespaceIncludes.AllIncludedFirst | gir/girgen/typesystem/namespace_includes.go:106-123 | without include cycles all found includes of a collected namespace finished before it |
| NamespaceIncludes.ClosureSound | gir/girgen/typesystem/namespace_includes.go:106-118 | without include cycles every name a collected namespace holds is that of a namespace it includes |
| NamespaceIncludes.IncludesAreTransitiveClosure | gir/girgen/typesystem/namespace_includes.go:91-130 | without include cycles a collected namespace's includes map holds exactly the names of the namespaces it includes, directly or transitively |
| NamespaceIncludes.RepoEntry | gir/girgen/typesystem/namespace_includes.go:52-75 | a repository entry keeps its repository and has one position per namespace |
| NamespaceIncludes.GatherRepo | gir/girgen/typesystem/namespace_includes.go:57-73 | the namespaces of one repository are appended, and the last namespace of a versioned name holds its entry |
| NamespaceIncludes.AppendNode | gir/girgen/typesystem/namespace_includes.go:58-72 | appending one namespace keeps the gathered graph as the source builds it |
| NamespaceIncludes.NextRepo | gir/girgen/typesystem/namespace_includes.go:49-76 | finishing a repository's namespaces starts the next repository |
| NamespaceIncludes.AllRepos | gir/girgen/typesystem/namespace_includes.go:49-76 | after all repositories the graph and the entries are gathered |
| NamespaceIncludes.NextRange | gir/girgen/typesystem/namespace_includes.go:52-75 | the next repository entry keeps the positions of its own namespaces |
| NamespaceIncludes.Gather | gir/girgen/typesystem/namespace_includes.go:46-76 | all namespaces in iteration order with their repository's prefilled includes; each versioned name maps to the last namespace with it; each repository keeps its namespaces' positions |
| NamespaceIncludes.InsertByIndex | gir/girgen/typesystem/namespace_includes.go:135-141 | inserting into a sorted list keeps it sorted and adds exactly that element |
| NamespaceIncludes.InsertedByIndex | gir/girgen/typesystem/namespace_includes.go:135-141 | an element placed between the keys not above its own and those above it keeps the order |
| NamespaceIncludes.SortByIndex | gir/girgen/typesystem/namespace_includes.go:135-141 | the result is sorted by the key and is a permutation of the input |
| NamespaceIncludes.ResolveNamespaceIncludes | gir/girgen/typesystem/namespace_includes.go:45-144 | every registered namespace is collected; the sort panics exactly when there are two or more repositories and one does not have exactly one namespace; otherwise the result is the repositories sorted by resolve index |
| NamespaceIncludes.AcyclicEdgesDescend | gir/girgen/typesystem/namespace_includes.go:106-123 | without include cycles every include edge out of a collected namespace leads to a lower resolve index |
| NamespaceIncludes.PathDescends | gir/girgen/typesystem/namespace_includes.go:106-123 | along an include path from a collected namespace the resolve indices strictly decrease |
| NamespaceIncludes.DependenciesFirst | gir/girgen/typesystem/namespace_includes.go:132-141 | without include cycles the sorted repositories put every collected namespace after everything it includes |
| Namespaces.Add | gir/girgen/typesystem/namespace.go:186 | the item is appended to its own kind's list and every other list is unchanged |
| Namespaces.Fold | gir/girgen/typesystem/namespace.go:184-226 | a kind's loop never produces more items than it was given |
| Namespaces.FoldGrows | gir/girgen/typesystem/namespace.go:184-226 | a kind's loop only appends to its resolved list and its retry list and changes no other kind |
| Namespaces.FoldOrder | gir/girgen/typesystem/namespace.go:184-226 | resolved items are appended, and retried ones kept, in worklist order |
| Namespaces.FoldCounts | gir/girgen/typesystem/namespace.go:184-226 | every item is resolved, retried or dropped, once; a class is never dropped |
| Namespaces.MovedResolved | gir/girgen/typesystem/namespace.go:184-190 | a resolved item counts as moved once |
| Namespaces.MovedRetried | gir/girgen/typesystem/namespace.go:184-190 | a retried item counts as moved once |
| Namespaces.Pass | gir/girgen/typesystem/namespace.go:178-226 | a pass never lengthens a worklist |
| Namespaces.ResolveAllSpec | gir/girgen/typesystem/namespace.go:177-252 | resolveAll ends after at least one and at most one more pass than there are items |
| Namespaces.PassSpec | gir/girgen/typesystem/namespace.go:178-226 | across a pass the resolved lists only grow; every class is resolved or still waiting; the other kinds only lose items |
| Namespaces.ClassesNeverDropped | gir/girgen/typesystem/namespace.go:177-252 | over the whole of resolveAll every class ends up either resolved or still unresolved |
| Namespaces.Namespace.constructor | gir/girgen/typesystem/namespace.go:10-40 | a new namespace has empty resolved lists |
| Namespaces.Namespace.Append | gir/girgen/typesystem/namespace.go:186 | the resolved lists are those before with the item appended to its kind's list |
| Namespaces.Namespace.ResolveKind | gir/girgen/typesystem/namespace.go:184-226 | one kind's loop changes the resolved lists and gives the items to retry as specified |
| Namespaces.Namespace.ResolveAll | gir/girgen/typesystem/namespace.go:177-252 | the passes leave the resolved lists as specified, stopping when nothing is left or a pass makes no progress, after at most one more pass than there are items |
| CodeWriting.SplitLines | gir/girgen/file/internal/codewriter.go:21 | bytes.SplitAfter on newlines: the pieces join back to the text, each but the last ends its line and the last has no newline |
| CodeWriting.Indentation | gir/girgen/file/internal/codewriter.go:35 | strings.Repeat of the tab: exactly level tabs |
| CodeWriting.CodeWriter.constructor | gir/girgen/file/internal/codewriter.go:8-15 | the zero CodeWriter: empty buffer, level 0, never written, no pending break |
| CodeWriting.CodeWriter.WritePiece | gir/girgen/file/internal/codewriter.go:32-52 | one pass of the loop appends the piece, preceded by the indentation when the line starts, the writer is indented and the piece is longer than one byte, and leaves the other fields alone |
| CodeWriting.CodeWriter.Write | gir/girgen/file/internal/codewriter.go:19-55 | returns the input's byte count (the indentation not counted); buffer and state advance as Written says: pending break first, then the pieces |
| CodeWriting.CodeWriter.Indent | gir/girgen/file/internal/codewriter.go:61-63 | one level more, nothing else changes |
| CodeWriting.CodeWriter.Unindent | gir/girgen/file/internal/codewriter.go:65-72 | panics exactly at level 0 and changes nothing then; otherwise one level less and the pending break is dropped |
| CodeWriting.CodeWriter.NewSection | gir/girgen/file/internal/codewriter.go:78-81 | a break is pending; buffer, level and line-start state are unchanged |
| CodeWriting.Step | gir/girgen/file/internal/codewriter.go:19-81 | one call on a writer: only an Unindent at level 0 fails, and only a Write emits text |
| CodeWriting.SectionBreakComesFirst | gir/girgen/file/internal/codewriter.go:26-81 | after NewSection the next Write emits the newline before its own output |
| CodeWriting.UnindentCancelsSection | gir/girgen/file/internal/codewriter.go:65-81 | NewSection then Unindent then Write acts as if NewSection had not been called |
| CodeWriting.LineEmitted | gir/girgen/file/internal/codewriter.go:32-52 | a whole line at a line start comes out with level tabs unless it is empty, and leaves the writer at a line start |
| CodeWriting.WholeLinesEmitted | gir/girgen/file/internal/codewriter.go:32-52 | the loop over whole lines emits each non-empty line indented and ends at a line start |
| CodeWriting.WholeLinesAreIndented | gir/girgen/file/internal/codewriter.go:19-55 | writing whole lines at a line start emits the pending break and then each non-empty line indented by the current level |
| CodeWriting.LineWritten | gir/girgen/file/internal/codewriter.go:19-55 | the same for one line |
| CodeWriting.RootWritten | gir/girgen/file/internal/codewriter_test.go:13-21 | the root-level writes of TestCodeWriter come out unchanged |
| CodeWriting.ChildrenWritten | gir/girgen/file/internal/codewriter_test.go:15-19 | the level-1 writes of TestCodeWriter come out with one tab per line |
| CodeWriting.TwoChildrenWritten | gir/girgen/file/internal/codewriter_test.go:15 | one write of two lines at level 1 indents both |
| CodeWriting.GrandchildWritten | gir/girgen/file/internal/codewriter_test.go:17 | the level-2 write comes out with two tabs |
| CodeWriting.NestedLinesAreIndented | gir/girgen/file/internal/codewriter_test.go:10-38 | the whole call sequence of TestCodeWriter produces exactly its expected text |
| CodeWriting.NestedRun | gir/girgen/file/internal/codewriter_test.go:13-21 | the run of TestCodeWriter's calls is the concatenation of its writes' outputs |
| CodeWriting.NoIndentInside | gir/girgen/file/internal/codewriter.go:32-52 | the reference indentation puts nothing inside a piece that starts mid-line |
| CodeWriting.PieceFixed | gir/girgen/file/internal/codewriter.go:32-52 | the corrected per-piece rule agrees with the reference indentation on every piece |
| CodeWriting.PiecesFixed | gir/girgen/file/internal/codewriter.go:32-52 | the corrected loop emits the reference indentation of the joined pieces |
| CodeWriting.CorrectedWriteIsIndented | gir/girgen/file/internal/codewriter.go:19-55 | the corrected Write emits the pending break and the reference indentation of its text, however it is cut into lines |
| CodeWriting.CorrectedWritesCompose | gir/girgen/file/internal/codewriter.go:19-55 | with the correction two writes emit what one write of both texts emits |
| CodeWriting.IndentedLinesReference | gir/girgen/file/internal/codewriter.go:32-52 | whole lines at a line start: the reference indentation is one tab per level on each non-empty line |
| CodeWriting.AsWrittenAgreesOnWholeLines | gir/girgen/file/internal/codewriter.go:19-55 | on whole lines written at a line start the source's Write and the corrected one emit the same |
| CodeWriting.PartialLineWritten | gir/girgen/file/internal/codewriter.go:19-55 | a write without newline is a single piece |
| CodeWriting.SplitLineLosesIndent | gir/girgen/file/internal/codewriter.go:34-51 | as written: at level 1, "}" then "\n" comes out as "}\n", while "}\n" in one write is "\t}\n" |
| CodeWriting.CorrectedCutLine | gir/girgen/file/internal/codewriter.go:19-55 | the corrected writer gives a line cut before its newline the same indentation as the whole line |
| CodeWriting.CorrectedSplitLineKeepsIndent | gir/girgen/file/internal/codewriter.go:34-51 | corrected: "}" then "\n" at level 1 comes out as "\t}\n" |
| Imports.Added | gir/girgen/file/goimports.go:89-105 | add ignores an empty package path; otherwise the import is in the set and nothing else was added |
| Imports.AddIdempotent | gir/girgen/file/goimports.go:89-105 | adding the same import twice is adding it once |
| Imports.AddCommutes | gir/girgen/file/goimports.go:89-105 | the order of two adds does not matter |
| Imports.AddKeepsNoEmptyPkg | gir/girgen/file/goimports.go:89-92 | no import with an empty path ever enters the set |
| Imports.SplitPartitions | gir/girgen/file/goimports.go:65-88 | a split holds each import once, in std exactly when isStd, in other exactly when not |
| Imports.ImportLine | gir/girgen/file/goimports.go:43-63 | each import line starts with a tab |
| Imports.ImportParts | gir/girgen/file/goimports.go:43-63 | importReader writes four pieces per import and two more per alias |
| Imports.ImportLines | gir/girgen/file/goimports.go:43-63 | one line per import, in order |
| Imports.BlockLines | gir/girgen/file/goimports.go:19-41 | the block has a line per import, the opening and closing lines, and one blank line only when both groups are non-empty |
| Imports.ImportPartsAreLines | gir/girgen/file/goimports.go:43-63 | importReader's pieces spell out the import lines, each ended by a newline |
| Imports.BlockIsLines | gir/girgen/file/goimports.go:19-41 | formatted's pieces spell out the block's lines, each ended by a newline |
| Imports.BlankLineIffBothGroups | gir/girgen/file/goimports.go:32-34 | the block holds a blank line exactly when both groups have imports |
| Imports.ImportsInOrder | gir/girgen/file/goimports.go:28-36 | the standard imports come first in their sorted order, then the others in theirs |
| Imports.PartsGrow | gir/girgen/file/goimports.go:69-75 | one more import lands in exactly one group |
| Imports.GoImports.constructor | gir/girgen/file/goimports.go:10 | a new set is empty |
| Imports.GoImports.Add | gir/girgen/file/goimports.go:89-105 | the new set is Added's |
| Imports.GoImports.Split | gir/girgen/file/goimports.go:65-88 | std and other partition the set by isStd, each sorted by package path |
| Imports.GoImports.Formatted | gir/girgen/file/goimports.go:19-41 | an empty set formats to nothing; otherwise the text is the block of a split of the set |
| Convert.NewGoToCAliasedConverter | gir/girgen/generators/convert/go_to_c.go:93-108 | an alias is cast from Go to C exactly when it aliases a castable type and has no pointer; otherwise the conversion is unimplemented with the unsupported-alias reason |
| Convert.NewGoToCBasicConverter | gir/girgen/generators/convert/go_to_c.go:49-90 | the basic Go-to-C selector only returns a converter whose generated code's assumptions hold, and gives up exactly on the shapes it has no converter for |
| Convert.NewGoToCConverter | gir/girgen/generators/convert/go_to_c.go:7-47 | every converter the Go-to-C selector returns fits the parameter: kind, pointer depth and a conversion function for its transfer |
| Convert.NewGoToCArrayConverter | gir/girgen/generators/convert/go_to_c.go:110-154 | an array is converted from Go exactly when it is a fixed-size in array of castable values without inner pointers; otherwise the converter is unimplemented with a reason |
| Convert.GoToCSelection | gir/girgen/generators/convert/go_to_c.go:7-47 | the Go-to-C selector prefers implicit, then skipped, then array, then caller-allocates, then the nullable wrapper for non-out parameters, and is unimplemented exactly when the chosen branch has no converter |
| Convert.GoToCConvertibleChoice | gir/girgen/generators/convert/go_to_c.go:74-89 | a convertible parameter is converted from Go exactly when it has one pointer and its type can hand the parameter's transfer to C, and the chosen function is then never empty |
| Convert.NewCToGoAliasedConverter | gir/girgen/generators/convert/c_to_go.go:96-108 | an alias is cast from C to Go exactly when it aliases a castable type and has no pointer |
| Convert.InnerTransfer | gir/girgen/generators/convert/container.go:21-26 | a container's elements are transferred in full exactly when the container is, and otherwise without ownership |
| Convert.ChildConverters | gir/girgen/generators/convert/container.go:28-49 | the child loop yields the element converters of the longest prefix of element types that have one, stopping at the first that has none |
| Convert.ChildConverter | gir/girgen/generators/convert/container.go:30-48 | an element converts when its type is convertible for the transfer, using a conversion function that exists, or when it is a string, keeping the transfer; otherwise it does not |
| Convert.NewCToGoContainerConverter | gir/girgen/generators/convert/container.go:10-63 | a container converts from C exactly when every element type has a converter, with one child per element in order; otherwise it is unimplemented |
| Convert.NewCToGoBasicConverter | gir/girgen/generators/convert/c_to_go.go:56-93 | the basic C-to-Go selector only returns a converter whose generated code's assumptions hold, and gives up exactly on the shapes it has no converter for |
| Convert.NewCToGoConverter | gir/girgen/generators/convert/c_to_go.go:7-54 | the C-to-Go selector prefers implicit, skipped, caller-allocates (unimplemented), user data, container and array (unimplemented), then the nullable wrapper, and every basic converter it picks fits the parameter |
| Convert.StringChildFreesOnFullTransfer | gir/girgen/generators/convert/container.go:104-116 | a container's string elements are freed by the generated code exactly when the container comes with full transfer |
| Convert.ArrayDetails | gir/girgen/generators/convert/unimplemented.go:54-76 | an array's metadata names its element type when known, and shows the fixed size, zero termination and length parameter exactly when the array has them |
| Convert.MetadataParts | gir/girgen/generators/convert/unimplemented.go:20-79 | the metadata of an unimplemented conversion always starts with direction, transfer, pointer count and GIR name |
| Convert.FixedParts | gir/girgen/generators/convert/unimplemented.go:23-28 | the four leading metadata parts are the direction, transfer, pointer count and name |
| Convert.ScopeParts | gir/girgen/generators/convert/unimplemented.go:30-32 | the scope part is present exactly when the scope is not call |
| Convert.FlagParts | gir/girgen/generators/convert/unimplemented.go:34-44 | each of optional, nullable and caller-allocates shows exactly when the flag is set |
| Convert.LinkParts | gir/girgen/generators/convert/unimplemented.go:46-52 | the closure and destroy parts show exactly when those links exist, by the linked parameters' C names |
| Convert.ArrayParts | gir/girgen/generators/convert/unimplemented.go:54-76 | only an array parameter gets an array part, holding its details |
| Convert.MetadataMembers | gir/girgen/generators/convert/unimplemented.go:20-79 | a part is in the metadata exactly when it is in one of the fixed, scope, flag, link or array groups |
| Convert.MetadataShowsScope | gir/girgen/generators/convert/unimplemented.go:30-32 | the printed metadata shows the scope exactly when it is not call |
| Convert.MetadataShowsFlags | gir/girgen/generators/convert/unimplemented.go:34-44 | the printed metadata shows each flag exactly when it is set |
| Convert.MetadataShowsLinks | gir/girgen/generators/convert/unimplemented.go:46-52 | the printed metadata names the linked closure and destroy parameters |
| Convert.MetadataShowsArray | gir/girgen/generators/convert/unimplemented.go:54-76 | an array parameter's details close the metadata |
| Convert.UnimplementedMetadata | gir/girgen/generators/convert/unimplemented.go:20-79 | the metadata text begins with the direction and the transfer |
| Convert.ReasonText | gir/girgen/generators/convert/unimplemented.go:101-105 | the panic reason is never empty and is the given reason when there is one |
| Convert.UsedNames | gir/girgen/generators/convert/unimplemented.go:84-99 | the used names are the Go and C names first, plus the C names of every linked closure, destroy and length parameter |
| Convert.UnimplementedLines | gir/girgen/generators/convert/unimplemented.go:82-108 | the unimplemented conversion writes one use line per used name, in order, and ends with the panic |
| Convert.UnimplementedUsesLinks | gir/girgen/generators/convert/unimplemented.go:84-99 | every name the unimplemented conversion refers to is marked used, so the generated code has no unused variables |
| Convert.GoToCCallbackConvert | gir/girgen/generators/convert/callback_go_to_c.go:15-51 | a callback without closure, or with notified scope and no destroy parameter, is an error; otherwise the code stores the trampoline and registers the Go function under the closure |
| Convert.CallbackRegistrationMatchesScope | gir/girgen/generators/convert/callback_go_to_c.go:28-50 | the registration matches the scope's lifetime: once-only exactly for async, a deferred delete (and the unsafe import) exactly for call, a destroy notifier exactly for notified, and the conversion succeeds exactly for a known scope with the parameters it needs |
| PointerHeap.Chunk | pkg/core/userdata/heap.go:21-30 | allocateChunk yields chunkSize (1024) consecutive addresses of one block, each distinct |
| PointerHeap.Get | pkg/core/userdata/heap.go:33-45 | getPointer pops the last free pointer, allocating a fresh chunk first when the list is empty |
| PointerHeap.Return | pkg/core/userdata/heap.go:48-53 | returnPointer pushes the C pointer on top of the list and keeps everything below it |
| PointerHeap.ChunkValid | pkg/core/userdata/heap.go:21-30 | the C pointers of one chunk are pairwise distinct, allocated and non-nil |
| PointerHeap.GetFresh | pkg/core/userdata/heap.go:33-45 | getPointer hands out an allocated non-nil pointer that is no longer in the free list, and the list stays valid |
| PointerHeap.GetFromEmpty | pkg/core/userdata/heap_test.go:7-25 | from an empty list getPointer returns a non-nil pointer and leaves 1023 free |
| PointerHeap.GetThenReturn | pkg/core/userdata/heap_test.go:27-48 | get then return restores the list's size with that pointer on top (LIFO), and restores the list itself when it was non-empty |
| PointerHeap.ReturnKeepsValid | pkg/core/userdata/heap.go:48-53 | returning an allocated pointer that is not free keeps the free list duplicate-free |
| PointerHeap.PointerPool.constructor | pkg/core/userdata/heap.go:14-19 | the package starts with a nil free list and a valid pool |
| PointerHeap.PointerPool.AllocateChunk | pkg/core/userdata/heap.go:21-30 | the loop appends the chunk's pointers in address order to the free list |
| PointerHeap.PointerPool.GetPointer | pkg/core/userdata/heap.go:33-45 | the returned pointer and the new free list are those of Get |
| PointerHeap.PointerPool.ReturnPointer | pkg/core/userdata/heap.go:48-53 | the new free list is that of Return |
| Userdata.RegisterAt | pkg/core/userdata/registry.go:20-32 | register panics exactly when the C pointer is registered already; otherwise only that pointer gains the entry |
| Userdata.RegisterData | pkg/core/userdata/registry.go:36-53 | Register and RegisterOnce take the C pointer getPointer gives and register the value there with the once flag |
| Userdata.DeleteEntry | pkg/core/userdata/registry.go:79-89 | deleteUnlocked panics exactly for an unknown pointer; otherwise the entry is removed and the C pointer returned to the pool |
| Userdata.LoadData | pkg/core/userdata/registry.go:55-69 | Load gives nil exactly for an unknown pointer, the stored value otherwise, and deletes a once-entry |
| Userdata.RegisterSucceeds | pkg/core/userdata/registry.go:36-53 | in a valid registry Register never panics: the fresh pointer is unregistered, non-nil, now maps to the value, nothing else changed, the registry stays valid |
| Userdata.DeleteKeepsValid | pkg/core/userdata/registry.go:79-89 | deleting a registered pointer keeps registered pointers out of the free list |
| Userdata.LoadKeepsValid | pkg/core/userdata/registry.go:55-69 | Load keeps the registry valid |
| Userdata.OnceLoadsOnce | pkg/core/userdata/registry.go:47-69 | a RegisterOnce value loads once, then Load gives nil |
| Userdata.PlainLoadKeeps | pkg/core/userdata/registry.go:36-69 | a Register value loads without changing the registry |
| Userdata.RegisterThenDelete | pkg/core/userdata/registry.go:36-89 | Register then Delete restores the entries and puts the C pointer back on top of the free list; a second Delete panics |
| Userdata.UserdataRegistry.constructor | pkg/core/userdata/registry.go:17-18 | the registry starts empty over the package's free list |
| Userdata.UserdataRegistry.RegisterPointer | pkg/core/userdata/registry.go:20-32 | panics with "already registered" and changes nothing for a taken pointer, else stores the entry as RegisterAt |
| Userdata.UserdataRegistry.Register | pkg/core/userdata/registry.go:36-42 | result and new state are those of RegisterData with once false |
| Userdata.UserdataRegistry.RegisterOnce | pkg/core/userdata/registry.go:47-53 | result and new state are those of RegisterData with once true |
| Userdata.UserdataRegistry.DeleteUnlocked | pkg/core/userdata/registry.go:79-89 | panics exactly as DeleteEntry does and leaves the state unchanged then; otherwise the new state is DeleteEntry's |
| Userdata.UserdataRegistry.Load | pkg/core/userdata/registry.go:55-69 | result and new state are those of LoadData |
| Userdata.UserdataRegistry.Delete | pkg/core/userdata/registry.go:72-77 | Delete under the lock is deleteUnlocked |
| InstanceData.Registered | pkg/core/instancedata/instancedata.go:35-51 | register panics exactly for a registered (instance, key) pair; otherwise the pair is the handle and only it gains the entry |
| InstanceData.Loaded | pkg/core/instancedata/instancedata.go:69-85 | Load panics exactly for an unknown handle; it returns the data and deletes a once-entry |
| InstanceData.Deleted | pkg/core/instancedata/instancedata.go:87-94 | Delete never panics; it removes that handle's entry and keeps every other entry |
| InstanceData.DeleteIdempotent | pkg/core/instancedata/instancedata.go:87-94 | deleting twice is deleting once; deleting an unknown handle changes nothing |
| InstanceData.OnceLoadsOnce | pkg/core/instancedata/instancedata.go:62-85 | a RegisterOnce handle loads its data once, restoring the map; the next Load panics |
| InstanceData.PlainLoadKeeps | pkg/core/instancedata/instancedata.go:55-85 | a Register handle loads its data and keeps the entry |
| InstanceData.RegisterThenDelete | pkg/core/instancedata/instancedata.go:35-94 | Register then Delete restores the map and the pair can be registered again |
| InstanceData.RegisterKeepsOthers | pkg/core/instancedata/instancedata.go:35-85 | registering one pair leaves what every other handle loads unchanged |
| InstanceData.InstanceRegistry.constructor | pkg/core/instancedata/instancedata.go:27 | the registry starts empty |
| InstanceData.InstanceRegistry.Register | pkg/core/instancedata/instancedata.go:35-64 | panics and changes nothing exactly as Registered says; otherwise handle and map are Registered's |
| InstanceData.InstanceRegistry.Load | pkg/core/instancedata/instancedata.go:69-85 | panics and changes nothing for an unknown handle; otherwise data and map are Loaded's |
| InstanceData.InstanceRegistry.Delete | pkg/core/instancedata/instancedata.go:87-94 | the new map is Deleted's |
| ClosureRegistry.Registered | pkg/core/closure/registry.go:12-20 | Register panics exactly for an address registered already; otherwise only that address gains the callback |
| ClosureRegistry.Loaded | pkg/core/closure/registry.go:22-28 | Load gives nil exactly for an unknown address, else its callback |
| ClosureRegistry.Deleted | pkg/core/closure/registry.go:32-38 | Delete panics exactly for an unknown address; otherwise only that address is removed |
| ClosureRegistry.RegisterThenDelete | pkg/core/closure/registry.go:12-38 | after Register, Load finds the callback; after Delete, Load gives nil, the map is restored and a second Delete panics |
| ClosureRegistry.RegisterTwicePanics | pkg/core/closure/registry.go:12-20 | registering an address twice panics the second time |
| ClosureRegistry.OthersUnchanged | pkg/core/closure/registry.go:12-38 | Register and Delete of one address leave what other addresses load unchanged |
| ClosureRegistry.Registry.constructor | pkg/core/closure/registry.go:8 | the registry starts empty |
| ClosureRegistry.Registry.Register | pkg/core/closure/registry.go:12-20 | panics and changes nothing exactly as Registered says; otherwise the map is Registered's |
| ClosureRegistry.Registry.Load | pkg/core/closure/registry.go:22-28 | the result is Loaded's |
| ClosureRegistry.Registry.Delete | pkg/core/closure/registry.go:32-38 | panics and changes nothing exactly as Deleted says; otherwise the map is Deleted's |

## Left out

- Reading GIR XML (gir/repository.go): the model starts from the parsed element types.
- Logging through slog and log, the debug `println` in callable.go and the pprof profile the closure registry updates: these are output only and change no result.
- Mutexes and `sync.Map` in the registries: only their sequential map behaviour is modelled, not concurrency.
- The text every converter's `Convert` prints, except the unimplemented fallback's lines and the callback conversion's registration. Only which converter is chosen is modelled.
- The code generators other than converter selection, the file wrappers (tab writer, prepend reader, C defines) and the command line: they print text or do file I/O.
- ParamList's `GoDeclarations`, `GoTypes` and `CGoDeclarations`, and the ", " join of `GoIdentifiers` and `CIdentifiers`: the model gives the filtered name lists, not the printed text.
- `CodeWriter.Read`, `Len` and the error `bytes.Buffer.Write` could return: the buffer never fails, and reading it back is I/O.
- `newNamespace` and `FromRepositories`, which declare every kind of item and then call the resolve steps: `Namespace.resolveAll` is modelled with the resolve outcome of each kind as a parameter.
- Namespaces.Fold, Namespaces.PassSpec and Namespaces.Namespace.ResolveAll take the outcome of resolving an item as a total function, so a panic inside a resolve step is dropped. In the source, Class.resolve panics when GObject.Object or GType is missing or GObject.Object is not a class (gir/girgen/typesystem/class.go:150-172), and a callback's resolve panics on parameters missing after a resolved outcome (gir/girgen/typesystem/callback.go:63-65); either ends resolveAll. The model's passes always run to the end, so ClassesNeverDropped and the pass bounds cover only runs in which no such panic happens.
- DeclareMethod, DeclarePrefixedFunction and NewVirtualMethod are parameters of the declaring loops (the `Declarer` functions).
- The signal and field loops of Class.declareNested, the function, constructor and field loops of Record.declareNested, and Interface.declareNested: they build signals, fields and docs in files outside this model.
- Regular expressions: matching is a parameter (`matches`) in GirPreprocess and Ignore, because Go's regexp engine is not modelled.
- Go map iteration order: the parsed repositories are a sequence in some order, and the order in which Uniques and the include collection visit a map is left open. Every result is proved for any such order.
- Logger scoping through `env.sub` changes only log prefixes and is left out.
- The GIR `InfoElements` argument of ignore functions: no ignore function in the core reads it.
- The MapMembers, MustIntrospect, ModifyCallable, RenameCallable and ModifyParamDirections preprocessors. The model covers the file-list preprocessors, the renamed node TypeRenamer computes and the target lookup of ModifySignal.
- GirPreprocess.SignalTarget: the callback ModifySignal applies to the signal is not modelled. Only the parsing of the signal path and the lookup of the target are.
- GirPreprocess.Rename: TypeRenamer's case for an annotation is left out, because no `Find` lookup returns an annotation.
- GirPreprocess.Rename and GirPreprocess.TypeRenamer compute the renamed node but do not write it back into the repositories. In the source the node is renamed in place through the pointer FindFullType returns; the model's nodes are values, so the in-place update and the aliasing are not captured, and TypeRenamer is not one of the `Preprocessor` steps.
- GirPreprocess.ParseSignalPath reads the input as a single line matched from its start. Go's `.` does not match a newline and FindStringSubmatch is unanchored, so for input that contains a newline the source matches within one line; this is not modelled.
- Members.ParseInt: Go's base-0 parsing also accepts `_` between digits. The model rejects such literals.
- Members.NewMember: the documentation of a member is not modelled.
- Env.SortGoParams and Env.SortGoReturns state a sorted permutation and nothing about the order of equal elements, because `slices.SortFunc` is not stable. The doc comment of sortGoParams in env.go promises that the other parameters keep their order; this is not guaranteed and is not claimed.
- Convert: the closure, destroy and length links of a parameter are indices into the callable's GIR parameter list (`LinksIn`). In the source they are pointers to parameters of the same list, so an index out of range cannot occur.
- Convert.GoToCCallbackConvert: the panics of the source become `Err`. This includes a failed type assertion on a destroy parameter that is not a callback.
- PointerHeap: `malloc` is a bump allocator that never fails, so a NULL from `C.malloc` is not modelled.
- InstanceData: the handle `unsafe.Pointer(&k)` is modelled as the (instance, key) pair it points at.
- Userdata, InstanceData and ClosureRegistry: the stored Go `any` values are a type parameter.
- StrCases.*, CTypes.GoPackageName and Strings.ToLower: letter and digit classes and case mapping cover ASCII only, and strings are sequences of characters rather than Go's UTF-8 bytes. Go's `unicode.IsLetter`, `unicode.ToLower` and `strings.ToLower` also map non-ASCII letters, which the model keeps unchanged (or drops, in GoPackageName).
- TypeSystem.ClassObj.Resolve requires that the class is not among its parent's ancestors, that is, an acyclic parent chain. In the source a cyclic parent chain makes `redundantImplements` (gir/girgen/typesystem/class.go:249-257) recurse without end; the model does not cover that non-terminating case.
- CustomAttrs.UnmarshalText: the error messages are shortened; whether an error happens is as in the source.

## Findings

| source | as written | input that shows it | evidently intended | confidence | as-written member | corrected member |
|---|---|---|---|---|---|---|
| gir/repositories.go:57-66 | after a path part is not found, `current` is nil again, so the next part starts a new search among the GIR files | one file with namespace Gtk 4 and the path "Gtk-4.Missing.Gtk-4": it finds Gtk | a part that is not found ends the lookup with nil | not executed | GirRepositories.FindFullTypeAsWrittenCounterexample | GirRepositories.FindFullType |
| gir/girgen/typesystem/interface.go:163-182 | resolve appends prerequisites to the list an earlier pass left behind, so a retry after maybeResolvable lists them again | an interface requiring GObject.Object and J, where J is declared only before the second pass: GObject.Object is listed twice | each pass builds the prerequisites from scratch | not executed | TypeSystem.PrereqRetryDuplicates | TypeSystem.InterfaceObj.Resolve |
| gir/girgen/file/internal/codewriter.go:34-51 | a line piece of one byte gets no indentation but leaves the writer at line start, so the rest of the line written later gets no tabs either | at indent level 1, Write("}") then Write("\n") gives "}\n", while Write("}\n") gives "\t}\n" | a line is indented however it is split across writes | not executed | CodeWriting.SplitLineLosesIndent | CodeWriting.CorrectedWritesCompose |
