# Verified models of the CDK's build and packaging algorithms

A Dafny 4.11 project that models algorithms of the repository's tools and proves what they
promise. `dafny verify dfyconfig.toml` verifies everything.

| Part | Files | What it models |
|---|---|---|
| Shrinkwrap | `PackageTree`, `Hoisting`, `KeyOrder`, `Resolution`, `NormalForm`, `Lookups`, `VersionPreservation`, `VersionLoss`, `ErasedNeeds`, `NestedConflicts`, `HoistingInPlace`, `Shrinkwrap` | `yarn-cling`: building the tree of locked packages and hoisting it in place to a fixpoint |
| Cycles | `Cycles` | the depth-first cycle check of `find-cycles.py` and `dependencies.py` |
| Schemas | `JsiiTypes`, `Schematizability`, `Schemas`, `Jsii2Schema`, `SchemaValues`, `CdkSchema` | the memoised, cycle-cutting JSON schema generator of `decdk`, and which JSON values its schemas admit |
| Code generation | `CfnSpec`, `CfnCode`, `CfnStructure`, `CfnUnions`, `CfnGenerator`, `CfnRuntime`, `CfnMeaning`, `CfnNames`, `CfnAdmission`, `CfnAdmitted`, `CfnVerdicts`, `CfnMappers`, `CfnExamples` | the validators, mappers and factories that `cfn2ts` generates, what the validators say of JavaScript values, and how the mappers end |
| Version voting | `JsonValues`, `JsonObjects`, `JsonPaths`, `Splitting`, `VersionVoting`, `VersionFixes`, `FixOutcomes`, `DottedNames`, `FixedSections`, `SecondRound`, `Agreement`, `SavedDocuments`, `SecondRoundExamples`, `Pkglint`, `PkglintRun` | `pkglint`: documents edited by path, votes on versions, a round of fixes and what the next run finds in the files that it saved |
| Context | `ContextBags` | the layered context of the CLI |
| Assets | `AssetManifests`, `AssetPublishing` | selecting assets by pattern, and publishing them |

Code that updates objects in place is modelled by classes and methods with loops. Each such
method is proved against a function on values, and the promises are proved of that function:
`HoistDependencies` turns the objects that hold a tree `c` into objects that hold `Hoist(c)`,
`DeepSet` turns the objects of a document `j` into those of `Set(j, path, value)`.

## Main results

**Hoisting.** The run terminates; deletions and moves keep the order of all that stays; it keeps every required name resolvable on its own level or
higher; it ends in normal form, which a second run leaves alone; the root keeps its versions.
A name with a single version keeps it, and if every name has one version the result is flat and
every require finds what it found. Versions are not preserved in general: `HoistLosesVersion`
gives, for any three names and two versions, a fully resolvable tree in which a package finds one
version before the run and the other one after it. A de-duplication never changes what anyone
finds, and a move up does so if and only if `Movable` fails, a condition on the tree before the
move; a run whose moves are all `Movable` changes nothing. That is not necessary for a whole run:
`SafeRunNotNecessary` gives a tree. A condition on the tree alone, weaker than one version per
name, is `UnnestedConflictsKeepVersions`: a tree as it is built keeps every version that anyone
finds if no package whose name has several versions holds another such package.

**Cycle check.** A cycle is printed if and only if there is one, and everything printed is a
cycle of what the files list. Every cycle of the graph contains the last step of a printed one, and the order in which
packages finish is topological once those steps are left out.

**Schemas.** From an empty stack a type gets a schema if and only if it is in the least fixpoint
of the rules, whatever was defined before and in whatever order types are asked for, although
types under way count as failures. Schemas and definitions have the shape the type calls for:
what is left out of a union, an interface or the parameters of a method has no schema without the
types under way, and what is kept has one. What a schema admits, through all definitions it refers
to, is a value of the type; for types made of primitives, enums and constructs, and interfaces and
methods of such, it is every value of the type and no other. No reference dangles, definitions are never replaced,
and the second evaluation for an array element cannot fail. A required parameter without a schema
is dropped although the code means to give up (`DroppedParameter`).

**Code generation.** What an emitted validator says of a JavaScript value, computed by running the
emitted code with the checks of the core library, is a function of the specification: pass, fail
or throw. In the names of the specification, each of the seven primitive types is told what passes
for it, and lists, maps, unions, records, tags and aliases are told in terms of what they are made
of. A validator throws if and only if the value `Trips` it, which says where in the value a date is
asked of a null or of something that CloudFormation is to replace, or a type that does not exist is
reached. A value passes if and only if it does not trip and the specification admits it or it
`Slips` through: anything whose elements fit passes for a map, a list or a date passes for a record
whose fields it can do without, and an object with a `forEach` passes for a list
(`MapTakesOtherThings`, `RecordTakesList`, `ListTakesObject`). No mapper ever reaches the error that
no validator of a union matched, in any specification and for any value, for it validates first;
but mappers break at values that pass: at a missing tag, at an object that passed for a list, and
at a union with an alias in it (`MissingTagBreaks`, `ListTakesObject`, `AliasInUnionBreaks`). Each
function is emitted exactly once, and nothing that emitted code refers to is missing if and only if
every property is `Sound`: the types it names exist, through aliases, and no alias is a member of a
union. The second half is a real restriction of the code: mappers and factories name a validator
for such a member although aliases get none (`AliasInUnionDangles`). The three expressions of a
property have one type structure, and a union tries the validators that fit its members if and only
if no member is an alias.

**Version voting.** The version chosen is that of the package itself if it is our own, and otherwise
one that most entries of the documents have. The path of a dependency name that
contains a dot is split at the dot, so a fix for it never changes the entry it is about; such a
dependency is `Astray` if there is a version it should have. Names that all objects inherit, as
`constructor`, are found where there is no entry: a version under such a name cannot be counted, and
no fix can be written beyond it (`CountThrows`, `InheritedPartThrows`). Keys that are indices come
first in an object, by size, so that records made in different orders can have the same text
(`IndicesAgree`). All fixes of a package succeed if and only if none is written beyond a plain entry,
beyond what an earlier one has written or beyond an inherited name. If they do, the packages are
manifests again if and only if nothing is astray, and then the rule has nothing to say about them.
It can also be silent with a dependency astray (`StrayRecordUnnoticed`): it is so if and only if the
packages were `Quiet`, which says where astray dependencies may be and what else may have the name of
the record made for them. The next run reads the documents as they were saved, without the entries
that have no value, and it succeeds if and only if they were quiet and no fix has given a version to
a dependency with an inherited name. Reading and writing by path obey the laws of a lens; a write
that is refused leaves nothing but the records made on the way to an inherited name.

**Context, assets.** Any sequence of set, unset and clear reads like one map between the read-only
bags. Selecting assets is an order-preserving filter of the entries; patterns are read back from
their strings exactly if their parts can be written. A publishing run handles exactly the assets
up to the first abort, each once, and its percentage never falls and ends at 100 exactly if all
were handled.

## Model

| member | source | states |
|---|---|---|
| Hoisting.MoveChildrenUp | tools/yarn-cling/lib/hoisting.ts:22-50 | pushing children up only ever adds names to the container, and rewrites nothing but the `dependencies` of the one package |
| Hoisting.PushOne | tools/yarn-cling/lib/hoisting.ts:26-43 | one turn leaves the siblings that are still to be visited untouched, though the container grows while its snapshot is walked |
| Hoisting.PushOneLoad | tools/yarn-cling/lib/hoisting.ts:27-42 | a turn sets `didChange` exactly if it lowers depths plus `dependencies` fields, and otherwise changes nothing |
| Hoisting.MoveChildrenUpLoad | tools/yarn-cling/lib/hoisting.ts:22-50 | the same for a whole call with its two recursive branches and the cleanup |
| Hoisting.SimplifyEachLoad | tools/yarn-cling/lib/hoisting.ts:7-19 | a pass that changes something lowers the measure, so the do-while loop ends |
| Hoisting.Hoist | tools/yarn-cling/lib/hoisting.ts:6-19 | the run terminates with a well-formed tree that has all root names |
| KeyOrder.CutOut | tools/yarn-cling/lib/hoisting.ts:30-37 | deleting a name takes out that name and leaves the others where they were |
| KeyOrder.PushOneInOrder | tools/yarn-cling/lib/hoisting.ts:26-43 | in a turn the names in the container keep their places, and the children that stay in the package keep the order they had before it |
| KeyOrder.HoistInOrder | tools/yarn-cling/lib/hoisting.ts:6-19 | the names the root starts with stay first, in their order |
| KeyOrder.FirstChildWins | tools/yarn-cling/lib/hoisting.ts:14-31 | a name without a place at the root goes to the package that the first root package lists first, in whatever version others have it |
| Resolution.MoveChildrenUpKeepsResolvable | tools/yarn-cling/lib/hoisting.ts:22-50 | every require stays on its own level or higher, although a moved package loses sight of its siblings |
| Resolution.HoistKeepsResolvable | tools/yarn-cling/lib/types.ts:48-53 | if every required name is in `dependencies` at its level or higher before hoisting, it is so afterwards |
| NormalForm.MoveChildrenUpUnlessSettled | tools/yarn-cling/lib/hoisting.ts:22-50 | a call changes nothing if and only if each package below has a same-named entry of another version above it and no `dependencies` is empty |
| NormalForm.HoistNormalizes | tools/yarn-cling/lib/hoisting.ts:7-19 | the result is in normal form, and a tree is left as it is if and only if it already was |
| NormalForm.HoistIdempotent | tools/yarn-cling/lib/hoisting.ts:6-19 | hoisting a second time changes nothing |
| NormalForm.HoistedNamesAtRoot | tools/yarn-cling/lib/hoisting.ts:27-42 | every name left in the tree also has an entry at the root |
| NormalForm.HoistKeepsRoot | tools/yarn-cling/lib/hoisting.ts:14-19 | the entries the root starts with keep their versions and requires |
| Lookups.HoistItems | tools/yarn-cling/lib/hoisting.ts:27-42 | every named package of the result is one of the input |
| Lookups.ResolvableFinds | tools/yarn-cling/lib/types.ts:48-53 | in a resolvable tree every lookup, own `dependencies` first and then upwards, finds a version |
| Lookups.SingleVersionNamesKept | tools/yarn-cling/lib/hoisting.ts:6-51 | a name with one version in the whole tree is found at that version by all who require it, after hoisting |
| Lookups.OneVersionPerNameFlattens | tools/yarn-cling/lib/hoisting.ts:6-51 | if every name has one version the result is flat and every require finds what it found |
| VersionPreservation.AgreeIffFree | tools/yarn-cling/lib/types.ts:48-53 | all packages of a subtree find the same in two surroundings if and only if these agree on the names the subtree looks up outside itself |
| VersionPreservation.MoveKeepsIffMovable | tools/yarn-cling/lib/hoisting.ts:27-34 | a move up changes no version that anyone finds if and only if those who now get the package from the container found its version already and it does not depend on the siblings it leaves |
| VersionPreservation.DeduplicationKeeps | tools/yarn-cling/lib/hoisting.ts:35-38 | deleting a duplicate keeps every require of every surviving package at its version |
| VersionPreservation.SafeRunKeepsVersions | tools/yarn-cling/lib/hoisting.ts:6-51 | a run whose every move satisfies that condition changes no version anyone finds |
| VersionLoss.HoistLosesVersion | tools/yarn-cling/lib/hoisting.ts:27-38 | for any names and two versions: a resolvable tree in which hoisting changes the version a package finds, because a slot vacated by a duplicate is refilled |
| ErasedNeeds.HoistErased | tools/yarn-cling/lib/hoisting.ts:6-51 | the run does the same to a tree whatever its packages require |
| NestedConflicts.UnnestedConflictsKeepVersions | tools/yarn-cling/lib/hoisting.ts:6-51 | in a tree as it is built, where no package whose name has several versions holds another such package, every require of every surviving package keeps its version |
| NestedConflicts.SafeRunNotNecessary | tools/yarn-cling/lib/hoisting.ts:27-34 | a tree that keeps all versions although one of its moves alone does not |
| HoistingInPlace.HoistDependencies | tools/yarn-cling/lib/hoisting.ts:6-19 | objects that hold a tree, none of them shared, hold the hoisted tree afterwards, and the names the root starts with stay first |
| HoistingInPlace.MoveUpInPlace | tools/yarn-cling/lib/hoisting.ts:22-50 | the in-place rewrite of one package refines the rewrite of values, `didChange` included |
| HoistingInPlace.PushInPlace | tools/yarn-cling/lib/hoisting.ts:27-42 | so does each turn of its loop: move, delete or recurse |
| HoistingInPlace.MoveChildrenUpApart | tools/yarn-cling/lib/hoisting.ts:29-30 | moving package objects never makes two places share an object |
| Shrinkwrap.DependenciesFor | tools/yarn-cling/lib/index.ts:62-104 | succeeds if and only if everything reachable is found under its own name, and then builds fresh objects for exactly that tree |
| Shrinkwrap.BuiltEntry | tools/yarn-cling/lib/index.ts:70-100 | the version of an entry is that of yarn.lock for its name and range, or else that of the package.json found; it requires what that file depends on, and has just that below it |
| Shrinkwrap.BuiltResolvable | tools/yarn-cling/lib/index.ts:86-100 | before hoisting each package has all it requires in its own `dependencies` |
| Shrinkwrap.GenerateShrinkwrap | tools/yarn-cling/lib/index.ts:28-49 | whatever can be built ends, hoisted or not, as a tree in which every require is resolvable, and at the version it was built with if conflicts are not nested |
| Cycles.Find | scripts/find-cycles.py:7-11 | the first index of a value, or none if it does not occur |
| Cycles.CycleCheck.CheckForCycles | scripts/find-cycles.py:29-43 | packages under way are those on the path; all printed are cycles; while nothing is printed the finished packages are in dependency order |
| Cycles.CycleCheck.CheckAll | scripts/find-cycles.py:45-46 | a cycle is printed if and only if there is one, all printed are cycles, every cycle of the graph contains the last step of a printed one, and without those steps the finishing order is topological |
| Cycles.OrderedMeansBroken | scripts/find-cycles.py:25-46 | if what is left of a graph without some steps can be listed dependencies first, every cycle contains such a step |
| Cycles.OrderedMeansAcyclic | scripts/find-cycles.py:25-46 | a graph that can be listed dependencies first has no cycle |
| Cycles.WalkGoesBack | scripts/find-cycles.py:41-43 | along edges one only gets to packages that finished earlier |
| Cycles.FullDependencyGraph | scripts/find-cycles.py:15-22 | the graph has exactly the packages and dependencies that the files list |
| Cycles.GraphMeans | scripts/find-cycles.py:15-22 | a package has an entry if some file of that name has a dependency section; the entry has all names of all such sections and no others |
| Cycles.ListsMeans | scripts/find-cycles.py:20-22 | a dependency is one that `dependencies` or `devDependencies` of some file of that name lists |
| Cycles.MutualDependency | scripts/find-cycles.py:13-46 | two files that list each other in any of their sections make a cycle |
| Cycles.RankedMeansAcyclic | scripts/find-cycles.py:13-46 | if packages have ranks that fall from each to all that its sections list, there is no cycle |
| Cycles.BrokenMeans | scripts/find-cycles.py:31-33 | a cycle is broken if it takes the last step of one that is printed |
| Cycles.FindCycles | scripts/find-cycles.py:13-46 | the script prints something if and only if the dependencies that the files list have a cycle, prints such cycles only, and leaves no cycle without the last step of a printed one |
| Cycles.LocalDependencyGraph | scripts/dependencies.py:23-28 | shrinking the sets in place leaves each package its dependencies in the repository |
| Cycles.LocalKeepsCycles | scripts/dependencies.py:23-28 | leaving out other dependencies removes and adds no cycle |
| Cycles.FindLocalCycles | scripts/dependencies.py:49-78 | this script reports a cycle for the same files as the other, and its cycles consist of packages of the repository |
| JsiiTypes.EnumLikeMethods | packages/decdk/lib/jsii2schema.ts:527-529 | exactly the static methods that return something extending the class |
| JsiiTypes.EnumLikeProperties | packages/decdk/lib/jsii2schema.ts:531-533 | exactly the static properties of a type extending the class |
| JsiiTypes.Implementations | packages/decdk/lib/jsii2schema.ts:575-593 | exactly the concrete classes that extend or implement the type |
| JsiiTypes.EnumLikeInOrder | packages/decdk/lib/jsii2schema.ts:527-533 | enum-like members come in the order in which the class lists them |
| JsiiTypes.ImplementationsInOrder | packages/decdk/lib/jsii2schema.ts:575-593 | implementations come in the order of the classes |
| Schematizability.DerivableHigher | packages/decdk/lib/jsii2schema.ts:89-141 | derivations by the rules are monotone in their height |
| Schematizability.Cut | packages/decdk/lib/jsii2schema.ts:63-66 | avoiding an interface that has no derivation of this height changes nothing |
| Schematizability.NoNeedOfItself | packages/decdk/lib/jsii2schema.ts:58-86 | an interface that only its properties make schematizable does not need itself, so cutting the cycle loses nothing |
| Schematizability.CommonHeight | packages/decdk/lib/jsii2schema.ts:293-321 | required properties that are schematizable each are so together |
| Schemas.EnumLikeShape | packages/decdk/lib/jsii2schema.ts:349-376 | the alternatives of an enum-like class are its properties and the methods that are not under way |
| Schemas.AllRequiredListed | packages/decdk/lib/jsii2schema.ts:390-404 | all required arguments are listed if each has a schema without the types under way, and only if each has one |
| Schemas.RequiredParameterDropped | packages/decdk/lib/jsii2schema.ts:390-404 | a method whose required parameter has no schema can only get the schema of an object without properties |
| Jsii2Schema.DroppedParameter | packages/decdk/lib/jsii2schema.ts:386-429 | a run for such a method, which returns that schema |
| Jsii2Schema.NoRuleApplies | packages/decdk/lib/jsii2schema.ts:116-140 | when the interface, enum-like and polymorphic attempts have failed, no rule gives a schema without what is under way |
| Jsii2Schema.InterfaceRule | packages/decdk/lib/jsii2schema.ts:276-331 | an interface whose required properties are schematizable is so itself |
| Jsii2Schema.SchemaContext.Enter | packages/decdk/lib/jsii2schema.ts:62-68 | a name that is not defined and not under way becomes under way |
| Jsii2Schema.SchemaContext.Leave | packages/decdk/lib/jsii2schema.ts:70-82 | the schema is stored if there is one, the stack is restored, and nothing else defined changes |
| Jsii2Schema.DefineKeeps | packages/decdk/lib/jsii2schema.ts:79-85 | storing a schema keeps all references defined and all definitions of the right shape |
| Jsii2Schema.SchemaContext.SchemaForTypeReference | packages/decdk/lib/jsii2schema.ts:89-141 | terminates on cyclic types; a schema describes the type and means it is schematizable; none means it is not without what is under way; what was at hand never fails |
| Jsii2Schema.SchemaContext.SchemaForArray | packages/decdk/lib/jsii2schema.ts:214-230 | the items are never undefined: the second evaluation succeeds if the first did |
| Jsii2Schema.SchemaContext.SchemaForMap | packages/decdk/lib/jsii2schema.ts:196-212 | a map has a schema if and only if its values do |
| Jsii2Schema.SchemaContext.SchemaForUnion | packages/decdk/lib/jsii2schema.ts:245-261 | a union has a schema if some member does; an option per member in order, where a member left out has no schema without what is under way and one listed has one |
| Jsii2Schema.SchemaContext.SchemaForInterface | packages/decdk/lib/jsii2schema.ts:276-331 | memoised success and success by the body agree; failure means under way, or that required properties need what is |
| Jsii2Schema.SchemaContext.InterfaceBody | packages/decdk/lib/jsii2schema.ts:289-330 | lists in order the properties with a schema, all required ones among them, or gives up for a required one without; an optional one left out has no schema without what is under way |
| Jsii2Schema.SchemaContext.SchemaForEnumLikeClass | packages/decdk/lib/jsii2schema.ts:333-377 | succeeds only for enum-like classes, and fails only if no enum-like member is left without what is under way |
| Jsii2Schema.SchemaContext.EnumLikeAlternatives | packages/decdk/lib/jsii2schema.ts:349-368 | exactly the enum-like properties and the calls of methods that are not under way |
| Jsii2Schema.SchemaContext.SchemaForPolymorphic | packages/decdk/lib/jsii2schema.ts:143-184 | succeeds if a concrete implementation is usable without what is under way, and only if one is usable |
| Jsii2Schema.SchemaContext.MethodSchema | packages/decdk/lib/jsii2schema.ts:379-430 | a method has a schema if and only if it is not under way |
| Jsii2Schema.SchemaContext.MethodBody | packages/decdk/lib/jsii2schema.ts:386-429 | a field per parameter in order, a struct at the end spread out; a required parameter is dropped only if it has no schema without what is under way, although the code means to give up then |
| Jsii2Schema.SchemaContext.AddProperty | packages/decdk/lib/jsii2schema.ts:390-404 | what one parameter adds: a field with its schema, or without one if it is optional, or nothing |
| Jsii2Schema.SchemaContext.ImplementationAlternatives | packages/decdk/lib/jsii2schema.ts:152-175 | lists what each concrete implementation has to offer without what is under way: a reference to it if it is enum-like, and a call of its initializer |
| Jsii2Schema.SchemaContext.DefineAnyOf | packages/decdk/lib/jsii2schema.ts:181-183 | unless it is defined or under way, the type is defined as exactly these alternatives |
| SchemaValues.PrimitiveExactly | packages/decdk/lib/jsii2schema.ts:231-243 | the schema of a primitive admits everything for any, objects for json, date-times for date, and values of its own kind for string, number and boolean |
| SchemaValues.PlainExactly | packages/decdk/lib/jsii2schema.ts:89-274 | the schema of a type made of primitives, enums and constructs, through arrays, maps and unions, admits exactly the values of the type |
| SchemaValues.AdmittedIsValue | packages/decdk/lib/jsii2schema.ts:89-141 | whatever the type, and whatever its schema refers to, a value that the schema admits is one of the type |
| SchemaValues.DefinitionMakes | packages/decdk/lib/jsii2schema.ts:143-184 | what a definition admits has the fields of the interface, or is a static property, a call of a static method or initializer, or makes an implementation |
| SchemaValues.PlainInterface | packages/decdk/lib/jsii2schema.ts:276-331 | the schema of an interface whose properties need no definitions admits exactly the objects with values of its properties and no other entries, required ones included |
| SchemaValues.PlainMethod | packages/decdk/lib/jsii2schema.ts:386-429 | the schema of a method whose arguments need no definitions admits exactly the objects with values of its parameters, and of the properties of a struct at the end in its place |
| SchemaValues.MethodAdmits | packages/decdk/lib/jsii2schema.ts:386-429 | whatever the arguments need, what the schema of a method admits has values of its parameters only, and all required ones that need no definitions |
| SchemaValues.EnumLikeAdmits | packages/decdk/lib/jsii2schema.ts:349-368 | the alternatives of an enum-like class admit every such property by name and every call of such a method that is not under way |
| SchemaValues.ResourceAdmits | packages/decdk/lib/cdk-schema.ts:88-99 | an object that the schema of a construct admits has no entries but its name as `Type` and values of the third parameter of its initializer as `Properties` |
| CdkSchema.Deconstructs | packages/decdk/lib/cdk-schema.ts:22-30 | exactly the concrete constructs with named props that are no CloudFormation resources |
| CdkSchema.DeconstructsInOrder | packages/decdk/lib/cdk-schema.ts:22-30 | they are in the order of their classes |
| CdkSchema.SchemaForResource | packages/decdk/lib/cdk-schema.ts:80-100 | a resource is rendered if and only if its props are schematizable |
| CdkSchema.RenderFullSchema | packages/decdk/lib/cdk-schema.ts:17-54 | added to what the CloudFormation schema defines and lists are, in order, exactly the resources whose props are schematizable by the rules alone; given definitions stay |
| CfnRuntime.PartsSmaller | packages/@aws-cdk/core/lib/runtime.ts:265-297 | what a validator looks at next, fields and elements, is no larger than the value it is in, so validators of recursive types end |
| CfnRuntime.FirstOtherIs | packages/@aws-cdk/core/lib/runtime.ts:359-372 | alternatives are tried until one does not fail, elements until one does not pass |
| CfnRuntime.CountsUpTo | packages/@aws-cdk/core/lib/runtime.ts:273-273 | a loop up to a number runs for exactly the indices that are less |
| CfnMeaning.UnionMeaning | tools/cfn2ts/lib/codegen.ts:751-753 | running the validator of a union gives the first verdict of its types that is no failure |
| CfnMeaning.ListOrAtomMeaning | tools/cfn2ts/lib/codegen.ts:769-774 | for a property with single and item types: that of the single types, or else that of a list of items |
| CfnMeaning.ValidatorMeaning | tools/cfn2ts/lib/codegen.ts:706-782 | running the validator generated for a property, through the validators it calls, gives the verdict of its specification, aliases and recursive records included |
| CfnNames.PrimitiveSays | tools/cfn2ts/lib/genspec.ts:243-254 | for each of the seven primitive types: the validator emitted for a property passes what it cannot inspect and what is a number for Integer, Long and Double, a boolean for Boolean, a text for String, an object, list or date for Json and a valid date for Timestamp, which throws at what it cannot inspect but is not missing |
| CfnNames.ListSays | tools/cfn2ts/lib/codegen.ts:754-759 | for a list of a type or of a union: it says what the validator of such an element says of the elements in turn |
| CfnNames.ListLikeSays | packages/@aws-cdk/core/lib/runtime.ts:265-281 | an object fails for a list unless it has a truthy `forEach`; with a numeric length, what counts is what the element validator says in turn of its fields for the indices below that |
| CfnNames.MapSays | tools/cfn2ts/lib/codegen.ts:760-762 | for a map of single values: what the validator of such a value says of the entries in turn |
| CfnNames.MapOfListsSays | tools/cfn2ts/lib/codegen.ts:763-765 | for a map of lists of a primitive type: what the validator of such a list says of the entries in turn |
| CfnNames.UnionSays | tools/cfn2ts/lib/codegen.ts:751-753 | for a union: what the validators of its types say in turn, until one does not fail; a type says the same under any of the fields that can name it |
| CfnNames.EitherSays | tools/cfn2ts/lib/codegen.ts:769-774 | for a union of single values and lists: what the single values say, unless that is to fail, and then what the list says |
| CfnNames.TagSays | tools/cfn2ts/lib/genspec.ts:263-266 | for a tag: it passes if it has a key and a value |
| CfnNames.RecordSays | tools/cfn2ts/lib/codegen.ts:721-779 | for a record of the resource: it passes what can have fields, if the required ones are there and the validators of all properties pass what is in them |
| CfnNames.ResourceSays | tools/cfn2ts/lib/codegen.ts:721-779 | so does the validator of the properties of a resource |
| CfnNames.AliasSays | tools/cfn2ts/lib/codegen.ts:744-750 | for another name of a property: what the validator of the property says |
| CfnNames.UndefinedThrows | tools/cfn2ts/lib/genspec.ts:271-272 | for a property type that the resource does not define: it throws |
| CfnAdmission.FitsIff | packages/@aws-cdk/core/lib/runtime.ts:265-297 | what fits a property loosely is what the specification admits and what slips through, at any depth |
| CfnAdmitted.PrimitiveAdmits | tools/cfn2ts/lib/genspec.ts:243-254 | for each of the seven primitive types, a property admits what cannot be inspected, and else values of that kind only |
| CfnAdmitted.UnionAdmits | tools/cfn2ts/lib/genspec.ts:143-186 | a union admits what one of its types does, whichever fields name them |
| CfnAdmitted.ListAdmits | packages/@aws-cdk/core/lib/runtime.ts:265-281 | a list admits lists whose elements are all admitted |
| CfnAdmitted.MapAdmits | packages/@aws-cdk/core/lib/runtime.ts:286-297 | a map admits objects whose entries are all admitted |
| CfnAdmitted.MapOfListsAdmits | tools/cfn2ts/lib/codegen.ts:763-765 | a map of lists admits objects whose entries are all admitted by such lists |
| CfnAdmitted.EitherAdmits | tools/cfn2ts/lib/codegen.ts:769-774 | a union with lists admits what either of them does |
| CfnAdmitted.TagAdmits | packages/@aws-cdk/core/lib/runtime.ts:252-260 | a tag has a key and a value |
| CfnAdmitted.RecordAdmits | tools/cfn2ts/lib/codegen.ts:721-779 | a record admits objects with its required fields and with values that its properties admit |
| CfnAdmitted.AliasAdmits | tools/cfn2ts/lib/codegen.ts:744-750 | another name for a property admits what the property does |
| CfnAdmitted.UndefinedAdmits | tools/cfn2ts/lib/genspec.ts:271-272 | a property type that the resource does not define admits nothing that can be inspected |
| CfnVerdicts.PropertyExplained | packages/@aws-cdk/core/lib/runtime.ts:206-386 | the verdict is to throw exactly at what trips, and to pass exactly what fits loosely and does not trip |
| CfnVerdicts.CalmNeverThrows | packages/@aws-cdk/core/lib/runtime.ts:206-260 | for a sound specification nothing throws at a value without nulls and without anything to be replaced |
| CfnVerdicts.PassesIff | tools/cfn2ts/lib/codegen.ts:706-782 | a value passes the generated validator if and only if it is admitted or slips through and nothing in it trips the validator, which throws if and only if something does |
| CfnExamples.MapTakesOtherThings | packages/@aws-cdk/core/lib/runtime.ts:286-297 | a list of a string, a number and a string pass for a map of strings |
| CfnExamples.ListTakesObject | packages/@aws-cdk/core/lib/runtime.ts:265-281 | an object with a `forEach` of its own and no length passes for a list of strings, and its mapper throws |
| CfnExamples.RecordTakesList | tools/cfn2ts/lib/codegen.ts:722-748 | in a sound specification a list or date passes for a record that requires nothing, if nothing in it is a null or to be replaced and no property is called `length`; what lists inherit under other names, as `filter`, is outside the model |
| CfnExamples.TimestampThrows | packages/@aws-cdk/core/lib/runtime.ts:233-243 | the validator of a date throws at a null and at what CloudFormation is to replace |
| CfnMappers.UnionKeeps | packages/@aws-cdk/core/lib/runtime.ts:359-372 | validators of a union may be replaced by others that at times throw, and the union says the same or throws |
| CfnMappers.DispatchFair | tools/cfn2ts/lib/codegen.ts:502-546 | each union of a mapper lists a validator per member that says what the validator of the member says, unless it throws, for it need not exist |
| CfnMappers.MapperMatches | packages/@aws-cdk/core/lib/runtime.ts:83-103 | where the validator of an expression passes, its mapper does not run out of validators |
| CfnMappers.MapperNeverUnmatched | packages/@aws-cdk/core/lib/runtime.ts:98-101 | whatever the specification and the value, no generated mapper gets to the error that no validator matched, as the comment there says |
| CfnMappers.UnionChooses | packages/@aws-cdk/core/lib/runtime.ts:86-103 | without a validation ahead of it, a union ends unmatched at what all its validators refuse, and else maps by the member whose validator is the first to pass |
| CfnExamples.UnmatchedUnvalidated | packages/@aws-cdk/core/lib/runtime.ts:98-101 | the mapper of a union of numbers and booleans, called with a text that nobody has validated, does get to that error |
| CfnExamples.MissingTagBreaks | packages/@aws-cdk/core/lib/runtime.ts:49-54 | an optional tag that is missing passes and is then asked for its key |
| CfnStructure.SameStructure | tools/cfn2ts/lib/codegen.ts:502-546 | the validator, mapper and factory of a property have the same type structure |
| CfnStructure.CalledString | tools/cfn2ts/lib/codegen.ts:604-612 | the special case for arrays of strings is taken for strings only |
| CfnStructure.ResolvesIffSound | tools/cfn2ts/lib/codegen.ts:594-671 | a mapper or factory expression refers only to functions that exist if and only if its property is sound, and then so does the validator |
| CfnUnions.MemberValidator | tools/cfn2ts/lib/codegen.ts:510-514 | the validator named for a union member has the structure of the member if and only if the member is no alias |
| CfnUnions.DiscriminatesIffPlain | tools/cfn2ts/lib/codegen.ts:623-664 | all unions of a mapper or factory list fitting validators in order if and only if no union has an alias in it |
| CfnUnions.AliasesInlined | tools/cfn2ts/lib/codegen.ts:503-509 | a function of an alias is never called as an atom |
| CfnGenerator.InPropertyTypesCode | tools/cfn2ts/lib/codegen.ts:89-100 | a resource's property types get their three functions exactly if they are records |
| CfnGenerator.CodeComplete | tools/cfn2ts/lib/codegen.ts:65-76 | every function and class of the specification is emitted exactly once and nothing else is |
| CfnNames.EmittedIff | tools/cfn2ts/lib/codegen.ts:65-134 | a function of each kind is emitted for the properties of a resource if there are some and for a property type if it is a record, and a class for each resource, which refers to its factory and mapper if it has properties |
| CfnGenerator.NoDanglingIffSound | tools/cfn2ts/lib/genspec.ts:143-186 | whatever emitted code refers to is built in or emitted if and only if every property is sound |
| CfnExamples.AliasInUnionDangles | tools/cfn2ts/lib/codegen.ts:505-516 | a specification with an alias in a union, whose code refers to a validator that does not exist |
| CfnExamples.AliasInUnionBreaks | packages/@aws-cdk/core/lib/runtime.ts:83-96 | there a text passes for the union and its mapper calls that validator |
| CfnGenerator.CodeGenerator.EmitCode | tools/cfn2ts/lib/codegen.ts:65-76 | the buffer ends with that code |
| CfnGenerator.CodeGenerator.EmitPropsType | tools/cfn2ts/lib/codegen.ts:113-134 | a resource without properties gets no functions, any other gets three |
| CfnGenerator.CodeGenerator.EmitResourceType | tools/cfn2ts/lib/codegen.ts:181-260 | a class with properties refers to its factory and mapper |
| CfnGenerator.CodeGenerator.EmitPropertyTypes | tools/cfn2ts/lib/codegen.ts:89-100 | appends the functions of the resource's record types and skips aliases and other resources |
| CfnGenerator.CodeGenerator.EmitCloudFormationMapper | tools/cfn2ts/lib/codegen.ts:469-552 | a mapper validates first and then maps each property |
| JsonValues.GetAfterSet | tools/pkglint/lib/util.ts:118-151 | what was written is read back |
| JsonValues.GetElsewhere | tools/pkglint/lib/util.ts:133-151 | a write leaves every path alone that is neither a prefix nor an extension of the one written |
| JsonValues.SetAfterSet | tools/pkglint/lib/util.ts:133-151 | the last of two writes wins and the first leaves no trace |
| JsonValues.SetWhatIsThere | tools/pkglint/lib/util.ts:133-151 | writing what is there changes nothing |
| JsonValues.MakeOnTheWay | tools/pkglint/lib/util.ts:140-144 | making missing records on the way does not change the outcome of the write |
| JsonValues.SettableAfterSet | tools/pkglint/lib/util.ts:133-151 | a write stops exactly the writes beyond it, if it is of a plain value |
| JsonValues.SameAsPlain | tools/pkglint/lib/util.ts:8-17 | comparing texts of values is comparing values, if one of them is plain |
| JsonValues.InsertOrdered | tools/pkglint/lib/util.ts:142-150 | a new key keeps the order of JavaScript objects: indices first, by size, and then the others as they came |
| JsonValues.InsertedBetween | tools/pkglint/lib/util.ts:142-150 | a new key comes after all smaller indices and ahead of the rest if it is an index, and last if it is not |
| JsonValues.IndicesAre | tools/pkglint/lib/util.ts:142-150 | the indices are the numbers up to the limit, in decimals without leading zeros |
| JsonValues.IndicesInAnyOrder | tools/pkglint/lib/util.ts:150-150 | entries with indices for names may be made in any order |
| JsonValues.SetKeepsOrdered | tools/pkglint/lib/util.ts:133-151 | a write keeps the keys of all records in order |
| JsonValues.EmptySettable | tools/pkglint/lib/util.ts:140-148 | a path can be made from nothing if and only if no part of it but the last is an inherited name |
| JsonValues.LeftoverOnlyBefore | tools/pkglint/lib/util.ts:140-148 | a write that is refused leaves the document as it was unless an inherited name is on the way |
| JsonObjects.WriteAt | tools/pkglint/lib/util.ts:150-150 | writing one field of one object turns the objects of a document into those of the document set there, none shared |
| JsonPaths.DeepGet | tools/pkglint/lib/util.ts:118-126 | the loop finds the value at the path, or nothing if part of it is no object; a function found under an inherited name counts as nothing |
| JsonPaths.DeepSet | tools/pkglint/lib/util.ts:133-151 | the loop writes the document set at the path; it is refused exactly if something on the way is no object or an inherited name, and leaves the records made before that |
| Splitting.SplitAt | tools/pkglint/lib/util.ts:9-9 | the parts before and after a separator are split apart |
| VersionVoting.TallyTallies | tools/pkglint/lib/rules.ts:1260-1276 | versions are listed once each with the number of their votes, and the counts add up to all votes |
| VersionVoting.WinnerHasMost | tools/pkglint/lib/rules.ts:1288-1290 | the version chosen is used and no other is used more often |
| Agreement.OwnVersionIsTarget | tools/pkglint/lib/rules.ts:1234-1282 | a dependency that is a package of our own should have the version in that package.json, the last one of the name |
| Agreement.UsesCounted | tools/pkglint/lib/rules.ts:1260-1276 | the votes for a version are the entries of the sections with it, other than the star |
| Agreement.MostUsedIsTarget | tools/pkglint/lib/rules.ts:1284-1291 | any other dependency should have a version that is used, and that none is used more often than; none if only the star is used |
| Agreement.EarlierUsePreferred | tools/pkglint/lib/rules.ts:1270-1290 | of two versions used equally often it is not the one that is first used later |
| VersionFixes.FixesRetarget | tools/pkglint/lib/packagejson.ts:121-136 | without dotted names all fixes succeed and move every use to the version it should have, and change nothing else |
| DottedNames.DottedEntryKept | tools/pkglint/lib/util.ts:8-17 | the fixes never change the version of a dependency with a dot in its name |
| FixOutcomes.SettableAfterFixes | tools/pkglint/lib/packagejson.ts:121-136 | fixes stop exactly the writes beyond them |
| FixOutcomes.GetUnfixed | tools/pkglint/lib/packagejson.ts:121-136 | what is found after all fixes where none has written |
| DottedNames.FixesSucceedIff | tools/pkglint/lib/packagejson.ts:121-136 | the fixes of a package all succeed if and only if none is written beyond a plain entry, an earlier fix or an inherited name |
| FixedSections.EntryAfter | tools/pkglint/lib/rules.ts:1252-1258 | an entry with a plain name gets the version it should have, one with a dot keeps its own |
| FixedSections.SectionKeys | tools/pkglint/lib/rules.ts:1252-1258 | a section gains exactly the first parts of the astray names in it |
| FixedSections.StrayAfter | tools/pkglint/lib/util.ts:133-151 | each of those is a record, made by the fixes beyond it |
| FixedSections.AstrayAfter | tools/pkglint/lib/util.ts:118-126 | what the next round takes for the version of an astray dependency: the one it should have, unless a fix replaced it |
| FixedSections.DottedSpoilsAt | tools/pkglint/lib/util.ts:8-17 | a fix for an astray dependency that does not throw leaves a document that is no package.json |
| SecondRound.TargetKept | tools/pkglint/lib/rules.ts:1278-1291 | the round leaves the version that a dependency should have as it was, unless a record made by it has that name |
| SecondRound.OutcomeIffFixable | tools/pkglint/bin/pkglint.ts:27-40 | the fixes of all packages succeed if and only if each is fixable |
| SecondRound.SilentIffQuiet | tools/pkglint/lib/rules.ts:1227-1292 | after fixes that succeed, the rule has nothing to report if and only if what the fixes leave for astray dependencies is what it expects there |
| SecondRound.SettlesIffNoDotted | tools/pkglint/lib/rules.ts:1227-1292 | the fixes succeed and leave manifests if and only if no dependency is astray |
| SecondRound.NothingReported | tools/pkglint/lib/rules.ts:1227-1292 | then the rule has nothing to report |
| SecondRound.SettledAgree | tools/pkglint/lib/rules.ts:1222-1226 | afterwards all uses of a plain name have the version they should have, unless a record made by the fixes has that name |
| Agreement.OwnVersionUsed | tools/pkglint/lib/rules.ts:1278-1283 | after fixes that leave manifests every use of a package of our own has the version in its package.json |
| Agreement.FixedUse | tools/pkglint/lib/rules.ts:1252-1258 | after them the packages use what they used, each at the version it should have |
| Agreement.SilentIffAgreed | tools/pkglint/lib/rules.ts:1239-1258 | without dots in names, the rule is silent if and only if every use has the version it should have |
| SavedDocuments.EntryWhole | tools/pkglint/lib/packagejson.ts:97-99 | the only entries that are not saved are those of packages of ours without a version |
| SavedDocuments.TargetSaved | tools/pkglint/lib/rules.ts:1278-1291 | saving and reading back changes no version that a dependency should have |
| SavedDocuments.SilentSaved | tools/pkglint/lib/packagejson.ts:97-99 | the rule says the same about the packages in memory and as they are read back |
| SavedDocuments.CountableSaved | tools/pkglint/lib/rules.ts:1260-1276 | the next run can count all versions if and only if no dependency with an inherited name has been given one |
| SavedDocuments.NextRunIff | tools/pkglint/bin/pkglint.ts:27-40 | the next run over the saved files neither throws nor reports if and only if both were so |
| SecondRoundExamples.StrayRecordUnnoticed | tools/pkglint/lib/rules.ts:1260-1291 | a dependency astray whose fix leaves a record that wins its own vote, so that the next run succeeds |
| SecondRoundExamples.IndicesAgree | tools/pkglint/lib/util.ts:8-17 | two packages that list names with indices in them in different orders, for which the rule is silent after the fixes |
| SecondRoundExamples.InheritedPartThrows | tools/pkglint/lib/util.ts:140-148 | a dependency whose name starts with an inherited one, for which the fix throws |
| SecondRoundExamples.CountThrows | tools/pkglint/lib/rules.ts:1266-1270 | a dependency with an inherited name, whose version cannot be counted |
| SecondRoundExamples.FixThrows | tools/pkglint/lib/util.ts:133-151 | a dependency astray whose fix throws |
| Pkglint.PackageJson.ExpectJson | tools/pkglint/lib/util.ts:8-17 | a fix is reported exactly if something else is found at the path |
| Pkglint.PackageJson.ApplyFixes | tools/pkglint/lib/packagejson.ts:121-136 | the fixes run in order on the objects of the document; the run fails exactly if one of them throws |
| Pkglint.SortByCount | tools/pkglint/lib/rules.ts:1289-1289 | the same entries by falling count, the first of the most counted in front |
| Pkglint.CountedAt | tools/pkglint/lib/rules.ts:1270-1275 | updating the entry found, or appending one, is counting one more vote |
| Pkglint.AllVersionsTheSame.RecordDep | tools/pkglint/lib/rules.ts:1260-1276 | one more vote is counted unless it is for any version; under an inherited name that throws |
| Pkglint.AllVersionsTheSame.Prepare | tools/pkglint/lib/rules.ts:1233-1250 | throws exactly if a version under an inherited name is to be counted; if not, the rule knows the versions of all packages seen and has the tally of all they use |
| Pkglint.AllVersionsTheSame.ValidateDep | tools/pkglint/lib/rules.ts:1278-1291 | our own version comes first, then the majority, and sorting in place changes no decision |
| Pkglint.AllVersionsTheSame.Validate | tools/pkglint/lib/rules.ts:1239-1258 | reports every use that has not the version it should have, in order |
| PkglintRun.Check | tools/pkglint/bin/pkglint.ts:27-40 | a run without fixes, over whatever sections an earlier run has left, succeeds if and only if all versions can be counted and the rule has nothing to say |
| PkglintRun.Lint | tools/pkglint/bin/pkglint.ts:27-40 | a run with fixes fails exactly if something cannot be counted or some package is not fixable; if not, each package is as its fixes make it, the next run over the saved documents succeeds exactly if the packages were quiet and stay countable, and they are manifests again exactly if nothing was astray |
| ContextBags.LookupAfterSet | packages/aws-cdk/lib/settings.ts:196-212 | a key that is set reads as the layers say, and no other key changes |
| ContextBags.LookupIsFirst | packages/aws-cdk/lib/settings.ts:196-202 | a key reads as in the first bag that has it |
| ContextBags.SetBagsAt | packages/aws-cdk/lib/settings.ts:204-212 | of the writable bags the first gets the value and the others lose the key |
| ContextBags.LastIs | packages/aws-cdk/lib/settings.ts:204-222 | the last value of a key is that of the last operation about it, or none after it was unset or all was cleared |
| ContextBags.LayeredIsFirst | packages/aws-cdk/lib/settings.ts:162-223 | a key reads as in the first layer that has it: a read-only bag, or the map in place of the first writable one |
| ContextBags.RunReads | packages/aws-cdk/lib/settings.ts:162-223 | after any operations a key reads as if its last value stood in one map between the read-only bags |
| ContextBags.TouchedInOneBag | packages/aws-cdk/lib/settings.ts:165-168 | a key that an operation was about is in no writable bag but the first |
| ContextBags.Context.Get | packages/aws-cdk/lib/settings.ts:196-202 | the value of the first bag that has the key |
| ContextBags.Context.Set | packages/aws-cdk/lib/settings.ts:204-212 | the first writable bag takes the value, later ones lose theirs, read-only ones stay |
| ContextBags.Context.Clear | packages/aws-cdk/lib/settings.ts:218-222 | every key is gone from every writable bag |
| AssetManifests.Select | packages/cdk-assets/lib/asset-manifest.ts:63-85 | without a selection the manifest itself; otherwise its entries are filtered in order by whether some pattern matches, and no asset is left without destinations |
| AssetManifests.SelectedMeans | packages/cdk-assets/lib/asset-manifest.ts:270-276 | a destination is selected if some pattern names its asset or any, and its destination or any |
| AssetManifests.FilterKeepsOrder | packages/cdk-assets/lib/asset-manifest.ts:63-85 | the entries kept are those at the positions that are selected, in order |
| AssetManifests.GetEntries | packages/cdk-assets/lib/asset-manifest.ts:111-129 | all files and then all images, once per destination |
| AssetManifests.AllEntriesAt | packages/cdk-assets/lib/asset-manifest.ts:111-129 | where in the list the entry of each destination of each file and image is, and what it has |
| AssetManifests.FilterDict | packages/cdk-assets/lib/asset-manifest.ts:230-238 | the entries that pass, in order |
| AssetManifests.FilterTwice | packages/cdk-assets/lib/asset-manifest.ts:63-85 | selecting twice keeps what both selections match, in either order |
| AssetManifests.ParseOfToString | packages/cdk-assets/lib/asset-manifest.ts:247-283 | a pattern is read back from its string if and only if its parts are not empty, no wildcard and without separator |
| AssetManifests.ParseOne | packages/cdk-assets/lib/asset-manifest.ts:247-250 | a text without separator names an asset, or any if it is a star; an empty one is refused |
| AssetManifests.ParseTwo | packages/cdk-assets/lib/asset-manifest.ts:251-251 | with one separator it names an asset and a destination, either of which is any if it is empty or a star |
| AssetManifests.ParseMore | packages/cdk-assets/lib/asset-manifest.ts:252-252 | with more it is refused |
| AssetManifests.ParseToStringParse | packages/cdk-assets/lib/asset-manifest.ts:247-283 | every accepted string stands for the same pattern as the string of that pattern |
| AssetPublishing.Reach | packages/cdk-assets/lib/publishing.ts:70-95 | the assets handled are those before the first abort, and one whose handler had started |
| AssetPublishing.OutcomesAddUp | packages/cdk-assets/lib/publishing.ts:88-92 | each handled asset is published or failed, and not both |
| AssetPublishing.OutcomeKeepsOrder | packages/cdk-assets/lib/publishing.ts:79-92 | the assets failed are those whose handler threw or was aborted, in order, and the published ones are the others |
| AssetPublishing.PercentMeans | packages/cdk-assets/lib/publishing.ts:102-105 | the percentage is that of the operations completed, rounded down |
| AssetPublishing.PercentGrows | packages/cdk-assets/lib/publishing.ts:102-105 | the percentage grows with the operations completed |
| AssetPublishing.AssetPublisher.PublishOne | packages/cdk-assets/lib/publishing.ts:71-94 | one asset is started and published or failed, unless the run is aborted first |
| AssetPublishing.AssetPublisher.Publish | packages/cdk-assets/lib/publishing.ts:67-100 | exactly the assets within reach are handled in order, the percentage never falls and ends at 100 exactly if all are, and the run throws exactly if it should and something failed |

## Left out

- SafeRunKeepsVersions: states a sufficient condition for a whole run, and `SafeRunNotNecessary` shows that it is not necessary. The condition for a single move is exact.
- HoistDependencies: `didChange` is a result of each method instead of a variable shared by nested functions; names that JavaScript objects inherit and the special order of integer-like keys are not modelled.
- DependenciesFor: `require.resolve`, reading files and yarn.lock are a given table; a cyclic table is excluded, on which the code does not terminate. `resolved` and `integrity` stand for themselves in `meta`.
- `formatPackageLock`, `findUp` and the writing of the lock file.
- CheckForCycles: the order in which Python yields the elements of a set is left open.
- SchemaForTypeReference: diagnostics, child contexts, comments and docstrings; names given to `define` are keys, so that two names that differ only in a slash do not collide; lookups of unknown types do not throw.
- SchemaForUnion, and with it interfaces and parameters: whether a member is dropped that has a schema, but none without the types under way, depends on where the generator started.
- MethodBody: follows the code, in which the early return for a required parameter without a schema leaves the inner function only.
- RenderFullSchema: the definitions of the CloudFormation schema are given and never looked up. `isSerializableTypeReference` and the declarative stack.
- EmitCode: documentation, class members, attributes, native TypeScript types, and which properties mappers and factories require; functions are named by kind and type, so collisions of concatenated names are not seen. Aliases that lead to themselves are excluded, on which the code does not terminate. The order of properties within a function follows the specification.
- Run: fields that JavaScript values inherit are missing, except for the `forEach` of lists; a function in place of a value. A validator that does not exist throws when it is called, not already when it is named. Values and lengths are finite; how a length that is a text, a list, a date or an object counts as a number is left open, but not that it throws.
- MapTo: says how a mapper ends and not what it returns. Factories are compared by structure only.
- ExpectJson: ignoring parts by pattern and case, which this rule does not use. What `JSON.stringify` says of a value is its contents.
- ApplyFixes: fixes that write an object, which the code would share between documents; none are reported for manifests. Saving files, messages, and reports of other rules. Rules other than the one on versions, `include` and `exclude` patterns.
- DeepGet: the part `__proto__` of a path, through which the code reads what all objects share.
- DeepSet: the same part, through which the code writes there. Packages and dependencies of that name, or with that part in a dotted name, are excluded throughout.
- Lint: starts from manifests, whose sections hold plain values; what is in memory or saved after a fix has thrown is not stated. Dependency sections that are arrays or non-empty strings, and names of packages that are arrays or objects with a `toString` of their own.
- Context: bags that share a settings object, deep merging of values that are objects, `load` and `save`. Values are opaque.
- Select: records whose keys are integer-like. `list`, reading manifests from files.
- Publish: messages; what handlers do is given as whether they throw and when the run is aborted; a listener that throws is excluded, for it would count an asset twice. The percentage is computed exactly.
- The other tools and the construct libraries.
