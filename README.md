# Go reference resolution and completion, and the GoVisitor dispatch table

This project models two parts of a Go language plugin for an IDE.

The first is `GoReferenceBase`, the base class of Go references. It has two jobs.

- **Resolution** (`resolve`) finds the one element an identifier refers to.
  - An unqualified identifier is looked up in this order: the containing file, the other files of the same package in its directory, then the SDK's `builtin.go`.
  - A qualified identifier is looked up first among the members of the qualifier's type, then in the package directory the qualifier names.
  - Member lookup looks through one pointer level. It searches a struct's own members, then its embedded (anonymous) fields in order, then the methods of the type's declaration.
  - Every lookup is a first-match search: the first scope, file, member or method that gives a hit wins.
- **Completion** (`getVariants`) walks the same structure. Instead of stopping at the first hit, it appends every candidate to a result list.

The second part is the generated `GoVisitor`, a dispatch table of handlers.

- Each node-kind handler forwards to a category handler: expression, statement, type or composite element.
- Each category handler forwards to `visitCompositeElement`, which calls the platform's `visitElement`.

How the model is written:

- **Resolution** is modelled as pure functions over sequences, built on a first-hit search `FirstSome`.
- **Completion** is modelled as methods that append to a `LookupList` object, the caller's list. Each method is proved to append exactly what a specification function lists, in order. Lemmas then state what those functions offer.
- **Inputs.** The platform's file and directory lookups and the subclass hooks are inputs of the model:
  - `processUnqualified`, the entries `processFile` adds, and `createProcessor`;
  - the resolution of type references.
- **The visitor** is a function `Forward` from handler to handler. The chain of calls it produces is proved short, acyclic and always ending at the platform handler.

Two behaviours of the directory scans are easy to misread, and the model states them as the code has them:

- **Qualified directory lookup.** No package-name filter applies there. The code calls `processDirectory(dir, null, false)`, so it scans every Go file of the directory whatever its package. See `GoReferenceBase.QualifiedDirectoryScansAllPackages`.
- **Skipping the originating file.** Only the completion overload of `processDirectory` skips the file that has the originating file's name. The resolution overload scans the originating file again. See `GoReferenceCompletion.OriginatingFileInDirectory` and `GoReferenceCompletion.DirectoryFiltersDiffer`.

The model also records one asymmetry between completion and resolution. With a qualifier of type `*struct{ f int }`, completion offers `f` but resolution does not find it (`GoReferenceCompletion.PointerToUnnamedStruct`). Resolution looks up members in the pointer type itself, and then only behind a named pointee. Completion strips the pointer first.

Files:

| file | module | contents |
|---|---|---|
| `first_match.dfy` | `FirstMatch` | `Option`, first-hit search, concatenation of per-element contributions |
| `psi_model.dfy` | `PsiModel` | files, directories, Go types, declarations, completion entries, and the well-formed `World` that makes the embedding recursion terminate |
| `reference_resolve.dfy` | `GoReferenceBase` | resolution |
| `reference_completion.dfy` | `GoReferenceCompletion` | completion |
| `go_visitor.dfy` | `GoVisitor` | the dispatch table |

## Model

| member | source | states |
|---|---|---|
| FirstMatch.FirstSome | src/com/goide/psi/impl/GoReferenceBase.java:69-79 | the result is a hit iff some element gives one, and then it is the hit of an element before which no element gave one |
| PsiModel.TypeRefOf | src/com/goide/psi/impl/GoReferenceBase.java:132 | a type has a type reference expression exactly when it is a type name |
| PsiModel.NamedType | src/com/goide/psi/impl/GoReferenceBase.java:110-111 | exactly fields, anonymous fields, methods and other named declarations carry a type; import specs, import strings, directories and unnamed elements do not |
| PsiModel.OwnerSpec | src/com/goide/psi/impl/GoReferenceBase.java:174-175 | a type's parent as a TypeSpec exists exactly when the parent is one, and is that TypeSpec |
| PsiModel.EmbeddedRankDecreases | src/com/goide/psi/impl/GoReferenceBase.java:168-170 | following an embedded reference to a spec other than the struct's own lowers the termination measure |
| GoReferenceBase.GetDirectory | src/com/goide/psi/impl/GoReferenceBase.java:33-44 | a directory comes only from an import spec (its import string's target) or from a directory itself; anything else names none |
| GoReferenceBase.ProcessDirectory | src/com/goide/psi/impl/GoReferenceBase.java:67-80 | no directory gives nothing; a hit is processUnqualified's result on an admitted file before which no admitted file gave a hit; no hit means no admitted file gives one |
| GoReferenceBase.ResolveFiles | src/com/goide/psi/impl/GoReferenceBase.java:70-73 | the files scanned are Go files of the directory, and of the given package when one is given |
| GoReferenceBase.ProcessDirectoryIsScanOfVisitedFiles | src/com/goide/psi/impl/GoReferenceBase.java:67-80 | the directory scan equals a first-hit search over just the admitted Go files |
| GoReferenceBase.ResolveBuiltin | src/com/goide/psi/impl/GoReferenceBase.java:98-106 | inside builtin.go, or with no builtin Go file, the fallback gives nothing; outside builtin.go with a builtin Go file it is exactly processUnqualified on that file |
| GoReferenceBase.ResolveUnqualified | src/com/goide/psi/impl/GoReferenceBase.java:88-107 | a hit comes from processUnqualified on one of the scopes: local file, same-package files of the directory, builtin file |
| GoReferenceBase.UnqualifiedIsFirstOverScopes | src/com/goide/psi/impl/GoReferenceBase.java:88-107 | unqualified resolution equals one first-hit search over the scopes in order |
| GoReferenceBase.LocalScopeShadows | src/com/goide/psi/impl/GoReferenceBase.java:89-90 | a local hit is the result whatever the directory and the builtin file hold |
| GoReferenceBase.PackageScopeShadowsBuiltin | src/com/goide/psi/impl/GoReferenceBase.java:95-96 | with no local hit, a directory hit is the result whatever the builtin file holds |
| GoReferenceBase.BuiltinFallbackRule | src/com/goide/psi/impl/GoReferenceBase.java:98-106 | in builtin.go, or without a builtin file, only the first two scopes count; when both miss, the builtin file's hit is the result |
| GoReferenceBase.MethodByName | src/com/goide/psi/impl/GoReferenceBase.java:174-179 | the result is the first method of the TypeSpec whose name equals the identifier; nothing exactly when there is no TypeSpec or no method has that name |
| GoReferenceBase.ProcessInTypeRef | src/com/goide/psi/impl/GoReferenceBase.java:137-149 | an absent or unresolved reference gives nothing, and so does a target whose text matches the stopper |
| GoReferenceBase.ProcessExistingType | src/com/goide/psi/impl/GoReferenceBase.java:152-181 | a struct's direct member hit wins when a processor exists; without a processor or for a non-struct type the result is the parent TypeSpec's first method of that name; no result means no such method |
| GoReferenceBase.EmbeddedSearchNone | src/com/goide/psi/impl/GoReferenceBase.java:168-171 | the embedded loop from index k misses when every reference from k on misses |
| GoReferenceBase.StructFallsBackToMethods | src/com/goide/psi/impl/GoReferenceBase.java:154-180 | a struct whose direct lookup and every embedded reference miss, with a processor present, gives the parent TypeSpec's method of that name |
| GoReferenceBase.ProcessGoType | src/com/goide/psi/impl/GoReferenceBase.java:124-134 | no type gives nothing; a hit on the type itself is the result; otherwise the result is the lookup through the reference of the type with one pointer level removed, that type being the stopper |
| GoReferenceBase.TypeNameFollowsItself | src/com/goide/psi/impl/GoReferenceBase.java:124-134 | a type name that misses itself is looked up through its own reference, with itself as stopper |
| GoReferenceBase.FollowsResolvedReference | src/com/goide/psi/impl/GoReferenceBase.java:137-146 | a resolved reference whose target text differs from the stopper gives the lookup in the target type |
| GoReferenceBase.OnePointerLevel | src/com/goide/psi/impl/GoReferenceBase.java:130-133 | behind a pointer to a pointer nothing beyond the outer type is searched |
| GoReferenceBase.PointerToNamedType | src/com/goide/psi/impl/GoReferenceBase.java:130-133 | for a pointer to a named type that misses itself, the lookup follows the name with the pointee as stopper |
| GoReferenceBase.FirstEmbeddedHitWins | src/com/goide/psi/impl/GoReferenceBase.java:161-171 | with no direct member, the first embedded reference that gives a hit decides the result |
| GoReferenceBase.EmbeddedSearchAt | src/com/goide/psi/impl/GoReferenceBase.java:168-171 | the embedded loop from index k returns the hit of the first reference at or after k that gives one |
| GoReferenceBase.SelfEmbeddingStops | src/com/goide/psi/impl/GoReferenceBase.java:142-143 | a struct embedding its own TypeSpec is not searched again |
| GoReferenceBase.MethodPromotion | src/com/goide/psi/impl/GoReferenceBase.java:152-181 | a struct whose own lookup and embedded references before index i miss resolves to the method that the TypeSpec named by reference i declares under the identifier, when nothing in that TypeSpec's own type matches first |
| GoReferenceBase.ResolveQualified | src/com/goide/psi/impl/GoReferenceBase.java:108-118 | a hit is either the member of the qualifier's type or the hit of the qualifier's directory |
| GoReferenceBase.Resolve | src/com/goide/psi/impl/GoReferenceBase.java:84-121 | references outside Go files resolve to nothing; unqualified ones to the first hit over the scopes; qualified ones to the qualified lookup |
| GoReferenceBase.TypeMemberBeforeDirectory | src/com/goide/psi/impl/GoReferenceBase.java:110-114 | a type-member hit is returned without consulting the directory |
| GoReferenceBase.QualifiedDirectoryScansAllPackages | src/com/goide/psi/impl/GoReferenceBase.java:115-117 | the qualified directory lookup is the first hit in non-local mode over every Go file of the directory, whatever its package |
| GoReferenceBase.AllGoFilesVisited | src/com/goide/psi/impl/GoReferenceBase.java:70-73 | without a package name every Go file of the directory is scanned |
| GoReferenceBase.FirstImportEntry | src/com/goide/psi/impl/GoReferenceBase.java:271-275 | entries that are neither import specs nor import strings are skipped; the first that is one decides the result |
| GoReferenceBase.ResolveImportOrPackage | src/com/goide/psi/impl/GoReferenceBase.java:268-276 | an identifier absent from the import map gives nothing; otherwise the first deciding entry of its collection gives the result |
| GoReferenceBase.UnresolvedImportStringDecides | src/com/goide/psi/impl/GoReferenceBase.java:273 | an unresolved import string that comes first yields nothing, and later entries are not examined |
| GoReferenceCompletion.LookupList.Add | src/com/goide/psi/impl/GoReferenceBase.java:27 | appends one entry at the end |
| GoReferenceCompletion.LookupList.AddAll | src/com/goide/psi/impl/GoReferenceBase.java:61 | appends the entries processFile adds, in order |
| GoReferenceCompletion.FollowedRankDecreases | src/com/goide/psi/impl/GoReferenceBase.java:253-255 | following an embedded TypeSpec that is not an ancestor lowers the termination measure |
| GoReferenceCompletion.ProcessInType | src/com/goide/psi/impl/GoReferenceBase.java:233-266 | appends exactly the struct's field entries, then the entries of each followed embedded TypeSpec, then resolve's methods |
| GoReferenceCompletion.AddFieldDecls | src/com/goide/psi/impl/GoReferenceBase.java:235-241 | appends every field declaration's entries in declaration order |
| GoReferenceCompletion.AddFieldDecl | src/com/goide/psi/impl/GoReferenceBase.java:236-240 | appends the named fields of one declaration, then its anonymous field |
| GoReferenceCompletion.AddEmbedded | src/com/goide/psi/impl/GoReferenceBase.java:243-258 | appends the entries of every followed embedded reference, in collected order |
| GoReferenceCompletion.AddEmbeddedStep | src/com/goide/psi/impl/GoReferenceBase.java:251-257 | a reference is followed only when it resolves to a TypeSpec that is not an ancestor of the struct |
| GoReferenceCompletion.AddMethods | src/com/goide/psi/impl/GoReferenceBase.java:261-265 | appends resolve's methods in order when it is a TypeSpec, nothing otherwise |
| GoReferenceCompletion.ProcessDirectory | src/com/goide/psi/impl/GoReferenceBase.java:51-65 | appends processFile's entries for each directory file that is a Go file, not named like the originating file, and of its package when it has one |
| GoReferenceCompletion.DirectoryFiltersDiffer | src/com/goide/psi/impl/GoReferenceBase.java:51-80 | with an originating file, completion's file filter is resolution's (same package) minus the files named like the originating file |
| GoReferenceCompletion.FiltersAgreeWithoutOrigin | src/com/goide/psi/impl/GoReferenceBase.java:51-80 | with no originating file and no package name, both overloads scan exactly the Go files of the directory |
| GoReferenceCompletion.DirectoryVariantsAreFileItems | src/com/goide/psi/impl/GoReferenceBase.java:57-63 | directory completion is processFile's entries over the admitted files, in order |
| GoReferenceCompletion.OriginatingFileInDirectory | src/com/goide/psi/impl/GoReferenceBase.java:59 | resolution scans the originating file again when it is in the directory; completion never does |
| GoReferenceCompletion.ProcessImports | src/com/goide/psi/impl/GoReferenceBase.java:24-30 | keeps the list; in local mode appends one import entry per import-map key and nothing else; in non-local mode appends nothing |
| GoReferenceCompletion.GetVariants | src/com/goide/psi/impl/GoReferenceBase.java:185-231 | returns exactly the entries the specification function Variants lists |
| GoReferenceCompletion.AddTypeMembers | src/com/goide/psi/impl/GoReferenceBase.java:211-226 | appends the members of the type (one pointer level stripped), then the members of the TypeSpec its reference names |
| GoReferenceCompletion.AddReferencedMembers | src/com/goide/psi/impl/GoReferenceBase.java:219-225 | appends the members of the TypeSpec the type reference resolves to, if any |
| GoReferenceCompletion.UnqualifiedVariantsOverScopes | src/com/goide/psi/impl/GoReferenceBase.java:190-207 | unqualified completion is processFile's entries over file, other same-package files, builtin file, in that order and with nothing removed |
| GoReferenceCompletion.QualifiedVariantsOrder | src/com/goide/psi/impl/GoReferenceBase.java:209-227 | qualified completion ends with the entries of every Go file of the qualifier's directory, in non-local mode and with no package filter |
| GoReferenceCompletion.OwnFieldsOffered | src/com/goide/psi/impl/GoReferenceBase.java:235-241 | every named field and every anonymous field of a struct is offered |
| GoReferenceCompletion.EmbeddedOfferIncluded | src/com/goide/psi/impl/GoReferenceBase.java:250-258 | every entry offered for a followed embedded TypeSpec is offered for the embedding struct |
| GoReferenceCompletion.EmbeddedPrefix | src/com/goide/psi/impl/GoReferenceBase.java:250-258 | the entries of the first m embedded references are a prefix of those of the first n, for m no greater than n |
| GoReferenceCompletion.ResolvedMethodIsOffered | src/com/goide/psi/impl/GoReferenceBase.java:174-179 | without a member processor, a method that resolution finds for a type is among the entries completion offers for it |
| GoReferenceCompletion.PointerToUnnamedStruct | src/com/goide/psi/impl/GoReferenceBase.java:213-216 | for a qualifier typed as a pointer to an unnamed struct, completion offers the field and resolution finds nothing |
| GoVisitor.Category | gen/com/goide/psi/GoVisitor.java:9-411 | every node-kind handler forwards to one of the four category handlers, never to a kind handler or the platform |
| GoVisitor.Forward | gen/com/goide/psi/GoVisitor.java:7-417 | only the platform handler makes no call within GoVisitor, and every call goes to a strictly lower level |
| GoVisitor.Chain | gen/com/goide/psi/GoVisitor.java:7-417 | the call chain of any handler has at most four handlers, each calling the next, and ends at the platform's visitElement |
| GoVisitor.KindChain | gen/com/goide/psi/GoVisitor.java:7-417 | a kind's chain is its handler, its category unless that is visitCompositeElement, visitCompositeElement, the platform |
| GoVisitor.CategoryChain | gen/com/goide/psi/GoVisitor.java:121-123 | the expression, statement and type handlers call visitCompositeElement, which calls the platform |
| GoVisitor.ElementHandlerReachesPlatform | gen/com/goide/psi/GoVisitor.java:101-103 | visitElement(GoElement) goes through visitCompositeElement to the platform's visitElement and is not reached again |
| GoVisitor.ChainDescends | gen/com/goide/psi/GoVisitor.java:7-417 | along a chain the levels strictly decrease, so no handler occurs twice: the forwarding has no cycle |
| GoVisitor.Dispatch | gen/com/goide/psi/GoVisitor.java:7-417 | the handler that runs is on the chain, is overridden (or is the platform's), and no handler before it is overridden |
| GoVisitor.CategoryOverrideIntercepts | gen/com/goide/psi/GoVisitor.java:7-417 | an overridden category handler runs for every kind that forwards to it, unless the kind's own handler is overridden |
| GoVisitor.CompositeElementCatchesAll | gen/com/goide/psi/GoVisitor.java:413-415 | overriding only visitCompositeElement intercepts every GoVisitor handler |
| GoVisitor.NoOverrideReachesPlatform | gen/com/goide/psi/GoVisitor.java:7-417 | with nothing overridden every call ends at the platform's handler |
| GoVisitor.ExpressionKindsAreOnlyExpressions | gen/com/goide/psi/GoVisitor.java:9-395 | no expression kind is also listed as a statement or type kind |
| GoVisitor.StatementKindsAreNotTypes | gen/com/goide/psi/GoVisitor.java:29-391 | no statement kind is also listed as a type kind |
| GoVisitor.ExpressionExamples | gen/com/goide/psi/GoVisitor.java:9-371 | AddExpr, CallExpr, SelectorExpr, OperandName and TypeLit forward to visitExpression |
| GoVisitor.StatementExamples | gen/com/goide/psi/GoVisitor.java:29-299 | AssignmentStatement, ForStatement and ReturnStatement forward to visitStatement |
| GoVisitor.TypeExamples | gen/com/goide/psi/GoVisitor.java:25-335 | ArrayOrSliceType, PointerType, StructType and ReceiverType forward to visitType |
| GoVisitor.CompositeExamples | gen/com/goide/psi/GoVisitor.java:101-375 | TypeName and the GoElement handler forward to visitCompositeElement |

## Left out

- Platform lookups are not modelled; inputs stand in for them:
  - the containing file;
  - the qualifier and what it resolves to (calcQualifierResolve);
  - the file's directory;
  - the SDK home and its builtin file.
- Lookup-element construction is not modelled. A completion entry is the declaration it presents (`Lookup`), not a UI object.
- The subclass hooks are not modelled; they are parameters (`Hooks`): processUnqualified, processFile, createProcessor and the processor's declaration walk. processFile is taken to append a list of entries and do nothing else.
- The sequence of type references that the GoRecursiveVisitor collects for anonymous fields is not computed. It is taken as given, in order, on each struct (`embedded`), because that visitor is not part of this model.
- The resolution of type reference expressions is not modelled; a partial map stands in for it. References that resolve to something other than a TypeSpec are absent from the map.
- `PsiTreeUtil.isAncestor` is not computed; each type node carries the set of TypeSpecs above it (`enclosing`).
- Text matching (`textMatches`) is not modelled; it is equality of each type node's `text` field.
- GoReferenceBase.EmbeddedSearch: termination is proved only for well-formed worlds (`PsiModel.Valid`). In those, embedding is acyclic except for a struct embedding itself. Mutual embedding, including embedding that the textual stopper would cut, is outside the model.
- GoReferenceCompletion.ProcessInType: it is likewise proved only for well-formed worlds, so the ancestor test meets only self-embedding.
- GoReferenceCompletion.ProcessImports: the key-set order of the import map is unspecified, so the method picks keys in an arbitrary order. The contract states the set of entries appended and their number, not their order.
- A method declaration whose name is null is not modelled; names are always strings.
- Aliasing of the result list is not modelled: completion appends to a single `LookupList` owned by the call.
- Threading, read actions and index access are not modelled.
- GoVisitor: the node classes passed to the handlers are not modelled, only the handler each calls. The platform's visitElement is the end of the chain.
