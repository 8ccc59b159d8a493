/** The abstract program model the reference engine walks: files and
    directories, the syntax of Go types as far as member lookup needs it,
    the declarations a lookup can return, and the entries completion offers.
    The platform's tree navigation, reference resolution of type names and
    text comparison are represented by plain fields and a partial map. */
module PsiModel {
  import opened FirstMatch

  /** A type reference expression (`T` in `x T` or in an embedded field). */
  type RefId = nat
  /** A TypeSpec, as an index into World.specs. */
  type SpecId = nat

  /** GoImportString: the quoted path of an import; `target` is what its
      reference resolves to (the imported directory), if anything. */
  datatype ImportStr = ImportStr(path: string, target: Option<Dir>)

  /** A directory and its files, in the platform's order. */
  datatype Dir = Dir(files: seq<PsiFile>)

  /** A platform file; only Go files take part in resolution. */
  datatype PsiFile = GoSource(go: GoFile) | OtherFile(name: string)

  /** A Go file: its name, its package clause (absent in a file without one),
      and its import map from import identifier to declarations. */
  datatype GoFile = GoFile(name: string, packageName: Option<string>, importMap: map<string, seq<Elem>>)

  /** A type node. Every node carries its source text, the TypeSpec that is its
      parent (if any; an index outside World.specs means the parent is not a
      TypeSpec), and the TypeSpecs that are its strict ancestors in the tree.
      A struct carries its field declarations and the type references of the
      anonymous fields found inside it, in the order the tree walk meets them. */
  datatype GoType =
    | StructType(text: string, owner: Option<SpecId>, enclosing: set<SpecId>,
                 fields: seq<FieldDecl>, embedded: seq<RefId>)
    | PointerType(text: string, owner: Option<SpecId>, enclosing: set<SpecId>,
                  pointee: Option<GoType>)
    | TypeName(text: string, owner: Option<SpecId>, enclosing: set<SpecId>, ref: RefId)
    | OtherType(text: string, owner: Option<SpecId>, enclosing: set<SpecId>)

  /** The type reference expression directly inside a type node, if any:
      only a type name has one. */
  function TypeRefOf(t: Option<GoType>): (r: Option<RefId>)
    ensures r.Some? <==> t.Some? && t.value.TypeName?
  {
    if t.Some? && t.value.TypeName? then Some(t.value.ref) else None
  }

  /** One pointer level removed: `*T` becomes `T`; any other type is kept. */
  function StripPointer(t: Option<GoType>): Option<GoType> {
    if t.Some? && t.value.PointerType? then t.value.pointee else t
  }

  /** A field declaration: named field definitions, an anonymous field, or both. */
  datatype FieldDecl = FieldDecl(definitions: seq<FieldDef>, anonymous: Option<AnonField>)
  datatype FieldDef = FieldDef(name: string, goType: Option<GoType>)
  datatype AnonField = AnonField(name: string, goType: Option<GoType>)
  datatype MethodDecl = MethodDecl(name: string, goType: Option<GoType>)

  /** A type declaration `type name T`, with the methods declared on it. */
  datatype TypeSpec = TypeSpec(name: string, underlying: Option<GoType>, methods: seq<MethodDecl>)

  /** What a reference can resolve to. */
  datatype Elem =
    | ImportSpec(importString: ImportStr)
    | ImportString(importString: ImportStr)
    | Directory(dir: Dir)
    | Field(field: FieldDef)
    | AnonymousField(anon: AnonField)
    | Method(decl: MethodDecl)
    | Named(name: string, goType: Option<GoType>)   // any other GoNamedElement: variable, constant, type spec, ...
    | Unnamed(id: nat)                              // any other element

  /** `e instanceof GoNamedElement ? e.getGoType() : (not named)`. */
  function NamedType(e: Elem): (r: Option<Option<GoType>>)
    ensures r.Some? <==> !(e.ImportSpec? || e.ImportString? || e.Directory? || e.Unnamed?)
  {
    match e
    case Field(f) => Some(f.goType)
    case AnonymousField(a) => Some(a.goType)
    case Method(m) => Some(m.goType)
    case Named(_, t) => Some(t)
    case _ => None
  }

  /** A completion entry, represented by the declaration it presents. */
  datatype Lookup =
    | VariableLike(decl: Elem)
    | FunctionOrMethod(methodDecl: MethodDecl)
    | ImportName(name: string)

  /** The project: its type declarations, and what each type reference
      expression resolves to; a reference absent from `refs` is unresolved or
      resolves to something other than a TypeSpec. */
  datatype World = World(specs: seq<TypeSpec>, refs: map<RefId, SpecId>)

  /** The TypeSpec that is the type node's parent, if its parent is one. */
  function OwnerSpec(w: World, t: GoType): (r: Option<TypeSpec>)
    ensures r.Some? <==> t.owner.Some? && t.owner.value < |w.specs|
    ensures r.Some? ==> r.value == w.specs[t.owner.value]
  {
    if t.owner.Some? && t.owner.value < |w.specs| then Some(w.specs[t.owner.value]) else None
  }

  /* The engine's mutual recursion through embedded fields terminates only
     when embedding is acyclic apart from a struct embedding itself (both the
     textual stopper of resolution and the ancestor test of completion catch
     that case). The well-formedness below orders the TypeSpecs so that a
     struct declared by spec i embeds only specs j <= i. */

  predicate RefsInRange(w: World) {
    forall r :: r in w.refs ==> w.refs[r] < |w.specs|
  }

  /** Spec i's type node has spec i as its parent (and so as an ancestor). */
  predicate OwnsItsType(w: World, i: int)
    requires 0 <= i < |w.specs|
  {
    var u := w.specs[i].underlying;
    u.Some? ==> u.value.owner == Some(i) && i in u.value.enclosing
  }

  /** A struct declared by spec i embeds no spec declared after it. */
  predicate EmbedsBelow(w: World, i: int)
    requires 0 <= i < |w.specs|
  {
    var u := w.specs[i].underlying;
    u.Some? && u.value.StructType? ==>
      forall k :: 0 <= k < |u.value.embedded| && u.value.embedded[k] in w.refs ==>
        w.refs[u.value.embedded[k]] <= i
  }

  predicate Valid(w: World) {
    RefsInRange(w) &&
    forall i :: 0 <= i < |w.specs| ==> OwnsItsType(w, i) && EmbedsBelow(w, i)
  }

  /** The termination measure of a struct: 1 + its spec's index when it is a
      spec's own type, one more than every spec otherwise; other types do
      not recurse and rank 0. */
  function Rank(w: World, t: Option<GoType>): nat {
    if t.None? || !t.value.StructType? then 0
    else if IsSpecType(w, t.value) then t.value.owner.value + 1
    else |w.specs| + 1
  }

  predicate IsSpecType(w: World, t: GoType) {
    t.owner.Some? && t.owner.value < |w.specs| && w.specs[t.owner.value].underlying == Some(t)
  }

  /** Following embedded reference k of a struct to a spec `j` that is not
      the struct's own spec strictly lowers the rank. */
  lemma EmbeddedRankDecreases(w: World, t: GoType, k: int, j: SpecId)
    requires Valid(w) && t.StructType? && 0 <= k < |t.embedded|
    requires t.embedded[k] in w.refs && w.refs[t.embedded[k]] == j
    requires IsSpecType(w, t) ==> j != t.owner.value
    ensures Rank(w, w.specs[j].underlying) < Rank(w, Some(t))
  {
    assert j < |w.specs|;
    assert OwnsItsType(w, j);
    if IsSpecType(w, t) {
      assert EmbedsBelow(w, t.owner.value);
    }
  }
}
