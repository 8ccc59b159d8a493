/** Completion in GoReferenceBase: getVariants and its helpers walk the same
    structure as resolution but append every candidate to the caller's result
    list. Each method is proved against a specification function giving the
    entries it appends, in order; the lemmas state what those functions offer. */
module GoReferenceCompletion {
  import opened FirstMatch
  import opened PsiModel
  import opened GoReferenceBase

  /** The caller's result list (a java.util.List<LookupElement>). */
  class LookupList {
    var elements: seq<Lookup>

    constructor ()
      ensures elements == []
    {
      elements := [];
    }

    method Add(x: Lookup)
      modifies this
      ensures elements == old(elements) + [x]
    {
      elements := elements + [x];
    }

    /** What processFile contributes: its entries, appended in order. */
    method AddAll(xs: seq<Lookup>)
      modifies this
      ensures elements == old(elements) + xs
    {
      elements := elements + xs;
    }
  }

  // ---------------------------------------------------------------------
  // What processInType appends

  function FieldEntry(f: FieldDef): seq<Lookup> {
    [VariableLike(Field(f))]
  }

  function MethodEntry(m: MethodDecl): seq<Lookup> {
    [FunctionOrMethod(m)]
  }

  /** One field declaration: its named fields, then its anonymous field. */
  function DeclVariants(d: FieldDecl): seq<Lookup> {
    ConcatMap(d.definitions, FieldEntry)
    + (if d.anonymous.Some? then [VariableLike(AnonymousField(d.anonymous.value))] else [])
  }

  function MethodVariants(resolve: Option<TypeSpec>): seq<Lookup> {
    if resolve.Some? then ConcatMap(resolve.value.methods, MethodEntry) else []
  }

  /** An embedded reference is followed when it resolves to a TypeSpec that
      is not an ancestor of the struct. */
  predicate FollowsEmbedded(w: World, t: GoType, r: RefId) {
    r in w.refs && w.refs[r] !in t.enclosing
  }

  lemma FollowedRankDecreases(w: World, t: GoType, k: int)
    requires Valid(w) && t.StructType? && 0 <= k < |t.embedded| && FollowsEmbedded(w, t, t.embedded[k])
    ensures Rank(w, w.specs[w.refs[t.embedded[k]]].underlying) < Rank(w, Some(t))
  {
    if IsSpecType(w, t) {
      assert OwnsItsType(w, t.owner.value);
    }
    EmbeddedRankDecreases(w, t, k, w.refs[t.embedded[k]]);
  }

  /** processInType: for a struct, every field declaration's entries in
      declaration order, then the members of each followed embedded TypeSpec;
      then the methods of `resolve` when it is a TypeSpec. */
  function InTypeVariants(w: World, resolve: Option<TypeSpec>, t: Option<GoType>): seq<Lookup>
    requires Valid(w)
    decreases Rank(w, t), 1, 0
  {
    (if t.Some? && t.value.StructType? then
       ConcatMap(t.value.fields, DeclVariants) + EmbeddedVariants(w, t.value, |t.value.embedded|)
     else [])
    + MethodVariants(resolve)
  }

  /** The members contributed by the first n embedded references. */
  function EmbeddedVariants(w: World, t: GoType, n: nat): seq<Lookup>
    requires Valid(w) && t.StructType? && n <= |t.embedded|
    decreases Rank(w, Some(t)), 0, n
  {
    if n == 0 then []
    else
      EmbeddedVariants(w, t, n - 1) + EmbeddedStep(w, t, n - 1)
  }

  function EmbeddedStep(w: World, t: GoType, k: nat): seq<Lookup>
    requires Valid(w) && t.StructType? && k < |t.embedded|
    decreases Rank(w, Some(t)), 0, k
  {
    var r := t.embedded[k];
    if FollowsEmbedded(w, t, r) then
      FollowedRankDecreases(w, t, k);
      var j := w.refs[r];
      InTypeVariants(w, Some(w.specs[j]), w.specs[j].underlying)
    else []
  }

  method ProcessInType(w: World, result: LookupList, resolve: Option<TypeSpec>, t: Option<GoType>)
    requires Valid(w)
    modifies result
    ensures result.elements == old(result.elements) + InTypeVariants(w, resolve, t)
    decreases Rank(w, t), 2
  {
    if t.Some? && t.value.StructType? {
      AddFieldDecls(result, t.value.fields);
      AddEmbedded(w, result, t.value);
    }
    AddMethods(result, resolve);
  }

  /** The embedded-field loop of processInType: the members of every followed
      embedded TypeSpec, in the order the references were collected. */
  method AddEmbedded(w: World, result: LookupList, st: GoType)
    requires Valid(w) && st.StructType?
    modifies result
    ensures result.elements == old(result.elements) + EmbeddedVariants(w, st, |st.embedded|)
    decreases Rank(w, Some(st)), 1
  {
    for k := 0 to |st.embedded|
      invariant result.elements == old(result.elements) + EmbeddedVariants(w, st, k)
    {
      AddEmbeddedStep(w, result, st, k);
      EmbeddedVariantsSnoc(w, st, k);
      AppendAssoc(old(result.elements), EmbeddedVariants(w, st, k), EmbeddedStep(w, st, k));
    }
  }

  lemma AppendAssoc(a: seq<Lookup>, b: seq<Lookup>, c: seq<Lookup>)
    ensures (a + b) + c == a + (b + c)
  {
  }

  lemma EmbeddedVariantsSnoc(w: World, st: GoType, k: nat)
    requires Valid(w) && st.StructType? && k < |st.embedded|
    ensures EmbeddedVariants(w, st, k + 1) == EmbeddedVariants(w, st, k) + EmbeddedStep(w, st, k)
  {
  }

  /** One embedded reference: followed when it resolves to a TypeSpec that is
      not an ancestor of the struct. */
  method AddEmbeddedStep(w: World, result: LookupList, st: GoType, k: nat)
    requires Valid(w) && st.StructType? && k < |st.embedded|
    modifies result
    ensures result.elements == old(result.elements) + EmbeddedStep(w, st, k)
    decreases Rank(w, Some(st)), 0, k
  {
    var r := st.embedded[k];
    if r in w.refs && w.refs[r] !in st.enclosing {
      var j := w.refs[r];
      FollowedRankDecreases(w, st, k);
      ProcessInType(w, result, Some(w.specs[j]), w.specs[j].underlying);
    }
  }

  /** The field loop of processInType, over the struct's field declarations. */
  method AddFieldDecls(result: LookupList, decls: seq<FieldDecl>)
    modifies result
    ensures result.elements == old(result.elements) + ConcatMap(decls, DeclVariants)
  {
    for i := 0 to |decls|
      invariant result.elements == old(result.elements) + ConcatMap(decls[..i], DeclVariants)
    {
      AddFieldDecl(result, decls[i]);
      ConcatMapSnoc(decls, i, DeclVariants);
    }
    assert decls[..|decls|] == decls;
  }

  /** One field declaration: its named fields, then its anonymous field. */
  method AddFieldDecl(result: LookupList, decl: FieldDecl)
    modifies result
    ensures result.elements == old(result.elements) + DeclVariants(decl)
  {
    var defs := decl.definitions;
    for k := 0 to |defs|
      invariant result.elements == old(result.elements) + ConcatMap(defs[..k], FieldEntry)
    {
      result.Add(VariableLike(Field(defs[k])));
      ConcatMapSnoc(defs, k, FieldEntry);
    }
    assert defs[..|defs|] == defs;
    if decl.anonymous.Some? {
      result.Add(VariableLike(AnonymousField(decl.anonymous.value)));
    }
  }

  /** The method loop of processInType. */
  method AddMethods(result: LookupList, resolve: Option<TypeSpec>)
    modifies result
    ensures result.elements == old(result.elements) + MethodVariants(resolve)
  {
    if resolve.Some? {
      var methods := resolve.value.methods;
      for k := 0 to |methods|
        invariant result.elements == old(result.elements) + ConcatMap(methods[..k], MethodEntry)
      {
        result.Add(FunctionOrMethod(methods[k]));
        ConcatMapSnoc(methods, k, MethodEntry);
      }
      assert methods[..|methods|] == methods;
    }
  }

  // ---------------------------------------------------------------------
  // processDirectory, the completion overload

  /** A file the completion overload asks processFile about: a Go file that,
      when there is an originating file, has another name and (when the
      originating file has a package clause) the same package. */
  predicate CompletionVisits(pf: PsiFile, origin: Option<GoFile>) {
    pf.GoSource? &&
    (origin.None? ||
     (pf.go.name != origin.value.name &&
      (origin.value.packageName.None? || pf.go.packageName == origin.value.packageName)))
  }

  function CompletionStep(hooks: Hooks, origin: Option<GoFile>, local: bool): PsiFile -> seq<Lookup> {
    pf => if CompletionVisits(pf, origin) then hooks.fileItems(pf.go, local) else []
  }

  function DirectoryVariants(hooks: Hooks, dir: Option<Dir>, origin: Option<GoFile>, local: bool): seq<Lookup> {
    if dir.Some? then ConcatMap(dir.value.files, CompletionStep(hooks, origin, local)) else []
  }

  method ProcessDirectory(hooks: Hooks, result: LookupList, dir: Option<Dir>, file: Option<GoFile>, local: bool)
    modifies result
    ensures result.elements == old(result.elements) + DirectoryVariants(hooks, dir, file, local)
  {
    var packageName := if file.Some? then file.value.packageName else None;
    var name := if file.Some? then Some(file.value.name) else None;
    if dir.Some? {
      var files := dir.value.files;
      for i := 0 to |files|
        invariant result.elements == old(result.elements) + ConcatMap(files[..i], CompletionStep(hooks, file, local))
      {
        var pf := files[i];
        ghost var visits := pf.GoSource? && Some(pf.go.name) != name &&
                            !(packageName.Some? && pf.go.packageName != packageName);
        assert visits == CompletionVisits(pf, file);
        if pf.GoSource? && Some(pf.go.name) != name {
          if !(packageName.Some? && pf.go.packageName != packageName) {
            result.AddAll(hooks.fileItems(pf.go, local));
          }
        }
        assert CompletionStep(hooks, file, local)(pf) == if visits then hooks.fileItems(pf.go, local) else [];
        ConcatMapSnoc(files, i, CompletionStep(hooks, file, local));
      }
      assert files[..|files|] == files;
    }
  }

  /** The Go files CompletionVisits admits, in order. */
  function CompletionFiles(files: seq<PsiFile>, origin: Option<GoFile>): seq<GoFile> {
    if |files| == 0 then []
    else (if CompletionVisits(files[0], origin) then [files[0].go] else []) + CompletionFiles(files[1..], origin)
  }

  function WithoutName(gs: seq<GoFile>, name: string): (r: seq<GoFile>)
    ensures forall g :: g in r <==> g in gs && g.name != name
  {
    if |gs| == 0 then []
    else (if gs[0].name != name then [gs[0]] else []) + WithoutName(gs[1..], name)
  }

  /** The two processDirectory filters differ in exactly one respect: with an
      originating file, completion drops the files bearing its name, which
      resolution keeps. */
  lemma {:induction false} DirectoryFiltersDiffer(files: seq<PsiFile>, f: GoFile)
    ensures CompletionFiles(files, Some(f)) == WithoutName(ResolveFiles(files, f.packageName), f.name)
  {
    if |files| > 0 {
      DirectoryFiltersDiffer(files[1..], f);
      var rf := ResolveFiles(files, f.packageName);
      var head := if ResolveVisits(files[0], f.packageName) then [files[0].go] else [];
      assert rf == head + ResolveFiles(files[1..], f.packageName);
      WithoutNameAppend(head, ResolveFiles(files[1..], f.packageName), f.name);
      if head != [] {
        assert WithoutName(head, f.name) == (if head[0].name != f.name then [head[0]] else []) + WithoutName(head[1..], f.name);
        assert head[1..] == [];
      }
    }
  }

  /** Without an originating file neither overload filters by name or by
      package: both scan every Go file. */
  lemma {:induction false} FiltersAgreeWithoutOrigin(files: seq<PsiFile>)
    ensures CompletionFiles(files, None) == ResolveFiles(files, None)
  {
    if |files| > 0 {
      FiltersAgreeWithoutOrigin(files[1..]);
    }
  }

  lemma {:induction false} WithoutNameAppend(a: seq<GoFile>, b: seq<GoFile>, name: string)
    ensures WithoutName(a + b, name) == WithoutName(a, name) + WithoutName(b, name)
  {
    if |a| > 0 {
      assert (a + b)[0] == a[0];
      assert (a + b)[1..] == a[1..] + b;
      WithoutNameAppend(a[1..], b, name);
    } else {
      assert a + b == b;
    }
  }

  /** Completion of a directory is processFile over CompletionFiles, in order. */
  lemma {:induction false} DirectoryVariantsAreFileItems(hooks: Hooks, files: seq<PsiFile>, origin: Option<GoFile>, local: bool)
    ensures DirectoryVariants(hooks, Some(Dir(files)), origin, local)
         == ConcatMap(CompletionFiles(files, origin), g => hooks.fileItems(g, local))
  {
    var f := (g: GoFile) => hooks.fileItems(g, local);
    if |files| > 0 {
      var head := if CompletionVisits(files[0], origin) then [files[0].go] else [];
      DirectoryVariantsAreFileItems(hooks, files[1..], origin, local);
      ConcatMapAppend(head, CompletionFiles(files[1..], origin), f);
      if head != [] {
        assert ConcatMap(head, f) == f(files[0].go) + ConcatMap(head[1..], f);
        assert head[1..] == [];
      }
    }
  }

  /** Resolution scans the originating file again when it sits in the
      searched directory; completion never offers it a second time. */
  lemma {:induction false} OriginatingFileInDirectory(files: seq<PsiFile>, f: GoFile)
    requires GoSource(f) in files
    ensures f in ResolveFiles(files, f.packageName)
    ensures f !in CompletionFiles(files, Some(f))
  {
    DirectoryFiltersDiffer(files, f);
    ResolveFilesKeeps(files, f);
  }

  lemma {:induction false} ResolveFilesKeeps(files: seq<PsiFile>, f: GoFile)
    requires GoSource(f) in files
    ensures f in ResolveFiles(files, f.packageName)
  {
    if files[0] != GoSource(f) {
      ResolveFilesKeeps(files[1..], f);
    }
  }

  // ---------------------------------------------------------------------
  // processImports

  method ProcessImports(result: LookupList, file: GoFile, localCompletion: bool)
    modifies result
    ensures |result.elements| == |old(result.elements)| + (if localCompletion then |file.importMap| else 0)
    ensures result.elements[..|old(result.elements)|] == old(result.elements)
    ensures forall x :: x in result.elements[|old(result.elements)|..] <==>
      localCompletion && x.ImportName? && x.name in file.importMap
  {
    if localCompletion {
      var keys := file.importMap.Keys;
      ghost var added: seq<string> := [];
      ghost var start := result.elements;
      while keys != {}
        invariant result.elements == start + seq(|added|, i requires 0 <= i < |added| => ImportName(added[i]))
        invariant forall k :: k in file.importMap <==> k in keys || k in added
        invariant forall k :: k in keys ==> k !in added
        invariant |added| + |keys| == |file.importMap|
        decreases |keys|
      {
        var k :| k in keys;
        result.Add(ImportName(k));
        added := added + [k];
        keys := keys - {k};
      }
      assert forall x :: x in result.elements[|start|..] ==> x.ImportName? && x.name in added;
      assert forall k :: k in added ==> ImportName(k) in result.elements[|start|..] by {
        forall k | k in added ensures ImportName(k) in result.elements[|start|..] {
          var i :| 0 <= i < |added| && added[i] == k;
          assert result.elements[|start|..][i] == ImportName(k);
        }
      }
    }
  }

  // ---------------------------------------------------------------------
  // getVariants

  /** The members offered for a qualifier of the given type: with one pointer
      level stripped, the type itself (its parent as `resolve`), then the
      TypeSpec its type reference names. */
  function TypeVariants(w: World, goType: Option<GoType>): seq<Lookup>
    requires Valid(w)
  {
    var g := StripPointer(goType);
    OwnTypeVariants(w, g) + ReferencedVariants(w, g)
  }

  /** The type node's own members, with its parent as `resolve`. */
  function OwnTypeVariants(w: World, g: Option<GoType>): seq<Lookup>
    requires Valid(w)
  {
    if g.Some? then InTypeVariants(w, OwnerSpec(w, g.value), g) else []
  }

  /** The members of the TypeSpec the type node's type reference names. */
  function ReferencedVariants(w: World, g: Option<GoType>): seq<Lookup>
    requires Valid(w)
  {
    match TypeRefOf(g)
    case Some(r) =>
      if r in w.refs then InTypeVariants(w, Some(w.specs[w.refs[r]]), w.specs[w.refs[r]].underlying) else []
    case None => []
  }

  /** The builtin file's contribution, under the same conditions as in resolution. */
  function BuiltinVariants(hooks: Hooks, file: GoFile, builtin: Option<PsiFile>): seq<Lookup> {
    if file.name != BuiltinFileName && builtin.Some? && builtin.value.GoSource? then
      hooks.fileItems(builtin.value.go, true)
    else []
  }

  function Variants(w: World, hooks: Hooks, ref: Reference): seq<Lookup>
    requires Valid(w)
  {
    match ref.file
    case OtherFile(_) => []
    case GoSource(f) =>
      if ref.qualifier.None? then
        hooks.fileItems(f, true) + DirectoryVariants(hooks, ref.localDir, Some(f), true)
        + BuiltinVariants(hooks, f, ref.builtin)
      else
        var q := ref.qualifier.value;
        (if q.Some? && NamedType(q.value).Some? then TypeVariants(w, NamedType(q.value).value) else [])
        + DirectoryVariants(hooks, GetDirectory(q), None, false)
  }

  method GetVariants(w: World, hooks: Hooks, ref: Reference) returns (variants: seq<Lookup>)
    requires Valid(w)
    ensures variants == Variants(w, hooks, ref)
  {
    var result := new LookupList();
    if ref.file.GoSource? {
      var file := ref.file.go;
      if ref.qualifier.None? {
        result.AddAll(hooks.fileItems(file, true));
        ProcessDirectory(hooks, result, ref.localDir, Some(file), true);
        if file.name != BuiltinFileName {
          if ref.builtin.Some? && ref.builtin.value.GoSource? {
            result.AddAll(hooks.fileItems(ref.builtin.value.go, true));
          }
        }
      } else {
        var qualifierResolve := ref.qualifier.value;
        if qualifierResolve.Some? && NamedType(qualifierResolve.value).Some? {
          AddTypeMembers(w, result, NamedType(qualifierResolve.value).value);
        }
        ProcessDirectory(hooks, result, GetDirectory(qualifierResolve), None, false);
      }
    }
    variants := result.elements;
  }

  /** The members of a qualifier's type, as the qualified branch of
      getVariants collects them. */
  method AddTypeMembers(w: World, result: LookupList, qualifierType: Option<GoType>)
    requires Valid(w)
    modifies result
    ensures result.elements == old(result.elements) + TypeVariants(w, qualifierType)
  {
    var goType := qualifierType;
    if goType.Some? && goType.value.PointerType? {
      goType := goType.value.pointee;
    }
    assert goType == StripPointer(qualifierType);
    if goType.Some? {
      ProcessInType(w, result, OwnerSpec(w, goType.value), goType);
    }
    AddReferencedMembers(w, result, goType);
  }

  method AddReferencedMembers(w: World, result: LookupList, goType: Option<GoType>)
    requires Valid(w)
    modifies result
    ensures result.elements == old(result.elements) + ReferencedVariants(w, goType)
  {
    var expression := TypeRefOf(goType);
    if expression.Some? && expression.value in w.refs {
      var spec := w.specs[w.refs[expression.value]];
      ProcessInType(w, result, Some(spec), spec.underlying);
    }
  }

  // ---------------------------------------------------------------------
  // Properties of the offered entries

  /** The scopes unqualified completion walks, in order: the file itself, the
      other files of its directory and package, then the builtin file. */
  function CompletionScopes(file: GoFile, localDir: Option<Dir>, builtin: Option<PsiFile>): seq<GoFile> {
    [file]
    + (if localDir.Some? then CompletionFiles(localDir.value.files, Some(file)) else [])
    + (if file.name != BuiltinFileName && builtin.Some? && builtin.value.GoSource? then [builtin.value.go] else [])
  }

  /** Unqualified completion is processFile (local mode) over its scopes, in
      order, nothing removed: local entries first, builtin entries last. */
  lemma UnqualifiedVariantsOverScopes(w: World, hooks: Hooks, ref: Reference)
    requires Valid(w) && ref.file.GoSource? && ref.qualifier.None?
    ensures Variants(w, hooks, ref)
         == ConcatMap(CompletionScopes(ref.file.go, ref.localDir, ref.builtin), g => hooks.fileItems(g, true))
  {
    var file := ref.file.go;
    var f := (g: GoFile) => hooks.fileItems(g, true);
    var dirFiles := if ref.localDir.Some? then CompletionFiles(ref.localDir.value.files, Some(file)) else [];
    var builtinFiles := if file.name != BuiltinFileName && ref.builtin.Some? && ref.builtin.value.GoSource? then [ref.builtin.value.go] else [];
    if ref.localDir.Some? {
      DirectoryVariantsAreFileItems(hooks, ref.localDir.value.files, Some(file), true);
    }
    ConcatMapAppend([file] + dirFiles, builtinFiles, f);
    ConcatMapAppend([file], dirFiles, f);
    assert ConcatMap([file], f) == f(file) + ConcatMap([file][1..], f);
    if builtinFiles != [] {
      assert ConcatMap(builtinFiles, f) == f(ref.builtin.value.go) + ConcatMap(builtinFiles[1..], f);
    }
  }

  /** Qualified completion offers the type's members first and the directory's
      candidates after them, from every Go file of the directory in non-local
      mode. */
  lemma QualifiedVariantsOrder(w: World, hooks: Hooks, ref: Reference, d: Dir)
    requires Valid(w) && ref.file.GoSource? && ref.qualifier.Some?
    requires GetDirectory(ref.qualifier.value) == Some(d)
    ensures var v := Variants(w, hooks, ref);
      var dirItems := ConcatMap(ResolveFiles(d.files, None), g => hooks.fileItems(g, false));
      |dirItems| <= |v| && v[|v| - |dirItems|..] == dirItems
  {
    DirectoryVariantsAreFileItems(hooks, d.files, None, false);
    FiltersAgreeWithoutOrigin(d.files);
  }

  /** A struct's own field entries come first, each named field and each
      anonymous field of every declaration. */
  lemma {:induction false} OwnFieldsOffered(w: World, resolve: Option<TypeSpec>, t: GoType, i: int)
    requires Valid(w) && t.StructType? && 0 <= i < |t.fields|
    ensures forall f :: f in t.fields[i].definitions ==> VariableLike(Field(f)) in InTypeVariants(w, resolve, Some(t))
    ensures t.fields[i].anonymous.Some? ==>
      VariableLike(AnonymousField(t.fields[i].anonymous.value)) in InTypeVariants(w, resolve, Some(t))
  {
    var own := ConcatMap(t.fields, DeclVariants);
    forall f | f in t.fields[i].definitions
      ensures VariableLike(Field(f)) in own
    {
      var k :| 0 <= k < |t.fields[i].definitions| && t.fields[i].definitions[k] == f;
      assert VariableLike(Field(f)) in FieldEntry(t.fields[i].definitions[k]);
      assert VariableLike(Field(f)) in DeclVariants(t.fields[i]);
    }
    if t.fields[i].anonymous.Some? {
      var d := DeclVariants(t.fields[i]);
      assert d[|d| - 1] == VariableLike(AnonymousField(t.fields[i].anonymous.value));
    }
  }

  /** Promotion: every entry offered for a followed embedded TypeSpec is
      offered for the embedding struct too. */
  lemma EmbeddedOfferIncluded(w: World, resolve: Option<TypeSpec>, t: GoType, k: int)
    requires Valid(w) && t.StructType? && 0 <= k < |t.embedded| && FollowsEmbedded(w, t, t.embedded[k])
    ensures forall x ::
      x in InTypeVariants(w, Some(w.specs[w.refs[t.embedded[k]]]), w.specs[w.refs[t.embedded[k]]].underlying)
      ==> x in InTypeVariants(w, resolve, Some(t))
  {
    var n := |t.embedded|;
    EmbeddedPrefix(w, t, k + 1, n);
    var all := EmbeddedVariants(w, t, n);
    var upTo := EmbeddedVariants(w, t, k + 1);
    assert all == upTo + all[|upTo|..];
    assert InTypeVariants(w, resolve, Some(t))
        == ConcatMap(t.fields, DeclVariants) + all + MethodVariants(resolve);
  }

  lemma {:induction false} EmbeddedPrefix(w: World, t: GoType, m: nat, n: nat)
    requires Valid(w) && t.StructType? && m <= n <= |t.embedded|
    ensures EmbeddedVariants(w, t, m) <= EmbeddedVariants(w, t, n)
    decreases n - m
  {
    if m < n {
      EmbeddedPrefix(w, t, m, n - 1);
    }
  }

  /** Resolution and completion agree on methods: without a member processor,
      a method resolution finds on a type is among the entries completion
      offers for it. */
  lemma ResolvedMethodIsOffered(w: World, hooks: Hooks, ident: string, t: GoType, m: MethodDecl)
    requires Valid(w) && hooks.members.None?
    requires ProcessExistingType(w, hooks, ident, Some(t)) == Some(Method(m))
    ensures FunctionOrMethod(m) in InTypeVariants(w, OwnerSpec(w, t), Some(t))
  {
    var spec := OwnerSpec(w, t).value;
    var i :| 0 <= i < |spec.methods| && spec.methods[i] == m;
    assert MethodEntry(spec.methods[i])[0] == FunctionOrMethod(m);
  }

  /** Through a pointer to an unnamed struct type, completion offers the
      struct's fields while resolution finds none of them: resolution looks
      at the pointer type itself and then only at a named pointee. */
  lemma PointerToUnnamedStruct()
    ensures var fld := FieldDef("f", None);
      var st := StructType("struct { f int }", None, {}, [FieldDecl([fld], None)], []);
      var ptr := PointerType("*struct { f int }", None, {}, Some(st));
      var hooks := Hooks((g, l) => None, (g, l) => [], Some((t: GoType) => if t == st then Some(Field(fld)) else None));
      var w := World([], map[]);
      var ref := Reference(GoSource(GoFile("main.go", Some("main"), map[])), Some(Some(Named("p", Some(ptr)))), "f", None, None);
      && Valid(w)
      && Resolve(w, hooks, ref).None?
      && VariableLike(Field(fld)) in Variants(w, hooks, ref)
      && ProcessGoType(w, hooks, "f", Some(st)) == Some(Field(fld))
  {
    var fld := FieldDef("f", None);
    var st := StructType("struct { f int }", None, {}, [FieldDecl([fld], None)], []);
    var w := World([], map[]);
    assert ConcatMap(st.fields, DeclVariants) == [VariableLike(Field(fld))] by {
      assert DeclVariants(st.fields[0]) == [VariableLike(Field(fld))] by {
        assert ConcatMap([fld], FieldEntry) == FieldEntry(fld) + ConcatMap([fld][1..], FieldEntry);
      }
      assert ConcatMap(st.fields, DeclVariants) == DeclVariants(st.fields[0]) + ConcatMap(st.fields[1..], DeclVariants);
    }
    assert VariableLike(Field(fld)) in InTypeVariants(w, None, Some(st));
  }
}
