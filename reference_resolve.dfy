/** Resolution in GoReferenceBase: what an identifier, unqualified or behind a
    qualifier, refers to. Every step is a first-match search: the first scope,
    file, member or method that gives a hit wins and later ones are not looked
    at. */
module GoReferenceBase {
  import opened FirstMatch
  import opened PsiModel

  /** The operations a concrete reference class supplies.
      `unqualified` is processUnqualified(file, localResolve);
      `fileItems` is what processFile(result, file, localCompletion) appends;
      `members` is createProcessor(): None when it returns null (the default),
      otherwise the member that processDeclarations on a struct type finds for
      the identifier, if any. */
  datatype Hooks = Hooks(
    unqualified: (GoFile, bool) -> Option<Elem>,
    fileItems: (GoFile, bool) -> seq<Lookup>,
    members: Option<GoType -> Option<Elem>>)

  /** One reference: the file containing it, its qualifier (absent, or present
      and resolving to an element or to nothing), the identifier's text, the
      directory of the containing file and the SDK's builtin file, each as the
      platform finds them. */
  datatype Reference = Reference(
    file: PsiFile,
    qualifier: Option<Option<Elem>>,
    identifier: string,
    localDir: Option<Dir>,
    builtin: Option<PsiFile>)

  const BuiltinFileName: string := "builtin.go"

  // ---------------------------------------------------------------------
  // getDirectory

  /** The package directory a resolved qualifier names: an import spec's
      import target, or a directory itself; anything else names none. */
  function GetDirectory(qualifierResolve: Option<Elem>): (dir: Option<Dir>)
    ensures dir.Some? ==>
      qualifierResolve.Some? && (qualifierResolve.value.ImportSpec? || qualifierResolve.value.Directory?)
    ensures qualifierResolve.Some? && qualifierResolve.value.ImportSpec? ==>
      dir == qualifierResolve.value.importString.target
    ensures qualifierResolve.Some? && qualifierResolve.value.Directory? ==>
      dir == Some(qualifierResolve.value.dir)
  {
    match qualifierResolve
    case Some(ImportSpec(s)) => s.target
    case Some(Directory(d)) => Some(d)
    case _ => None
  }

  // ---------------------------------------------------------------------
  // processDirectory, the resolve overload

  /** A file the resolve overload asks processUnqualified about: a Go file,
      of the given package when one is given. */
  predicate ResolveVisits(pf: PsiFile, packageName: Option<string>) {
    pf.GoSource? && (packageName.None? || pf.go.packageName == packageName)
  }

  function ResolveStep(hooks: Hooks, packageName: Option<string>, local: bool): PsiFile -> Option<Elem> {
    pf => if ResolveVisits(pf, packageName) then hooks.unqualified(pf.go, local) else None
  }

  /** The first hit of processUnqualified over the directory's files, in
      order, among the files ResolveVisits admits. */
  function ProcessDirectory(hooks: Hooks, dir: Option<Dir>, packageName: Option<string>, local: bool): (r: Option<Elem>)
    ensures dir.None? ==> r.None?
    ensures r.Some? ==>
      exists i :: 0 <= i < |dir.value.files| && ResolveVisits(dir.value.files[i], packageName) &&
        hooks.unqualified(dir.value.files[i].go, local) == r &&
        NoneBefore(dir.value.files, ResolveStep(hooks, packageName, local), i)
    ensures r.None? && dir.Some? ==>
      forall i :: 0 <= i < |dir.value.files| && ResolveVisits(dir.value.files[i], packageName) ==>
        hooks.unqualified(dir.value.files[i].go, local).None?
  {
    if dir.None? then None else FirstSome(dir.value.files, ResolveStep(hooks, packageName, local))
  }

  /** The Go files of `files` that ResolveVisits admits, in order. */
  function ResolveFiles(files: seq<PsiFile>, packageName: Option<string>): (gs: seq<GoFile>)
    ensures forall g :: g in gs ==> GoSource(g) in files
    ensures forall g :: g in gs && packageName.Some? ==> g.packageName == packageName
  {
    if |files| == 0 then []
    else (if ResolveVisits(files[0], packageName) then [files[0].go] else []) + ResolveFiles(files[1..], packageName)
  }

  /** Skipping the files the filter rejects changes no first-match scan. */
  lemma {:induction false} ProcessDirectoryIsScanOfVisitedFiles(hooks: Hooks, files: seq<PsiFile>, packageName: Option<string>, local: bool)
    ensures ProcessDirectory(hooks, Some(Dir(files)), packageName, local)
         == FirstSome(ResolveFiles(files, packageName), g => hooks.unqualified(g, local))
  {
    var step := ResolveStep(hooks, packageName, local);
    var f := (g: GoFile) => hooks.unqualified(g, local);
    if |files| > 0 {
      var head := if ResolveVisits(files[0], packageName) then [files[0].go] else [];
      ProcessDirectoryIsScanOfVisitedFiles(hooks, files[1..], packageName, local);
      FirstSomeAppend(head, ResolveFiles(files[1..], packageName), f);
      if head != [] {
        assert FirstSome(head, f) == f(files[0].go) by {
          assert FirstSome(head[1..], f) == None;
        }
      }
    }
  }

  // ---------------------------------------------------------------------
  // Unqualified resolution

  /** The builtin fallback: processUnqualified on the SDK's builtin file,
      unless the current file is itself named builtin.go or the builtin file
      is missing or not a Go file. */
  function ResolveBuiltin(hooks: Hooks, file: GoFile, builtin: Option<PsiFile>): (r: Option<Elem>)
    ensures file.name == BuiltinFileName ==> r.None?
    ensures builtin.None? || !builtin.value.GoSource? ==> r.None?
    ensures file.name != BuiltinFileName && builtin.Some? && builtin.value.GoSource? ==>
      r == hooks.unqualified(builtin.value.go, true)
  {
    if file.name != BuiltinFileName && builtin.Some? && builtin.value.GoSource? then
      hooks.unqualified(builtin.value.go, true)
    else None
  }

  /** The scopes unqualified resolution consults, in order: local file, then
      the directory's files of the same package, then the builtin file. */
  function ResolveScopes(file: GoFile, localDir: Option<Dir>, builtin: Option<PsiFile>): seq<GoFile> {
    [file]
    + (if localDir.Some? then ResolveFiles(localDir.value.files, file.packageName) else [])
    + (if file.name != BuiltinFileName && builtin.Some? && builtin.value.GoSource? then [builtin.value.go] else [])
  }

  function ResolveUnqualified(hooks: Hooks, file: GoFile, localDir: Option<Dir>, builtin: Option<PsiFile>): (r: Option<Elem>)
    ensures r.Some? ==> exists g :: g in ResolveScopes(file, localDir, builtin) && hooks.unqualified(g, true) == r
  {
    var local := hooks.unqualified(file, true);
    var dirHit := ProcessDirectory(hooks, localDir, file.packageName, true);
    var r := local.OrElse(dirHit).OrElse(ResolveBuiltin(hooks, file, builtin));
    assert r.Some? ==> exists g :: g in ResolveScopes(file, localDir, builtin) && hooks.unqualified(g, true) == r by {
      if r.Some? && local.None? && dirHit.Some? {
        ProcessDirectoryIsScanOfVisitedFiles(hooks, localDir.value.files, file.packageName, true);
      }
    }
    r
  }

  /** Unqualified resolution is a single first-match scan of processUnqualified
      (in local mode) over ResolveScopes: local shadows package shadows builtin. */
  lemma UnqualifiedIsFirstOverScopes(hooks: Hooks, file: GoFile, localDir: Option<Dir>, builtin: Option<PsiFile>)
    ensures ResolveUnqualified(hooks, file, localDir, builtin)
         == FirstSome(ResolveScopes(file, localDir, builtin), g => hooks.unqualified(g, true))
  {
    var f := (g: GoFile) => hooks.unqualified(g, true);
    var dirFiles := if localDir.Some? then ResolveFiles(localDir.value.files, file.packageName) else [];
    var builtinFiles := if file.name != BuiltinFileName && builtin.Some? && builtin.value.GoSource? then [builtin.value.go] else [];
    if localDir.Some? {
      ProcessDirectoryIsScanOfVisitedFiles(hooks, localDir.value.files, file.packageName, true);
    }
    FirstSomeAppend([file] + dirFiles, builtinFiles, f);
    FirstSomeAppend([file], dirFiles, f);
    assert FirstSome([file], f) == f(file) by { assert FirstSome([file][1..], f) == None; }
    if builtinFiles != [] {
      assert FirstSome(builtinFiles, f) == f(builtin.value.go) by { assert FirstSome(builtinFiles[1..], f) == None; }
    }
  }

  /** A hit in the local file is returned whatever the directory and the
      builtin file hold: later scopes are not consulted. */
  lemma LocalScopeShadows(hooks: Hooks, file: GoFile, dir1: Option<Dir>, builtin1: Option<PsiFile>,
                                                      dir2: Option<Dir>, builtin2: Option<PsiFile>)
    requires hooks.unqualified(file, true).Some?
    ensures ResolveUnqualified(hooks, file, dir1, builtin1) == hooks.unqualified(file, true)
    ensures ResolveUnqualified(hooks, file, dir1, builtin1) == ResolveUnqualified(hooks, file, dir2, builtin2)
  {
  }

  /** A hit in the same directory is returned whatever the builtin file holds. */
  lemma PackageScopeShadowsBuiltin(hooks: Hooks, file: GoFile, dir: Option<Dir>, builtin1: Option<PsiFile>, builtin2: Option<PsiFile>)
    requires hooks.unqualified(file, true).None?
    requires ProcessDirectory(hooks, dir, file.packageName, true).Some?
    ensures ResolveUnqualified(hooks, file, dir, builtin1) == ProcessDirectory(hooks, dir, file.packageName, true)
    ensures ResolveUnqualified(hooks, file, dir, builtin1) == ResolveUnqualified(hooks, file, dir, builtin2)
  {
  }

  /** Inside builtin.go the builtin file is never consulted, and a missing
      builtin file leaves the result of the first two scopes unchanged. */
  lemma BuiltinFallbackRule(hooks: Hooks, file: GoFile, dir: Option<Dir>, builtin: Option<PsiFile>)
    ensures file.name == BuiltinFileName || builtin.None? ==>
      ResolveUnqualified(hooks, file, dir, builtin)
        == hooks.unqualified(file, true).OrElse(ProcessDirectory(hooks, dir, file.packageName, true))
    ensures file.name != BuiltinFileName && builtin.Some? && builtin.value.GoSource? &&
            hooks.unqualified(file, true).None? && ProcessDirectory(hooks, dir, file.packageName, true).None? ==>
      ResolveUnqualified(hooks, file, dir, builtin) == hooks.unqualified(builtin.value.go, true)
  {
  }

  // ---------------------------------------------------------------------
  // Member lookup in a type: processGoType, processInTypeRef, processExistingType

  /** The first method of the TypeSpec whose name is the identifier's text. */
  function MethodByName(spec: Option<TypeSpec>, ident: string): (r: Option<Elem>)
    ensures r.Some? ==> spec.Some? && r.value.Method? && r.value.decl in spec.value.methods && r.value.decl.name == ident
    ensures r.None? <==> spec.None? || forall m :: m in spec.value.methods ==> m.name != ident
    ensures r.Some? ==>
      exists i :: 0 <= i < |spec.value.methods| && r.value.decl == spec.value.methods[i] &&
        forall j :: 0 <= j < i ==> spec.value.methods[j].name != ident
  {
    if spec.None? then None
    else
      var f := (m: MethodDecl) => if m.name == ident then Some(Method(m)) else None;
      var r := FirstSome(spec.value.methods, f);
      assert r.Some? ==>
        exists i :: 0 <= i < |spec.value.methods| && r.value.decl == spec.value.methods[i] &&
          forall j :: 0 <= j < i ==> spec.value.methods[j].name != ident
      by {
        if r.Some? {
          var i :| 0 <= i < |spec.value.methods| && f(spec.value.methods[i]) == r && NoneBefore(spec.value.methods, f, i);
          assert forall j :: 0 <= j < i ==> f(spec.value.methods[j]).None?;
        }
      }
      assert r.None? ==> forall m :: m in spec.value.methods ==> m.name != ident by {
        if r.None? {
          forall m | m in spec.value.methods ensures m.name != ident {
            var i :| 0 <= i < |spec.value.methods| && spec.value.methods[i] == m;
            assert f(spec.value.methods[i]).None?;
          }
        }
      }
      r
  }

  /** The type a resolved type reference refers to. */
  function Target(w: World, r: RefId): Option<GoType>
    requires RefsInRange(w) && r in w.refs
  {
    w.specs[w.refs[r]].underlying
  }

  /** The textual recursion stopper: the referenced type's text equals the
      stopper's text. */
  predicate Stops(w: World, r: RefId, stopper: Option<GoType>)
    requires RefsInRange(w) && r in w.refs
  {
    stopper.Some? && Target(w, r).Some? && stopper.value.text == Target(w, r).value.text
  }

  /** The rank processInTypeRef recurses into: that of the followed type. */
  function InTypeRefRank(w: World, ref: Option<RefId>, stopper: Option<GoType>): nat
    requires RefsInRange(w)
  {
    if ref.Some? && ref.value in w.refs && !Stops(w, ref.value, stopper) then Rank(w, Target(w, ref.value)) else 0
  }

  /** processInTypeRef: follow a type reference to a TypeSpec's type and look
      the member up there, unless the reference is absent or unresolved, or
      its type reads the same as the stopper. */
  function ProcessInTypeRef(w: World, hooks: Hooks, ident: string, ref: Option<RefId>, stopper: Option<GoType>): (r: Option<Elem>)
    requires Valid(w)
    ensures ref.None? || ref.value !in w.refs ==> r.None?
    ensures ref.Some? && ref.value in w.refs && Stops(w, ref.value, stopper) ==> r.None?
    decreases InTypeRefRank(w, ref, stopper), 3, 0
  {
    if ref.None? || ref.value !in w.refs then None
    else if Stops(w, ref.value, stopper) then None
    else ProcessExistingType(w, hooks, ident, Target(w, ref.value))
  }

  /** The embedded-field search of processExistingType: processInTypeRef on the
      struct's collected references from index k on, first hit wins; the
      struct itself is the stopper. */
  function EmbeddedSearch(w: World, hooks: Hooks, ident: string, t: GoType, k: nat): Option<Elem>
    requires Valid(w) && t.StructType? && k <= |t.embedded|
    decreases Rank(w, Some(t)), 1, |t.embedded| - k
  {
    if k == |t.embedded| then None
    else
      var ref := t.embedded[k];
      assert InTypeRefRank(w, Some(ref), Some(t)) < Rank(w, Some(t)) by {
        if ref in w.refs && !Stops(w, ref, Some(t)) {
          EmbeddedRankDecreases(w, t, k, w.refs[ref]);
        }
      }
      var here := ProcessInTypeRef(w, hooks, ident, Some(ref), Some(t));
      here.OrElse(EmbeddedSearch(w, hooks, ident, t, k + 1))
  }

  /** processExistingType: for a struct, and only when a member processor
      exists, the directly declared member first and then the embedded fields;
      failing that, the first method of the type's parent TypeSpec named like
      the identifier. */
  function ProcessExistingType(w: World, hooks: Hooks, ident: string, t: Option<GoType>): (r: Option<Elem>)
    requires Valid(w)
    ensures t.None? ==> r.None?
    ensures t.Some? && t.value.StructType? && hooks.members.Some? && hooks.members.value(t.value).Some? ==>
      r == hooks.members.value(t.value)
    ensures t.Some? && (!t.value.StructType? || hooks.members.None?) ==>
      r == MethodByName(OwnerSpec(w, t.value), ident)
    ensures t.Some? && r.None? ==> MethodByName(OwnerSpec(w, t.value), ident).None?
    decreases Rank(w, t), 2, 0
  {
    if t.None? then None
    else
      var fromStruct :=
        if t.value.StructType? && hooks.members.Some? then
          hooks.members.value(t.value).OrElse(EmbeddedSearch(w, hooks, ident, t.value, 0))
        else None;
      fromStruct.OrElse(MethodByName(OwnerSpec(w, t.value), ident))
  }

  /** processGoType: the type as given first; then, with one pointer level
      stripped, the TypeSpec its type reference names, the stripped type being
      the stopper. */
  function ProcessGoType(w: World, hooks: Hooks, ident: string, t: Option<GoType>): (r: Option<Elem>)
    requires Valid(w)
    ensures t.None? ==> r.None?
    ensures ProcessExistingType(w, hooks, ident, t).Some? ==> r == ProcessExistingType(w, hooks, ident, t)
    ensures t.Some? && ProcessExistingType(w, hooks, ident, t).None? ==>
      r == ProcessInTypeRef(w, hooks, ident, TypeRefOf(StripPointer(t)), StripPointer(t))
  {
    if t.None? then None
    else
      var fromExisting := ProcessExistingType(w, hooks, ident, t);
      var stripped := StripPointer(t);
      fromExisting.OrElse(ProcessInTypeRef(w, hooks, ident, TypeRefOf(stripped), stripped))
  }

  /** `var x T; x.f`: a type name that has no member itself follows its own
      reference, with itself as the stopper. */
  lemma TypeNameFollowsItself(w: World, hooks: Hooks, ident: string, t: GoType)
    requires Valid(w) && t.TypeName? && ProcessExistingType(w, hooks, ident, Some(t)).None?
    ensures ProcessGoType(w, hooks, ident, Some(t)) == ProcessInTypeRef(w, hooks, ident, Some(t.ref), Some(t))
  {
  }

  /** A resolved reference whose target reads differently from the stopper
      is looked up in its target type. */
  lemma FollowsResolvedReference(w: World, hooks: Hooks, ident: string, r: RefId, stopper: Option<GoType>)
    requires Valid(w) && r in w.refs && !Stops(w, r, stopper)
    ensures ProcessInTypeRef(w, hooks, ident, Some(r), stopper) == ProcessExistingType(w, hooks, ident, Target(w, r))
  {
  }

  /** After the type itself, exactly one pointer level is looked through: a
      pointer to a pointer is never followed. */
  lemma OnePointerLevel(w: World, hooks: Hooks, ident: string, t: GoType)
    requires Valid(w) && t.PointerType? && t.pointee.Some? && t.pointee.value.PointerType?
    ensures ProcessGoType(w, hooks, ident, Some(t)) == ProcessExistingType(w, hooks, ident, Some(t))
  {
  }

  /** A pointer to a named type resolves through the name with the pointee
      as the stopper. */
  lemma PointerToNamedType(w: World, hooks: Hooks, ident: string, t: GoType)
    requires Valid(w) && t.PointerType? && t.pointee.Some? && t.pointee.value.TypeName?
    requires ProcessExistingType(w, hooks, ident, Some(t)).None?
    ensures ProcessGoType(w, hooks, ident, Some(t))
         == ProcessInTypeRef(w, hooks, ident, Some(t.pointee.value.ref), t.pointee)
  {
  }

  /** Embedded fields are tried in collected order and the first hit wins,
      before any method of the parent TypeSpec. */
  lemma {:induction false} FirstEmbeddedHitWins(w: World, hooks: Hooks, ident: string, t: GoType, i: nat)
    requires Valid(w) && t.StructType? && hooks.members.Some? && hooks.members.value(t).None?
    requires i < |t.embedded| && ProcessInTypeRef(w, hooks, ident, Some(t.embedded[i]), Some(t)).Some?
    requires forall j :: 0 <= j < i ==> ProcessInTypeRef(w, hooks, ident, Some(t.embedded[j]), Some(t)).None?
    ensures ProcessExistingType(w, hooks, ident, Some(t)) == ProcessInTypeRef(w, hooks, ident, Some(t.embedded[i]), Some(t))
  {
    EmbeddedSearchAt(w, hooks, ident, t, 0, i);
  }

  lemma {:induction false} EmbeddedSearchAt(w: World, hooks: Hooks, ident: string, t: GoType, k: nat, i: nat)
    requires Valid(w) && t.StructType? && k <= i < |t.embedded|
    requires ProcessInTypeRef(w, hooks, ident, Some(t.embedded[i]), Some(t)).Some?
    requires forall j :: k <= j < i ==> ProcessInTypeRef(w, hooks, ident, Some(t.embedded[j]), Some(t)).None?
    ensures EmbeddedSearch(w, hooks, ident, t, k) == ProcessInTypeRef(w, hooks, ident, Some(t.embedded[i]), Some(t))
    decreases i - k
  {
    if k < i {
      EmbeddedSearchAt(w, hooks, ident, t, k + 1, i);
    }
  }

  /** The embedded loop from index k misses when every reference from k on
      misses. */
  lemma {:induction false} EmbeddedSearchNone(w: World, hooks: Hooks, ident: string, t: GoType, k: nat)
    requires Valid(w) && t.StructType? && k <= |t.embedded|
    requires forall j :: k <= j < |t.embedded| ==> ProcessInTypeRef(w, hooks, ident, Some(t.embedded[j]), Some(t)).None?
    ensures EmbeddedSearch(w, hooks, ident, t, k).None?
    decreases |t.embedded| - k
  {
    if k < |t.embedded| {
      EmbeddedSearchNone(w, hooks, ident, t, k + 1);
    }
  }

  /** A struct whose direct lookup and embedded fields all miss falls back to
      the methods of its parent TypeSpec, even when a member processor exists. */
  lemma StructFallsBackToMethods(w: World, hooks: Hooks, ident: string, t: GoType)
    requires Valid(w) && t.StructType? && hooks.members.Some? && hooks.members.value(t).None?
    requires forall j :: 0 <= j < |t.embedded| ==> ProcessInTypeRef(w, hooks, ident, Some(t.embedded[j]), Some(t)).None?
    ensures ProcessExistingType(w, hooks, ident, Some(t)) == MethodByName(OwnerSpec(w, t), ident)
  {
    EmbeddedSearchNone(w, hooks, ident, t, 0);
  }

  /** A struct that embeds itself is not searched again: the textual stopper
      sees the same text. */
  lemma SelfEmbeddingStops(w: World, hooks: Hooks, ident: string, i: SpecId, k: nat)
    requires Valid(w) && i < |w.specs| && w.specs[i].underlying.Some?
    requires var t := w.specs[i].underlying.value; t.StructType? && k < |t.embedded| && t.embedded[k] in w.refs && w.refs[t.embedded[k]] == i
    ensures ProcessInTypeRef(w, hooks, ident, Some(w.specs[i].underlying.value.embedded[k]), w.specs[i].underlying).None?
  {
  }

  /** Method promotion: a struct S whose own lookup misses, and whose
      embedded references before index i miss, resolves through the TypeSpec
      E that reference i names to the method E declares under the identifier,
      provided nothing in E's own type matches first. */
  lemma MethodPromotion(w: World, hooks: Hooks, ident: string, s: SpecId, e: SpecId, i: nat, m: MethodDecl)
    requires Valid(w) && s < |w.specs| && e < |w.specs| && hooks.members.Some?
    requires w.specs[s].underlying.Some? && w.specs[e].underlying.Some?
    requires var st := w.specs[s].underlying.value; var et := w.specs[e].underlying.value;
      st.StructType? && hooks.members.value(st).None? &&
      i < |st.embedded| && st.embedded[i] in w.refs && w.refs[st.embedded[i]] == e && st.text != et.text &&
      (forall j :: 0 <= j < i ==> ProcessInTypeRef(w, hooks, ident, Some(st.embedded[j]), Some(st)).None?)
    requires var et := w.specs[e].underlying.value;
      et.StructType? ==>
        hooks.members.value(et).None? &&
        forall j :: 0 <= j < |et.embedded| ==> ProcessInTypeRef(w, hooks, ident, Some(et.embedded[j]), Some(et)).None?
    requires MethodByName(Some(w.specs[e]), ident) == Some(Method(m))
    ensures ProcessExistingType(w, hooks, ident, w.specs[s].underlying) == Some(Method(m))
  {
    var st := w.specs[s].underlying.value;
    var et := w.specs[e].underlying.value;
    assert OwnsItsType(w, e);
    assert OwnerSpec(w, et) == Some(w.specs[e]);
    if et.StructType? {
      StructFallsBackToMethods(w, hooks, ident, et);
    }
    assert ProcessExistingType(w, hooks, ident, Some(et)) == Some(Method(m));
    FollowsResolvedReference(w, hooks, ident, st.embedded[i], Some(st));
    FirstEmbeddedHitWins(w, hooks, ident, st, i);
  }

  // ---------------------------------------------------------------------
  // Qualified resolution and resolve()

  /** Member lookup in the qualifier's type, tried when the qualifier
      resolves to a named element. */
  function MemberOfQualifier(w: World, hooks: Hooks, ident: string, qualifierResolve: Option<Elem>): Option<Elem>
    requires Valid(w)
  {
    if qualifierResolve.Some? && NamedType(qualifierResolve.value).Some? then
      ProcessGoType(w, hooks, ident, NamedType(qualifierResolve.value).value)
    else None
  }

  function ResolveQualified(w: World, hooks: Hooks, ident: string, qualifierResolve: Option<Elem>): (r: Option<Elem>)
    requires Valid(w)
    ensures r.Some? ==>
      r == MemberOfQualifier(w, hooks, ident, qualifierResolve) ||
      r == ProcessDirectory(hooks, GetDirectory(qualifierResolve), None, false)
  {
    MemberOfQualifier(w, hooks, ident, qualifierResolve)
      .OrElse(ProcessDirectory(hooks, GetDirectory(qualifierResolve), None, false))
  }

  /** resolve(): only references inside Go files resolve; without a qualifier
      the scopes are searched, with one the qualifier's type and then its
      package directory. */
  function Resolve(w: World, hooks: Hooks, ref: Reference): (r: Option<Elem>)
    requires Valid(w)
    ensures !ref.file.GoSource? ==> r.None?
    ensures ref.file.GoSource? && ref.qualifier.None? ==>
      r == FirstSome(ResolveScopes(ref.file.go, ref.localDir, ref.builtin), g => hooks.unqualified(g, true))
    ensures ref.file.GoSource? && ref.qualifier.Some? ==>
      r == ResolveQualified(w, hooks, ref.identifier, ref.qualifier.value)
  {
    match ref.file
    case OtherFile(_) => None
    case GoSource(f) =>
      if ref.qualifier.None? then
        UnqualifiedIsFirstOverScopes(hooks, f, ref.localDir, ref.builtin);
        ResolveUnqualified(hooks, f, ref.localDir, ref.builtin)
      else ResolveQualified(w, hooks, ref.identifier, ref.qualifier.value)
  }

  /** Member lookup on the qualifier's type comes before the directory: a
      member hit is returned whatever the directory holds. */
  lemma TypeMemberBeforeDirectory(w: World, hooks: Hooks, ident: string, q1: Elem, d: Dir)
    requires Valid(w) && MemberOfQualifier(w, hooks, ident, Some(q1)).Some?
    ensures ResolveQualified(w, hooks, ident, Some(q1)) == MemberOfQualifier(w, hooks, ident, Some(q1))
  {
  }

  /** The directory lookup behind a qualifier uses non-local mode and no
      package filter: it is the first hit over every Go file of the directory. */
  lemma {:induction false} QualifiedDirectoryScansAllPackages(w: World, hooks: Hooks, ident: string, q: Elem, d: Dir)
    requires Valid(w) && MemberOfQualifier(w, hooks, ident, Some(q)).None? && GetDirectory(Some(q)) == Some(d)
    ensures ResolveQualified(w, hooks, ident, Some(q))
         == FirstSome(ResolveFiles(d.files, None), g => hooks.unqualified(g, false))
    ensures forall pf :: pf in d.files && pf.GoSource? ==> pf.go in ResolveFiles(d.files, None)
  {
    ProcessDirectoryIsScanOfVisitedFiles(hooks, d.files, None, false);
    AllGoFilesVisited(d.files);
  }

  lemma {:induction false} AllGoFilesVisited(files: seq<PsiFile>)
    ensures forall pf :: pf in files && pf.GoSource? ==> pf.go in ResolveFiles(files, None)
  {
    if |files| > 0 {
      AllGoFilesVisited(files[1..]);
      assert forall pf :: pf in files ==> pf == files[0] || pf in files[1..];
    }
  }

  // ---------------------------------------------------------------------
  // resolveImportOrPackage

  /** An import-map entry that decides the lookup: an import spec or an
      import string; other entries are skipped. */
  predicate IsImportEntry(e: Elem) {
    e.ImportSpec? || e.ImportString?
  }

  /** What a deciding entry yields: an import spec itself, or what an import
      string resolves to (possibly nothing). */
  function ImportEntryResult(e: Elem): Option<Elem>
    requires IsImportEntry(e)
  {
    if e.ImportSpec? then Some(e)
    else if e.importString.target.Some? then Some(Directory(e.importString.target.value))
    else None
  }

  function FirstImportEntry(entries: seq<Elem>): (r: Option<Elem>)
    ensures (forall e :: e in entries ==> !IsImportEntry(e)) ==> r.None?
    ensures forall k ::
      (0 <= k < |entries| && IsImportEntry(entries[k]) && forall j :: 0 <= j < k ==> !IsImportEntry(entries[j])) ==>
        r == ImportEntryResult(entries[k])
  {
    if |entries| == 0 then None
    else if IsImportEntry(entries[0]) then ImportEntryResult(entries[0])
    else
      var rest := FirstImportEntry(entries[1..]);
      assert forall k :: 1 <= k < |entries| ==> entries[k] == entries[1..][k - 1];
      rest
  }

  /** resolveImportOrPackage: the entries the import map holds under the
      identifier, first deciding entry wins; no entries gives nothing. */
  function ResolveImportOrPackage(file: GoFile, id: string): (r: Option<Elem>)
    ensures id !in file.importMap ==> r.None?
    ensures id in file.importMap ==> r == FirstImportEntry(file.importMap[id])
  {
    FirstImportEntry(if id in file.importMap then file.importMap[id] else [])
  }

  /** An import string that comes first decides the lookup even when it
      resolves to nothing: later entries are not examined. */
  lemma UnresolvedImportStringDecides(file: GoFile, id: string, s: ImportStr)
    requires id in file.importMap && |file.importMap[id]| > 0
    requires file.importMap[id][0] == ImportString(s) && s.target.None?
    ensures ResolveImportOrPackage(file, id).None?
  {
  }
}
