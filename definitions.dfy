/** Type-reference helpers of definitions.go: the candidate import paths of a
    possibly alias-qualified Go type name, and the memoising lookup of a type's
    definition in the process-wide definition store. */
module Definitions {
  import opened Strings
  import opened Wrappers

  /** What the package index knows of one package: its import path and, for every
      path it imports, the aliases under which that path is imported. */
  datatype PackageInfo = PackageInfo(importPath: string, imports: map<string, seq<string>>)

  /** The alias of a qualified type name `alias.Name`: the text before the first ".". */
  function AliasOf(goType: string): string {
    goType[..IndexOf(goType, '.')]
  }

  /** How many of the aliases registered for import path `p` equal `alias`. */
  function AliasEntries(imports: map<string, seq<string>>, p: string, alias: string): nat {
    if p in imports then multiset(imports[p])[alias] else 0
  }

  /** `possibleImportPaths`. An unqualified name can only come from the package
      itself. A qualified one can come from every imported path registered under
      its alias, once per matching alias entry; Go ranges over the import map in no
      fixed order, so the result is pinned down as a multiset. */
  method PossibleImportPaths(pkgInfo: PackageInfo, goType: string) returns (importPaths: seq<string>)
    ensures '.' !in goType ==> importPaths == [pkgInfo.importPath]
    ensures '.' in goType ==>
      forall p :: multiset(importPaths)[p] == AliasEntries(pkgInfo.imports, p, AliasOf(goType))
  {
    if '.' !in goType {
      return [pkgInfo.importPath];
    }
    var chunks := Split(goType, '.');
    var alias := chunks[0];
    SplitHead(goType, '.');
    assert alias == AliasOf(goType);

    var imports := pkgInfo.imports;
    importPaths := [];
    var remaining := imports.Keys;
    while remaining != {}
      invariant remaining <= imports.Keys
      invariant forall p :: multiset(importPaths)[p] == AliasEntries(imports - remaining, p, alias)
      decreases remaining
    {
      var importPath :| importPath in remaining;
      var aliases := imports[importPath];
      var j := 0;
      while j < |aliases|
        invariant 0 <= j <= |aliases|
        invariant forall p :: multiset(importPaths)[p] ==
                                AliasEntries(imports - remaining, p, alias) + (if p == importPath then multiset(aliases[..j])[alias] else 0)
      {
        assert aliases[..j + 1] == aliases[..j] + [aliases[j]];
        if aliases[j] == alias {
          importPaths := importPaths + [importPath];
        }
        j := j + 1;
      }
      assert aliases[..|aliases|] == aliases;
      remaining := remaining - {importPath};
    }
  }

  /** A definition as the store keeps it (members and enum values are not modelled). */
  datatype Definition = Definition(name: string, packagePath: string, packageName: string)

  /** The key a definition is stored under. The store's own key derivation is not
      part of this model; a definition is keyed by its package path and type name. */
  function StoreKey(packagePath: string, typeName: string): string {
    packagePath + "." + typeName
  }

  /** What `getDefinition` hands back on success: no definition for `nil` and
      primitive types, or the definition together with whether it was newly
      discovered (only then must its members be defined in turn). */
  datatype Lookup = NoDefinition | Found(definition: Definition, isNew: bool)

  /** The process-wide definition store. */
  class DefinitionStore {
    var definitions: map<string, Definition>

    constructor ()
      ensures definitions == map[]
    {
      definitions := map[];
    }

    function ExistsDefinition(referringPackage: string, goType: string): (r: Option<Definition>)
      reads this
      ensures r.Some? <==> StoreKey(referringPackage, goType) in definitions
      ensures r.Some? ==> r.value == definitions[StoreKey(referringPackage, goType)]
    {
      var key := StoreKey(referringPackage, goType);
      if key in definitions then Some(definitions[key]) else None
    }

    method Add(definition: Definition)
      modifies this
      ensures definitions == old(definitions)[StoreKey(definition.packagePath, definition.name) := definition]
    {
      definitions := definitions[StoreKey(definition.packagePath, definition.name) := definition];
    }
  }

  const EmptyPackageMessage := "Referencing Package Path is empty."
  const NoDefinitionMessage := "Failed to generate definition for type: "

  /** `getDefinition`, as the code evidently means it: an empty referring package
      is an error before anything else; `nil` and primitive types have no
      definition; a stored definition is reused; otherwise the locator
      (`findDefinition`) is asked, its error is passed on, a nil answer is an
      error, and a located definition is added to the store exactly once. */
  method GetDefinition(store: DefinitionStore, referringPackage: string, goType: string,
                       isPrimitive: string -> bool,
                       findDefinition: (string, string) -> Result<Option<Definition>, string>)
    returns (r: Result<Lookup, string>)
    modifies store
    ensures referringPackage == "" ==> r == Failure(EmptyPackageMessage)
    ensures referringPackage != "" && (goType == "nil" || isPrimitive(goType)) ==> r == Success(NoDefinition)
    ensures r.Success? && r.value.Found? && !r.value.isNew ==>
      old(store.ExistsDefinition(referringPackage, goType)) == Some(r.value.definition)
    ensures referringPackage != "" && goType != "nil" && !isPrimitive(goType) ==>
      match old(store.ExistsDefinition(referringPackage, goType))
      case Some(d) => r == Success(Found(d, false))
      case None =>
        match findDefinition(referringPackage, goType)
        case Failure(e) => r == Failure(e)
        case Success(None) => r == Failure(NoDefinitionMessage + goType)
        case Success(Some(d)) => r == Success(Found(d, true))
    ensures r.Success? && r.value.Found? && r.value.isNew ==>
      store.definitions == old(store.definitions)[StoreKey(r.value.definition.packagePath, r.value.definition.name) := r.value.definition]
    ensures !(r.Success? && r.value.Found? && r.value.isNew) ==> store.definitions == old(store.definitions)
    ensures |store.definitions| <= |old(store.definitions)| + 1
  {
    if referringPackage == "" {
      return Failure(EmptyPackageMessage);
    }
    if goType == "nil" {
      return Success(NoDefinition);
    }
    if isPrimitive(goType) {
      return Success(NoDefinition);
    }
    var existing := store.ExistsDefinition(referringPackage, goType);
    if existing.Some? {
      return Success(Found(existing.value, false));
    }
    var located := findDefinition(referringPackage, goType);
    match located
    case Failure(e) =>
      return Failure(e);
    case Success(None) =>
      return Failure(NoDefinitionMessage + goType);
    case Success(Some(d)) =>
      store.Add(d);
      return Success(Found(d, true));
  }
}
